/** `fat_handler` and `log_init_once`: a signal handler that configures itself on first entry, while any number of
  * activations of it run interleaved (on other threads, or nested on one).
  */
module FatHandler {
  import opened Options
  import opened Words
  import StackProbe

  const PROBE_DEFAULT: nat := 0x1_0000

  /** The environment variables it reads: what `strtoul` makes of REPRO_PROBE_BYTES when it is set and not empty,
    * whether REPRO_PROBE_MODE asks for chkstk, whether REPRO_HANDLER_LOG names a file. */
  datatype Config = Config(probe: Option<word>, chkstk: bool, log: bool)

  function Configured(c: Config): word {
    if c.probe.Some? then c.probe.value else PROBE_DEFAULT
  }

  /** The probe size: max(4096, configured). */
  function Size(c: Config): (n: word)
    ensures n >= 4096 && n >= Configured(c) && (n == 4096 || n == Configured(c))
    ensures n == match c.probe case None => 65536 case Some(v) => if v >= 4096 then v else 4096
  {
    if Configured(c) < 4096 then 4096 else Configured(c)
  }

  /** The page count the chkstk probe starts its do-while loop with. */
  function Pages(n: nat): nat {
    (n + 4095) % WORD / StackProbe.STRIDE
  }

  /** The lower bound of 4096 does not keep the count from being zero: sizes in the last page of the address space
    * wrap.  Those are the only ones. */
  lemma ZeroPages(c: Config)
    ensures Pages(Size(c)) == 0 <==> Configured(c) > WORD - 4096
    ensures StackProbe.Strides(Size(c)) == if Configured(c) > WORD - 4096 then WORD else StackProbe.CeilPages(Size(c))
  {
    if Configured(c) <= WORD - 4096 {
      assert Size(c) + 4095 < WORD;
    } else {
      assert Size(c) == Configured(c) && (Size(c) + 4095) % WORD == Size(c) + 4095 - WORD < 4096;
    }
  }

  /** REPRO_PROBE_BYTES=-1 is such a size. */
  lemma MinusOneProbesZeroPages(chkstk: bool, log: bool)
    ensures var c := Config(Some(WORD - 1), chkstk, log); Size(c) == WORD - 1 && Pages(Size(c)) == 0
  {
    ZeroPages(Config(Some(WORD - 1), chkstk, log));
  }

  /** Where an activation is: the next shared variable it is about to read or write. */
  datatype Pc =
    | ReadBytes
    | WriteBytes
    | WriteMode
    | Claim
    | Decide
    | Open
    | Publish(fd: int)
    | CheckLog
    | LoadLog
    | ReadProbe
    | Probing(n: nat, chkstk: bool)

  datatype State = State(
    bytes: nat, chkstk: bool, logFd: int, opens: seq<int>, logged: seq<int>, pcs: map<nat, Pc>)

  const INITIAL: State := State(0, false, -1, [], [], map[])

  function PcOf(s: State, a: nat): Pc {
    if a in s.pcs then s.pcs[a] else ReadBytes
  }

  /** Activation `a` takes one step; `fd` is what `open` returns if that is the step. */
  function Next(c: Config, s: State, a: nat, fd: int): State {
    match PcOf(s, a)
    case ReadBytes => Goto(s, a, if s.bytes == 0 then WriteBytes else CheckLog)
    case WriteBytes => Goto(s.(bytes := Size(c)), a, WriteMode)
    case WriteMode => Goto(s.(chkstk := c.chkstk), a, Claim)
    case Claim => if s.logFd == -1 then Goto(s.(logFd := -2), a, Decide) else Goto(s, a, CheckLog)
    case Decide => if c.log then Goto(s, a, Open) else Goto(s.(logFd := -3), a, CheckLog)
    case Open => Goto(s.(opens := s.opens + [fd]), a, Publish(fd))
    case Publish(f) => Goto(s.(logFd := if f >= 0 then f else -3), a, CheckLog)
    case CheckLog => Goto(s, a, if s.logFd >= 0 then LoadLog else ReadProbe)
    case LoadLog => Goto(if s.logFd < 0 then s else s.(logged := s.logged + [s.logFd]), a, ReadProbe)
    case ReadProbe => Goto(s, a, Probing(s.bytes, s.chkstk))
    case Probing(_, _) => Goto(s, a, ReadBytes)
  }

  function Goto(s: State, a: nat, pc: Pc): State {
    s.(pcs := s.pcs[a := pc])
  }

  /** A run: which activation moves, and what `open` would answer, at each step. */
  function Run(c: Config, s: State, steps: seq<(nat, int)>): State
    decreases |steps|
  {
    if steps == [] then s else Run(c, Next(c, s, steps[0].0, steps[0].1), steps[1..])
  }

  predicate Claiming(pc: Pc) {
    pc.Decide? || pc.Open? || pc.Publish?
  }

  predicate Settled(s: State) {
    s.logFd != -1 && s.logFd != -2
  }

  /** What holds of one activation. */
  predicate PcInv(c: Config, s: State, pc: Pc) {
    && (!pc.ReadBytes? && !pc.WriteBytes? ==> s.bytes == Size(c))
    && (pc.Claim? || Claiming(pc) ==> s.chkstk == c.chkstk)
    && (Claiming(pc) ==> s.logFd == -2)
    && (pc.Open? ==> c.log && s.opens == [])
    && (pc.Decide? ==> s.opens == [])
    && (pc.Publish? ==> s.opens == [pc.fd])
    && (pc.Probing? ==> pc.n == Size(c) && (pc.chkstk ==> c.chkstk))
  }

  /** What holds of the shared variables. */
  predicate Shared(c: Config, s: State) {
    && (s.bytes == 0 || s.bytes == Size(c))
    && (s.chkstk ==> c.chkstk)
    && (s.logFd != -1 ==> s.chkstk == c.chkstk)
    && s.logFd >= -3
    && (s.logFd == -1 ==> s.opens == [])
    && (s.logFd >= 0 ==> s.opens == [s.logFd])
    && (s.logged != [] ==> s.logFd >= 0)
    && AllTo(s.logged, s.logFd)
  }

  predicate AllTo(fds: seq<int>, fd: int) {
    forall i | 0 <= i < |fds| :: fds[i] == fd
  }

  lemma AllToAppend(fds: seq<int>, fd: int)
    requires AllTo(fds, fd)
    ensures AllTo(fds + [fd], fd)
  {
  }

  ghost predicate Inv(c: Config, s: State) {
    && Shared(c, s)
    && (forall a <- s.pcs :: PcInv(c, s, s.pcs[a]))
    && (forall a <- s.pcs, b <- s.pcs :: Claiming(s.pcs[a]) && Claiming(s.pcs[b]) ==> a == b)
  }

  lemma SharedKeeps(c: Config, s: State, a: nat, fd: int)
    requires Shared(c, s) && PcInv(c, s, PcOf(s, a))
    ensures Shared(c, Next(c, s, a, fd))
    ensures PcInv(c, Next(c, s, a, fd), PcOf(Next(c, s, a, fd), a))
  {
    AllToAppend(s.logged, s.logFd);
    assert AllTo([], -1) && AllTo([], -2) && AllTo([], -3);
    hide AllTo;
    match PcOf(s, a) {
      case Claim =>
      case Decide => assert s.logged == [];
      case Publish(f) => assert s.logged == [] && AllTo([], f);
      case _ =>
    }
  }

  lemma OthersKeep(c: Config, s: State, a: nat, fd: int, pc: Pc)
    requires Shared(c, s) && PcInv(c, s, PcOf(s, a)) && PcInv(c, s, pc)
    requires !(Claiming(PcOf(s, a)) && Claiming(pc))
    ensures PcInv(c, Next(c, s, a, fd), pc)
  {
  }

  lemma OthersStay(c: Config, s: State, a: nat, fd: int)
    ensures Next(c, s, a, fd).pcs == s.pcs[a := PcOf(Next(c, s, a, fd), a)]
  {
  }

  lemma NewIsIdle(c: Config, s: State)
    ensures PcInv(c, s, ReadBytes) && !Claiming(ReadBytes)
  {
  }

  /** Only one activation at a time holds the claim to open the log. */
  lemma ClaimsKeep(c: Config, s: State, a: nat, fd: int)
    requires Inv(c, s)
    ensures Claiming(PcOf(Next(c, s, a, fd), a)) ==> forall b <- s.pcs | b != a :: !Claiming(s.pcs[b])
  {
    forall b <- s.pcs | b != a && Claiming(s.pcs[b]) ensures !Claiming(PcOf(Next(c, s, a, fd), a)) {
      assert PcInv(c, s, s.pcs[b]);
    }
  }

  lemma InvKeeps(c: Config, s: State, a: nat, fd: int)
    requires Inv(c, s)
    ensures Inv(c, Next(c, s, a, fd))
  {
    hide Next, Shared, PcInv, Claiming;
    var s' := Next(c, s, a, fd);
    OthersStay(c, s, a, fd);
    NewIsIdle(c, s);
    SharedKeeps(c, s, a, fd);
    ClaimsKeep(c, s, a, fd);
    forall b <- s'.pcs ensures PcInv(c, s', s'.pcs[b]) {
      if b != a {
        OthersKeep(c, s, a, fd, s.pcs[b]);
      }
    }
  }

  lemma {:induction false} RunKeeps(c: Config, s: State, steps: seq<(nat, int)>)
    requires Inv(c, s)
    ensures Inv(c, Run(c, s, steps))
    decreases |steps|
  {
    if steps != [] {
      InvKeeps(c, s, steps[0].0, steps[0].1);
      RunKeeps(c, Next(c, s, steps[0].0, steps[0].1), steps[1..]);
    }
  }

  /** Under every interleaving: the log is opened at most once, everything logged went to that one descriptor, and
    * every probe runs with max(4096, configured size) bytes.  Its page count is zero, in every probe of every run,
    * if and only if the configured size exceeds 2^64-4096. */
  lemma HandlerRuns(c: Config, steps: seq<(nat, int)>)
    ensures var s := Run(c, INITIAL, steps);
            && |s.opens| <= 1 && (s.opens != [] ==> c.log)
            && (s.logged != [] ==> |s.opens| == 1 && s.opens[0] >= 0)
            && (forall i | 0 <= i < |s.logged| :: s.logged[i] == s.opens[0])
    ensures var s := Run(c, INITIAL, steps);
            forall a <- s.pcs | s.pcs[a].Probing? ::
              s.pcs[a].n == Size(c) && (Pages(s.pcs[a].n) == 0 <==> Configured(c) > WORD - 4096)
  {
    RunKeeps(c, INITIAL, steps);
    var s := Run(c, INITIAL, steps);
    assert forall a <- s.pcs :: PcInv(c, s, s.pcs[a]);
    ZeroPages(c);
    OpenedOnce(c, INITIAL, steps);
  }

  /** At most one open ever happens, and only when a log was asked for. */
  lemma {:induction false} OpenedOnce(c: Config, s: State, steps: seq<(nat, int)>)
    requires Inv(c, s) && |s.opens| <= 1 && (s.opens != [] ==> c.log)
    ensures var s' := Run(c, s, steps); |s'.opens| <= 1 && (s'.opens != [] ==> c.log)
    decreases |steps|
  {
    if steps != [] {
      var s1 := Next(c, s, steps[0].0, steps[0].1);
      assert steps[0].0 in s.pcs ==> PcInv(c, s, s.pcs[steps[0].0]);
      InvKeeps(c, s, steps[0].0, steps[0].1);
      OpenedOnce(c, s1, steps[1..]);
    }
  }

  /** The descriptor's life: -1, then -2, then a descriptor or -3, which is final. */
  function Phase(s: State): nat {
    if s.logFd == -1 then 0 else if s.logFd == -2 then 1 else 2
  }

  lemma {:induction false} LogFdSettles(c: Config, s: State, steps: seq<(nat, int)>)
    requires Inv(c, s)
    ensures Phase(s) <= Phase(Run(c, s, steps))
    ensures Settled(s) ==> Run(c, s, steps).logFd == s.logFd
    decreases |steps|
  {
    hide Next, Inv;
    if steps != [] {
      var s1 := Next(c, s, steps[0].0, steps[0].1);
      LogFdStep(c, s, steps[0].0, steps[0].1);
      InvKeeps(c, s, steps[0].0, steps[0].1);
      LogFdSettles(c, s1, steps[1..]);
    }
  }

  /** Each single step moves the descriptor by at most one phase. */
  lemma LogFdStep(c: Config, s: State, a: nat, fd: int)
    requires Inv(c, s)
    ensures Phase(s) <= Phase(Next(c, s, a, fd)) <= Phase(s) + 1
    ensures Next(c, s, a, fd).logFd != s.logFd ==> PcOf(s, a).Claim? || Claiming(PcOf(s, a))
    ensures Settled(s) ==> Next(c, s, a, fd).logFd == s.logFd
  {
    assert a in s.pcs ==> PcInv(c, s, s.pcs[a]);
  }

  /** Once the log descriptor has left -1, every activation that reads the mode reads the configured one. */
  lemma ModeAfterClaim(c: Config, s: State, a: nat, fd: int)
    requires Inv(c, s) && PcOf(s, a).ReadProbe? && s.logFd != -1
    ensures PcOf(Next(c, s, a, fd), a) == Probing(Size(c), c.chkstk)
  {
    assert PcInv(c, s, s.pcs[a]);
  }

  /** Before that it may not: the size is published before the mode, so any number of activations can slip in
    * between and run the alloca probe although chkstk was configured.  This run has `k` of them. */
  function Window(k: nat): seq<(nat, int)> {
    if k == 0 then [(0, 0), (0, 0)] else Window(k - 1) + [(k, 0), (k, 0), (k, 0)]
  }

  lemma {:induction false} RunConcat(c: Config, s: State, a: seq<(nat, int)>, b: seq<(nat, int)>)
    ensures Run(c, s, a + b) == Run(c, Run(c, s, a), b)
    decreases |a|
  {
    hide Next;
    if a == [] {
      assert a + b == b;
    } else {
      RunConcat(c, Next(c, s, a[0].0, a[0].1), a[1..], b);
      assert (a + b)[0] == a[0] && (a + b)[1..] == a[1..] + b;
    }
  }

  /** Three steps of a new activation inside the window. */
  lemma SlipIn(c: Config, s: State, a: nat)
    requires s.bytes == Size(c) && !s.chkstk && s.logFd == -1 && a !in s.pcs
    ensures Run(c, s, [(a, 0), (a, 0), (a, 0)]) == Goto(s, a, Probing(Size(c), false))
  {
    var s1 := Next(c, s, a, 0);
    var s2 := Next(c, s1, a, 0);
    var s3 := Next(c, s2, a, 0);
    assert s1 == Goto(s, a, CheckLog) && s2 == Goto(s1, a, ReadProbe);
    assert s3.pcs == s.pcs[a := Probing(Size(c), false)];
    assert s3 == Goto(s, a, Probing(Size(c), false));
    hide Next, Goto;
    RunThree(c, s, a);
  }

  lemma RunThree(c: Config, s: State, a: nat)
    ensures Run(c, s, [(a, 0), (a, 0), (a, 0)]) == Next(c, Next(c, Next(c, s, a, 0), a, 0), a, 0)
  {
    hide Next;
    var s1 := Next(c, s, a, 0);
    var s2 := Next(c, s1, a, 0);
    assert [(a, 0)][1..] == [];
    assert Run(c, s2, [(a, 0)]) == Next(c, s2, a, 0);
    assert [(a, 0), (a, 0)][1..] == [(a, 0)];
    assert Run(c, s1, [(a, 0), (a, 0)]) == Run(c, s2, [(a, 0)]);
    assert [(a, 0), (a, 0), (a, 0)][1..] == [(a, 0), (a, 0)];
  }

  lemma FirstTwo(c: Config)
    ensures var s := Run(c, INITIAL, [(0, 0), (0, 0)]);
            && s.bytes == Size(c) && !s.chkstk && s.logFd == -1 && s.pcs.Keys == {0}
  {
    var s1 := Next(c, INITIAL, 0, 0);
    var s2 := Next(c, s1, 0, 0);
    assert [(0, 0), (0, 0)][1..] == [(0, 0)];
    assert Run(c, s1, [(0, 0)]) == s2;
  }

  lemma {:induction false} ModeRace(c: Config, k: nat)
    ensures var s := Run(c, INITIAL, Window(k));
            && s.bytes == Size(c) && !s.chkstk && s.logFd == -1
            && (forall a <- s.pcs :: a <= k)
            && (forall a | 1 <= a <= k :: a in s.pcs && s.pcs[a] == Probing(Size(c), false))
  {
    hide Next;
    if k == 0 {
      FirstTwo(c);
    } else {
      ModeRace(c, k - 1);
      RunConcat(c, INITIAL, Window(k - 1), [(k, 0), (k, 0), (k, 0)]);
      SlipIn(c, Run(c, INITIAL, Window(k - 1)), k);
    }
  }

  /** Every activation of every run uses the configured probe. */
  ghost predicate ModeHonoured(c: Config) {
    forall steps, a ::
      PcOf(Run(c, INITIAL, steps), a).Probing? ==> PcOf(Run(c, INITIAL, steps), a).chkstk == c.chkstk
  }

  /** The mode is honoured exactly in the configurations that do not ask for chkstk. */
  lemma ModeExact(c: Config)
    ensures ModeHonoured(c) <==> !c.chkstk
  {
    if c.chkstk {
      ModeRace(c, 1);
      assert PcOf(Run(c, INITIAL, Window(1)), 1) == Probing(Size(c), false);
    } else {
      forall steps, a | PcOf(Run(c, INITIAL, steps), a).Probing?
        ensures !PcOf(Run(c, INITIAL, steps), a).chkstk
      {
        RunKeeps(c, INITIAL, steps);
        assert PcInv(c, Run(c, INITIAL, steps), Run(c, INITIAL, steps).pcs[a]);
      }
    }
  }

  // ------------------------------------------------------------------ the code

  /** Activation `a` takes `n` steps in a row. */
  function Steps(c: Config, s: State, a: nat, fd: int, n: nat): State
    decreases n
  {
    if n == 0 then s else Steps(c, Next(c, s, a, fd), a, fd, n - 1)
  }

  lemma {:induction false} StepsAdd(c: Config, s: State, a: nat, fd: int, m: nat, n: nat)
    ensures Steps(c, Steps(c, s, a, fd, m), a, fd, n) == Steps(c, s, a, fd, m + n)
    decreases m
  {
    hide Next;
    if m > 0 {
      StepsAdd(c, Next(c, s, a, fd), a, fd, m - 1, n);
    }
  }

  lemma {:induction false} StepsAreRun(c: Config, s: State, a: nat, fd: int, n: nat)
    ensures Steps(c, s, a, fd, n) == Run(c, s, seq(n, _ => (a, fd)))
    decreases n
  {
    hide Next;
    if n > 0 {
      StepsAreRun(c, Next(c, s, a, fd), a, fd, n - 1);
      assert seq(n, _ => (a, fd))[1..] == seq(n - 1, _ => (a, fd));
    }
  }

  lemma StepsThree(c: Config, s: State, a: nat, fd: int)
    ensures Steps(c, s, a, fd, 1) == Next(c, s, a, fd)
    ensures Steps(c, s, a, fd, 3) == Next(c, Next(c, Next(c, s, a, fd), a, fd), a, fd)
  {
    hide Next;
    assert Steps(c, s, a, fd, 3) == Steps(c, Next(c, s, a, fd), a, fd, 2);
  }

  lemma StepsFour(c: Config, s: State, a: nat, fd: int)
    ensures Steps(c, s, a, fd, 4) == Next(c, Next(c, Next(c, Next(c, s, a, fd), a, fd), a, fd), a, fd)
  {
    hide Next;
    assert Steps(c, s, a, fd, 4) == Steps(c, Next(c, s, a, fd), a, fd, 3);
    StepsThree(c, Next(c, s, a, fd), a, fd);
  }

  /** A first activation that nothing interrupts opens the log once if one was asked for, logs to it if that worked,
    * and probes as configured. */
  lemma FirstActivation(c: Config, a: nat, fd: int) returns (k: nat)
    ensures var s := Steps(c, INITIAL, a, fd, k);
            && PcOf(s, a) == Probing(match c.probe case None => 65536 case Some(v) => if v >= 4096 then v else 4096,
                                     c.chkstk)
            && s.opens == (if c.log then [fd] else [])
            && s.logFd == (if c.log && fd >= 0 then fd else -3)
            && s.logged == (if c.log && fd >= 0 then [fd] else [])
  {
    var s4 := Next(c, Next(c, Next(c, Next(c, INITIAL, a, fd), a, fd), a, fd), a, fd);
    assert s4.opens == s4.logged == [] && s4.bytes == Size(c) && s4.chkstk == c.chkstk && PcOf(s4, a) == Decide;
    var s := if c.log then Next(c, Next(c, Next(c, s4, a, fd), a, fd), a, fd) else Next(c, s4, a, fd);
    var claimed := if c.log then 7 else 5;
    assert PcOf(s, a) == CheckLog && s.bytes == Size(c) && s.chkstk == c.chkstk && s.logged == [];
    assert s.opens == (if c.log then [fd] else []) && s.logFd == (if c.log && fd >= 0 then fd else -3);
    hide Next;
    StepsFour(c, INITIAL, a, fd);
    StepsThree(c, s4, a, fd);
    StepsAdd(c, INITIAL, a, fd, 4, claimed - 4);
    k := if s.logFd >= 0 then 3 else 2;
    LogThenProbe(c, s, a, fd);
    StepsAdd(c, INITIAL, a, fd, claimed, k);
    k := claimed + k;
  }

  /** The handler's globals.  A handler that is not interrupted is a run of the machine above. */
  class Handler {
    var bytes: nat
    var chkstk: bool
    var logFd: int
    var opens: seq<int>
    var logged: seq<int>

    constructor ()
      ensures Shows(INITIAL)
    {
      bytes, chkstk, logFd, opens, logged := 0, false, -1, [], [];
    }

    ghost predicate Shows(s: State)
      reads this
    {
      bytes == s.bytes && chkstk == s.chkstk && logFd == s.logFd && opens == s.opens && logged == s.logged
    }

    method LogInitOnce(c: Config, fd: int, ghost s: State, ghost a: nat) returns (ghost n: nat)
      requires Shows(s) && PcOf(s, a).Claim?
      modifies this
      ensures Shows(Steps(c, s, a, fd, n)) && PcOf(Steps(c, s, a, fd, n), a).CheckLog?
      ensures opens == if old(logFd) == -1 && c.log then old(opens) + [fd] else old(opens)
      ensures logFd == if old(logFd) != -1 then old(logFd) else if c.log && fd >= 0 then fd else -3
      ensures bytes == old(bytes) && chkstk == old(chkstk) && logged == old(logged)
    {
      if logFd != -1 {
        return 1;
      }
      logFd := -2;
      if !c.log {
        logFd := -3;
        return 2;
      }
      opens := opens + [fd];
      logFd := if fd >= 0 then fd else -3;
      n := 4;
    }

    /** Up to the probe: its size and kind are the result. */
    method FatHandler(c: Config, fd: int, ghost s: State, ghost a: nat) returns (n: nat, mode: bool, ghost k: nat)
      requires Shows(s) && PcOf(s, a).ReadBytes?
      modifies this
      ensures Shows(Steps(c, s, a, fd, k)) && PcOf(Steps(c, s, a, fd, k), a) == Probing(n, mode)
      ensures old(bytes) == 0 ==>
                && n == (match c.probe case None => 65536 case Some(v) => if v >= 4096 then v else 4096)
                && mode == c.chkstk
                && opens == (if old(logFd) == -1 && c.log then old(opens) + [fd] else old(opens))
                && logFd == (if old(logFd) != -1 then old(logFd) else if c.log && fd >= 0 then fd else -3)
      ensures old(bytes) != 0 ==>
                n == old(bytes) && mode == old(chkstk) && opens == old(opens) && logFd == old(logFd)
      ensures logged == (if logFd >= 0 then old(logged) + [logFd] else old(logged)) && bytes == n && chkstk == mode
    {
      ghost var done := 1;
      if bytes == 0 {
        bytes := Size(c);
        chkstk := c.chkstk;
        ghost var m := LogInitOnce(c, fd, Steps(c, s, a, fd, 3), a);
        StepsAdd(c, s, a, fd, 3, m);
        done := 3 + m;
      }
      ghost var s1 := Steps(c, s, a, fd, done);
      if logFd >= 0 {
        logged := logged + [logFd];
        k := 3;
      } else {
        k := 2;
      }
      LogThenProbe(c, s1, a, fd);
      StepsAdd(c, s, a, fd, done, k);
      k := done + k;
      n, mode := bytes, chkstk;
    }
  }

  lemma LogThenProbe(c: Config, s: State, a: nat, fd: int)
    requires PcOf(s, a).CheckLog?
    ensures var s' := Steps(c, s, a, fd, if s.logFd >= 0 then 3 else 2);
            && s' == s.(pcs := s'.pcs, logged := if s.logFd >= 0 then s.logged + [s.logFd] else s.logged)
            && PcOf(s', a) == Probing(s.bytes, s.chkstk)
  {
    if s.logFd >= 0 {
      var s3 := Next(c, Next(c, Next(c, s, a, fd), a, fd), a, fd);
      assert Steps(c, s, a, fd, 3) == s3;
    } else {
      assert Steps(c, s, a, fd, 2) == Next(c, Next(c, s, a, fd), a, fd);
    }
  }
}
