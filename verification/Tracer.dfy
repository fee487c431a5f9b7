/** trace_sigaltstack.c: the preloaded `sigaltstack` wrapper, run by any number of threads at once.
  *
  * One step of a thread is one access to shared state or one system call; a run interleaves steps arbitrarily.
  * What a call is asked to do and how its system calls turn out is given with each step.
  */
module Tracer {
  import opened Options
  import opened TraceRecord

  const SS_DISABLE: int := 2
  const EFAULT: int := 14

  /** `stack_t` */
  datatype Stack = Stack(sp: int, size: int, flags: int)

  const NO_STACK: Stack := Stack(0, 0, SS_DISABLE)

  /** A call of the wrapper: what `ss` points to, if it is given; whether `oss` is given and what it points to; whether
    * each is a bad pointer, one the kernel and the program cannot access; whether both are the same pointer; and the
    * return address. */
  datatype Call = Call(
    ss: Option<Stack>, wantsOld: bool, oss: Stack, badNew: bool, badOld: bool, same: bool, caller: int)

  predicate BadNew(c: Call) {
    c.ss.Some? && c.badNew
  }

  predicate BadOld(c: Call) {
    c.wantsOld && c.badOld
  }

  predicate Faulty(c: Call) {
    BadNew(c) || BadOld(c)
  }

  /** The kernel writes the old stack over the new one. */
  predicate SameStruct(c: Call) {
    c.same && c.ss.Some? && c.wantsOld
  }

  /** What `oss` points to when the call is made. */
  function OssAtEntry(c: Call): Stack {
    if SameStruct(c) then c.ss.value else c.oss
  }

  /** What the caller gets back. */
  datatype Answer = Answer(rc: int, errno: int, oss: Stack)

  datatype Pc =
    | Idle
    | CheckReal
    | CheckDone
    | Lock
    | CheckDoneLocked
    | LookUp
    | OpenLog
    | StoreFd(fd: int)
    | StoreDone
    | Unlock
    | CallReal
    | LoadFd
    | WriteRec(fd: int)
    | Crashed
    | Return

  /** A thread.  `alt` is the kernel's registration, `oss` the caller's buffer, `local` the wrapper's own.  `entry` is
    * errno as the caller left it, and `init` what initialising made of it, if this call did the initialising.  The
    * last five fields are history: the record of every real call made, that call with the registration it left, what a
    * direct call would have answered, the `init` of each call, and what was answered. */
  datatype Thread = Thread(
    pc: Pc, call: Call, alt: Stack, errno: int, oss: Stack, local: Stack, rc: int, err: int,
    entry: int, init: Option<int>,
    hist: seq<Rec>, made: seq<Made>, expected: seq<Answer>, inits: seq<Option<int>>, answers: seq<Answer>)

  datatype Made = Made(call: Call, after: Stack)

  const NO_CALL: Call := Call(None, false, NO_STACK, false, false, false, 0)

  const FRESH: Thread :=
    Thread(Idle, NO_CALL, NO_STACK, 0, NO_STACK, NO_STACK, 0, 0, 0, None, [], [], [], [], [])

  /** `lookups`, `opens` and `initBy` are history: how often the real function was looked up and the log opened, and
    * which call of which thread did it. */
  datatype Shared = Shared(
    resolved: bool, done: bool, fd: int, mutex: Option<nat>, lookups: nat, opens: nat, initBy: Option<(nat, nat)>,
    crashed: bool, log: seq<Rec>)

  datatype System = System(sh: Shared, threads: map<nat, Thread>)

  const INITIAL: System := System(Shared(false, false, -1, None, 0, 0, None, false, []), map[])

  /** The environment's choices for a step; each step uses the ones that concern it. */
  datatype Input = Input(call: Call, fail: Option<int>, fd: int, now: int, clobber: int, garbage: Stack)

  /** What the kernel registers when a request succeeds. */
  function Stored(ss: Stack): Stack {
    if ss.flags == SS_DISABLE then NO_STACK else Stack(ss.sp, ss.size, 0)
  }

  function AltAfter(alt: Stack, ss: Option<Stack>, fail: Option<int>): Stack {
    if fail.None? && ss.Some? then Stored(ss.value) else alt
  }

  /** Why the kernel would not even register: it cannot read `ss`, or whatever else is wrong. */
  function Refused(c: Call, fail: Option<int>): Option<int> {
    if BadNew(c) then Some(EFAULT) else fail
  }

  /** The call's outcome: it also fails, having registered, when the old stack cannot be written back. */
  function Outcome(c: Call, fail: Option<int>): Option<int> {
    if Refused(c, fail).None? && BadOld(c) then Some(EFAULT) else Refused(c, fail)
  }

  /** The real function called directly in place of the wrapper: a successful call leaves errno as the caller had it,
    * and nothing is written to `oss` on failure or when it is NULL. */
  function Direct(th: Thread, fail: Option<int>): Answer {
    var e := Outcome(th.call, fail);
    Answer(
      if e.Some? then -1 else 0,
      if e.Some? then e.value else th.entry,
      if e.None? && th.call.wantsOld then th.alt else th.oss)
  }

  /** The same, case by case. */
  lemma DirectLaw(th: Thread, fail: Option<int>)
    ensures var c := th.call;
            Direct(th, fail) ==
              if c.ss.Some? && c.badNew then Answer(-1, 14, th.oss)
              else if fail.Some? then Answer(-1, fail.value, th.oss)
              else if c.wantsOld && c.badOld then Answer(-1, 14, th.oss)
              else Answer(0, th.entry, if c.wantsOld then th.alt else th.oss)
  {
  }

  /** `p_oss`, read after the real call. */
  function POss(th: Thread): Stack {
    if th.call.wantsOld then th.oss else th.local
  }

  /** `*ss`, read after the real call. */
  function NewRead(th: Thread): Option<Stack> {
    if SameStruct(th.call) then Some(th.oss) else th.call.ss
  }

  function MakeRec(t: nat, request: Option<Stack>, rc: int, err: int, prev: Stack, caller: int, now: int): Rec {
    var ss := if request.Some? then request.value else Stack(0, 0, 0);
    Rec(now, t, rc, err, 0, ss.sp, ss.size, ss.flags, if request.Some? then 1 else 0,
        prev.sp, prev.size, prev.flags, 1, caller)
  }

  function RecOf(t: nat, th: Thread, now: int): Rec {
    MakeRec(t, NewRead(th), th.rc, th.err, POss(th), th.call.caller, now)
  }

  function CallThread(t: nat, th: Thread, fail: Option<int>): Thread {
    var e := Outcome(th.call, fail);
    var errno := if e.Some? then e.value else th.errno;
    var alt := AltAfter(th.alt, th.call.ss, Refused(th.call, fail));
    var after := th.(
      pc := LoadFd, rc := if e.Some? then -1 else 0, err := errno, errno := errno, alt := alt,
      oss := if e.None? && th.call.wantsOld then th.alt else th.oss,
      local := if e.None? && !th.call.wantsOld then th.alt else th.local,
      made := th.made + [Made(th.call, alt)],
      expected := th.expected + [Direct(th, fail)], inits := th.inits + [th.init]);
    after.(hist := th.hist + [RecOf(t, after, 0)])
  }

  function StepThread(sh: Shared, t: nat, th: Thread, x: Input): Thread {
    match th.pc
    case Idle => th.(pc := CheckReal, call := x.call, oss := OssAtEntry(x.call), local := x.garbage,
                       errno := x.clobber, entry := x.clobber, init := None)
    case CheckReal => th.(pc := if sh.resolved then CallReal else CheckDone)
    case CheckDone => th.(pc := if sh.done then CallReal else Lock)
    case Lock => if sh.mutex.None? then th.(pc := CheckDoneLocked) else th
    case CheckDoneLocked => th.(pc := if sh.done then Unlock else LookUp)
    case LookUp => th.(pc := OpenLog, errno := x.clobber, init := Some(x.clobber))
    case OpenLog => th.(pc := StoreFd(x.fd), errno := x.clobber, init := Some(x.clobber))
    case StoreFd(_) => th.(pc := StoreDone)
    case StoreDone => th.(pc := Unlock)
    case Unlock => th.(pc := CallReal)
    case CallReal => if sh.resolved then CallThread(t, th, x.fail) else th
    case LoadFd => th.(pc := if sh.fd >= 0 then WriteRec(sh.fd) else Return)
    case WriteRec(_) => if Faulty(th.call) then th.(pc := Crashed) else th.(pc := Return, errno := x.clobber)
    case Crashed => th
    case Return => th.(pc := Idle, errno := th.err, answers := th.answers + [Answer(th.rc, th.err, th.oss)])
  }

  function StepShared(sh: Shared, t: nat, th: Thread, x: Input): Shared {
    match th.pc
    case Lock => if sh.mutex.None? then sh.(mutex := Some(t)) else sh
    case LookUp => sh.(resolved := true, lookups := sh.lookups + 1, initBy := Some((t, |th.inits|)))
    case OpenLog => sh.(opens := sh.opens + 1)
    case StoreFd(fd) => sh.(fd := fd)
    case StoreDone => sh.(done := true)
    case Unlock => sh.(mutex := None)
    case CallReal => if sh.resolved then sh else sh.(crashed := true)
    case WriteRec(_) => if Faulty(th.call) then sh else sh.(log := sh.log + [RecOf(t, th, x.now)])
    case _ => sh
  }

  function ThreadOf(s: System, t: nat): Thread {
    if t in s.threads then s.threads[t] else FRESH
  }

  function Next(s: System, t: nat, x: Input): System {
    var th := ThreadOf(s, t);
    System(StepShared(s.sh, t, th, x), s.threads[t := StepThread(s.sh, t, th, x)])
  }

  function Run(s: System, steps: seq<(nat, Input)>): System
    decreases |steps|
  {
    if steps == [] then s else Run(Next(s, steps[0].0, steps[0].1), steps[1..])
  }

  // ------------------------------------------------------------------ replaying a log

  function OldOf(r: Rec): Stack {
    Stack(r.oldSp, r.oldSize, r.oldFlags)
  }

  /** The registration one logged call leaves behind. */
  function After(alt: Stack, r: Rec): Stack {
    if r.rc == 0 && r.newPresent != 0 then Stored(Stack(r.newSp, r.newSize, r.newFlags)) else alt
  }

  function Replay(recs: seq<Rec>, alt: Stack): Stack {
    if recs == [] then alt else After(Replay(recs[..|recs| - 1], alt), recs[|recs| - 1])
  }

  /** The registration after the first `i` calls. */
  function Reg(made: seq<Made>, i: nat): Stack
    requires i <= |made|
  {
    if i == 0 then NO_STACK else made[i - 1].after
  }

  /** The record of the call says what the call registered.  It does not when the kernel wrote the old stack over the
    * new one before the wrapper read it, unless the two come to the same. */
  predicate Harmless(c: Call, r: Rec) {
    r.rc == 0 && SameStruct(c) ==> Stored(OldOf(r)) == Stored(c.ss.value)
  }

  /** What a call made with `before` registered, its record and the registration it left have to do with one another. */
  predicate Kept(before: Stack, m: Made, r: Rec) {
    && (r.rc == 0 ==> OldOf(r) == before && m.after == AltAfter(before, m.call.ss, None))
    && (!BadOld(m.call) ==> (m.after == After(before, r) <==> Harmless(m.call, r)))
    && (r.rc != 0 && !BadOld(m.call) ==> m.after == before)
  }

  /** One thread's part of the log, without the time stamps. */
  function Project(log: seq<Rec>, t: nat): seq<Rec> {
    if log == [] then [] else
      var rest := Project(log[..|log| - 1], t);
      var r := log[|log| - 1];
      if r.tid == t then rest + [r.(ts := 0)] else rest
  }

  predicate Suffix<T(==)>(part: seq<T>, whole: seq<T>) {
    |part| <= |whole| && whole[|whole| - |part|..] == part
  }

  lemma ReplayAppend(recs: seq<Rec>, r: Rec, alt: Stack)
    ensures Replay(recs + [r], alt) == After(Replay(recs, alt), r)
  {
    assert (recs + [r])[..|recs|] == recs;
  }

  /** What one more record does to a replay: it registers its new stack if the call succeeded and had one. */
  lemma ReplayLaw(recs: seq<Rec>, r: Rec, alt: Stack)
    ensures Replay([], alt) == alt
    ensures Replay(recs + [r], alt) ==
              if r.rc != 0 || r.newPresent == 0 then Replay(recs, alt)
              else if r.newFlags == 2 then Stack(0, 0, 2)
              else Stack(r.newSp, r.newSize, 0)
  {
    hide Replay;
    ReplayAppend(recs, r, alt);
    ReplayNone(alt);
  }

  lemma ReplayNone(alt: Stack)
    ensures Replay([], alt) == alt
  {
  }

  lemma ProjectAppend(log: seq<Rec>, r: Rec, t: nat)
    ensures Project(log + [r], t) == if r.tid == t then Project(log, t) + [r.(ts := 0)] else Project(log, t)
  {
    assert (log + [r])[..|log|] == log;
  }

  // ------------------------------------------------------------------ initialisation

  predicate Holding(pc: Pc) {
    pc.CheckDoneLocked? || pc.LookUp? || pc.OpenLog? || pc.StoreFd? || pc.StoreDone? || pc.Unlock?
  }

  predicate SharedInv(sh: Shared) {
    && !sh.crashed
    && sh.lookups == (if sh.resolved then 1 else 0)
    && (sh.initBy.Some? ==> sh.resolved)
    && sh.opens <= 1
    && (sh.done ==> sh.resolved && sh.opens == 1)
    && (!sh.done && sh.mutex.None? ==> sh.lookups == 0 && sh.opens == 0)
    && (sh.opens == 0 ==> sh.fd == -1)
    && (sh.log != [] ==> sh.fd >= 0)
  }

  /** How far initialisation has got, seen from a thread. */
  predicate PcInv(sh: Shared, t: nat, pc: Pc) {
    && (Holding(pc) ==> sh.mutex == Some(t))
    && match pc
       case CheckDoneLocked => sh.done || (sh.lookups == 0 && sh.opens == 0)
       case LookUp => !sh.done && sh.lookups == 0 && sh.opens == 0
       case OpenLog => !sh.done && sh.lookups == 1 && sh.opens == 0
       case StoreFd(_) => !sh.done && sh.lookups == 1 && sh.opens == 1 && sh.fd == -1
       case StoreDone => !sh.done && sh.lookups == 1 && sh.opens == 1
       case Unlock => sh.done
       case CallReal => sh.resolved
       case WriteRec(fd) => sh.fd == fd >= 0
       case _ => true
  }

  lemma InitStep(sh: Shared, t: nat, th: Thread, x: Input)
    requires SharedInv(sh) && PcInv(sh, t, th.pc)
    ensures SharedInv(StepShared(sh, t, th, x))
    ensures PcInv(StepShared(sh, t, th, x), t, StepThread(sh, t, th, x).pc)
  {
    hide RecOf, CallThread;
    CallThreadPc(t, th, x.fail);
  }

  lemma CallThreadPc(t: nat, th: Thread, fail: Option<int>)
    ensures CallThread(t, th, fail).pc == LoadFd
  {
  }

  /** What a step of another thread can do to the shared state, as thread `b` sees it. */
  predicate Undisturbed(sh: Shared, sh': Shared, b: nat) {
    && (sh.resolved ==> sh'.resolved)
    && (sh.fd >= 0 ==> sh'.fd == sh.fd)
    && (sh.mutex == Some(b) ==> sh'.(log := sh.log) == sh)
    && (sh.initBy.Some? ==> sh'.initBy == sh.initBy)
    && Project(sh'.log, b) == Project(sh.log, b)
  }

  lemma OthersUndisturbed(sh: Shared, t: nat, th: Thread, x: Input, b: nat)
    requires SharedInv(sh) && PcInv(sh, t, th.pc) && b != t
    ensures Undisturbed(sh, StepShared(sh, t, th, x), b)
  {
    ProjectAppend(sh.log, RecOf(t, th, x.now), b);
    hide Project;
  }

  lemma PcUndisturbed(sh: Shared, sh': Shared, b: nat, pc: Pc)
    requires PcInv(sh, b, pc) && Undisturbed(sh, sh', b)
    ensures PcInv(sh', b, pc)
  {
    hide Project;
  }

  /** The mutex is held by a thread that is inside the critical section. */
  predicate HolderInv(s: System) {
    s.sh.mutex.Some? ==> s.sh.mutex.value in s.threads && Holding(s.threads[s.sh.mutex.value].pc)
  }

  lemma HolderStep(s: System, t: nat, x: Input)
    requires HolderInv(s) && PcInv(s.sh, t, ThreadOf(s, t).pc)
    ensures HolderInv(Next(s, t, x))
  {
    hide RecOf, CallThread;
    CallThreadPc(t, ThreadOf(s, t), x.fail);
  }

  // ------------------------------------------------------------------ history

  predicate Pending(pc: Pc) {
    pc.LoadFd? || pc.WriteRec? || pc.Crashed?
  }

  /** The thread's real calls whose record has been written or skipped. */
  function Settled(th: Thread): seq<Rec> {
    if Pending(th.pc) && th.hist != [] then th.hist[..|th.hist| - 1] else th.hist
  }

  /** The kernel's view agrees with the thread's own calls. */
  ghost predicate KernelInv(th: Thread) {
    && |th.made| == |th.hist| && th.alt == Reg(th.made, |th.made|)
    && forall i | 0 <= i < |th.hist| :: Kept(Reg(th.made, i), th.made[i], th.hist[i])
  }

  /** A bad pointer is never read for a record: the call that would do so crashes instead. */
  ghost predicate ValidInv(sh: Shared, t: nat, th: Thread) {
    && |th.made| == |th.hist|
    && (Pending(th.pc) ==> th.made != [] && th.made[|th.made| - 1].call == th.call)
    && (th.pc.Crashed? ==> Faulty(th.call) && sh.fd >= 0)
    && AllValid(th.made, |Settled(th)| - |Project(sh.log, t)|, |Settled(th)|)
  }

  predicate AllValid(made: seq<Made>, lo: int, hi: int) {
    forall i | 0 <= i < |made| && lo <= i < hi :: !Faulty(made[i].call)
  }

  lemma AllValidExtend(made: seq<Made>, lo: int, hi: int)
    requires 0 <= hi < |made| && AllValid(made, lo, hi) && !Faulty(made[hi].call)
    ensures AllValid(made, lo, hi + 1)
  {
  }

  ghost predicate LogInv(log: seq<Rec>, t: nat, th: Thread) {
    && Suffix(Project(log, t), Settled(th))
    && (Pending(th.pc) ==> th.hist != [] && th.hist[|th.hist| - 1] == RecOf(t, th, 0))
  }

  /** What a caller is told when a direct call would have answered `direct`: the same, but errno after a successful
    * call is whatever initialising left there, if this call initialised. */
  function Given(direct: Answer, init: Option<int>): Answer {
    if direct.rc == 0 && init.Some? then direct.(errno := init.value) else direct
  }

  predicate Told(expected: seq<Answer>, inits: seq<Option<int>>, answers: seq<Answer>) {
    |expected| == |inits| == |answers| && forall i | 0 <= i < |answers| :: answers[i] == Given(expected[i], inits[i])
  }

  lemma ToldAppend(expected: seq<Answer>, inits: seq<Option<int>>, answers: seq<Answer>, d: Answer, i: Option<int>)
    requires Told(expected, inits, answers)
    ensures Told(expected + [d], inits + [i], answers + [Given(d, i)])
  {
  }

  predicate AnswerInv(th: Thread) {
    && (if Pending(th.pc) || th.pc.Return?
        then Told(th.expected, th.inits, th.answers + [Answer(th.rc, th.err, th.oss)])
        else Told(th.expected, th.inits, th.answers))
    && (!Pending(th.pc) && !th.pc.Return? && !th.pc.Idle? ==>
          th.errno == if th.init.Some? then th.init.value else th.entry)
  }

  /** Only the one call that initialised can have an `init`. */
  predicate InitInv(sh: Shared, t: nat, th: Thread) {
    && (forall i | 0 <= i < |th.inits| && th.inits[i].Some? :: sh.initBy == Some((t, i)))
    && (th.init.Some? && !Pending(th.pc) && !th.pc.Return? && !th.pc.Idle? ==> sh.initBy == Some((t, |th.inits|)))
    && (th.pc.OpenLog? ==> th.init.Some?)
  }

  lemma InitByStep(sh: Shared, t: nat, th: Thread, x: Input)
    requires SharedInv(sh) && PcInv(sh, t, th.pc) && InitInv(sh, t, th)
    ensures InitInv(StepShared(sh, t, th, x), t, StepThread(sh, t, th, x))
  {
    hide RecOf, Direct;
    if th.pc.LookUp? {
      assert sh.initBy.None?;
    }
  }

  lemma InitByUndisturbed(sh: Shared, sh': Shared, b: nat, th: Thread)
    requires InitInv(sh, b, th) && Undisturbed(sh, sh', b)
    ensures InitInv(sh', b, th)
  {
    hide Project;
  }

  lemma KernelCall(sh: Shared, t: nat, th: Thread, x: Input)
    requires KernelInv(th) && th.pc.CallReal? && sh.resolved
    ensures KernelInv(StepThread(sh, t, th, x))
  {
    assert StepThread(sh, t, th, x) == CallThread(t, th, x.fail);
    assert |th.made| == |th.hist| && th.alt == Reg(th.made, |th.made|);
    hide KernelInv, Kept, StepThread, CallThread;
    CallKept(t, th, x.fail);
    KeptAppend(th, CallThread(t, th, x.fail));
  }

  lemma KernelQuiet(sh: Shared, t: nat, th: Thread, x: Input)
    requires KernelInv(th) && !(th.pc.CallReal? && sh.resolved)
    ensures KernelInv(StepThread(sh, t, th, x))
  {
    QuietHistory(sh, t, th, x);
    hide Kept, StepThread;
  }

  lemma QuietHistory(sh: Shared, t: nat, th: Thread, x: Input)
    requires !(th.pc.CallReal? && sh.resolved)
    ensures var th' := StepThread(sh, t, th, x); th'.hist == th.hist && th'.made == th.made && th'.alt == th.alt
  {
    hide RecOf, CallThread;
  }

  lemma KernelStep(sh: Shared, t: nat, th: Thread, x: Input)
    requires KernelInv(th)
    ensures KernelInv(StepThread(sh, t, th, x))
  {
    hide KernelInv, Kept, StepThread, CallThread;
    if th.pc.CallReal? && sh.resolved {
      KernelCall(sh, t, th, x);
    } else {
      KernelQuiet(sh, t, th, x);
    }
  }

  lemma KeptAppend(th: Thread, th': Thread)
    requires KernelInv(th)
    requires var n := |th.hist|;
             && |th'.made| == |th'.hist| == n + 1 && th'.alt == th'.made[n].after
             && th'.made[..n] == th.made && th'.hist[..n] == th.hist && Kept(th.alt, th'.made[n], th'.hist[n])
    ensures KernelInv(th')
  {
    hide Kept;
    var n := |th.hist|;
    forall i | 0 <= i < n + 1 ensures Kept(Reg(th'.made, i), th'.made[i], th'.hist[i]) {
      if i > 0 {
        assert th'.made[..n][i - 1] == th.made[i - 1];
      }
      if i < n {
        assert th'.made[..n][i] == th.made[i] && th'.hist[..n][i] == th.hist[i];
        assert Kept(Reg(th.made, i), th.made[i], th.hist[i]);
      }
    }
  }

  lemma CallKept(t: nat, th: Thread, fail: Option<int>)
    requires |th.made| == |th.hist|
    ensures var th' := CallThread(t, th, fail);
            var n := |th.hist|;
            && |th'.made| == |th'.hist| == n + 1 && th'.alt == th'.made[n].after
            && th'.made[..n] == th.made && th'.hist[..n] == th.hist
            && Kept(th.alt, th'.made[n], th'.hist[n])
  {
  }

  lemma ValidQuiet(sh: Shared, t: nat, th: Thread, x: Input)
    requires SharedInv(sh) && PcInv(sh, t, th.pc) && LogInv(sh.log, t, th) && ValidInv(sh, t, th)
    requires !th.pc.CallReal? && !Pending(th.pc)
    ensures ValidInv(StepShared(sh, t, th, x), t, StepThread(sh, t, th, x))
  {
    hide RecOf, Project, Suffix, CallThread, Faulty;
  }

  lemma ValidCall(sh: Shared, t: nat, th: Thread, x: Input)
    requires SharedInv(sh) && PcInv(sh, t, th.pc) && LogInv(sh.log, t, th) && ValidInv(sh, t, th) && th.pc.CallReal?
    ensures ValidInv(StepShared(sh, t, th, x), t, StepThread(sh, t, th, x))
  {
    CallHist(t, th, x.fail);
    CallKept(t, th, x.fail);
    assert CallThread(t, th, x.fail).made[|th.made|].call == th.call == CallThread(t, th, x.fail).call;
    hide RecOf, Project, Suffix, CallThread, Faulty, Kept;
    CallThreadPc(t, th, x.fail);
  }

  lemma ValidLoad(sh: Shared, t: nat, th: Thread, x: Input)
    requires SharedInv(sh) && PcInv(sh, t, th.pc) && LogInv(sh.log, t, th) && ValidInv(sh, t, th)
    requires (th.pc.LoadFd? || th.pc.Crashed?)
    ensures ValidInv(StepShared(sh, t, th, x), t, StepThread(sh, t, th, x))
  {
    if sh.fd < 0 {
      assert Project(sh.log, t) == [];
    }
    hide RecOf, Project, Suffix, CallThread, Faulty;
  }

  lemma ValidCrash(sh: Shared, t: nat, th: Thread, x: Input)
    requires SharedInv(sh) && PcInv(sh, t, th.pc) && LogInv(sh.log, t, th) && ValidInv(sh, t, th) && th.pc.WriteRec?
    requires Faulty(th.call)
    ensures ValidInv(StepShared(sh, t, th, x), t, StepThread(sh, t, th, x))
  {
    WriteEffect(sh, t, th, x);
    PendingSettled(sh, t, th);
    hide RecOf, Project, Suffix, StepShared, StepThread, Faulty, AllValid, LogInv;
  }

  lemma ValidWritten(sh: Shared, t: nat, th: Thread, x: Input)
    requires SharedInv(sh) && PcInv(sh, t, th.pc) && LogInv(sh.log, t, th) && ValidInv(sh, t, th) && th.pc.WriteRec?
    requires !Faulty(th.call)
    ensures ValidInv(StepShared(sh, t, th, x), t, StepThread(sh, t, th, x))
  {
    WriteEffect(sh, t, th, x);
    PendingSettled(sh, t, th);
    hide RecOf, Project, Suffix, StepShared, StepThread, Faulty, AllValid, LogInv;
    WriteProjects(sh.log, t, th, x.now);
    AllValidExtend(th.made, |th.hist| - 1 - |Project(sh.log, t)|, |th.hist| - 1);
  }

  lemma ValidWrite(sh: Shared, t: nat, th: Thread, x: Input)
    requires SharedInv(sh) && PcInv(sh, t, th.pc) && LogInv(sh.log, t, th) && ValidInv(sh, t, th) && th.pc.WriteRec?
    ensures ValidInv(StepShared(sh, t, th, x), t, StepThread(sh, t, th, x))
  {
    hide ValidInv, LogInv, StepShared, StepThread, SharedInv, PcInv;
    if Faulty(th.call) {
      ValidCrash(sh, t, th, x);
    } else {
      ValidWritten(sh, t, th, x);
    }
  }

  lemma PendingSettled(sh: Shared, t: nat, th: Thread)
    requires LogInv(sh.log, t, th) && Pending(th.pc)
    ensures |th.hist| > 0 && |Settled(th)| == |th.hist| - 1
  {
  }

  lemma WriteProjects(log: seq<Rec>, t: nat, th: Thread, now: int)
    ensures |Project(log + [RecOf(t, th, now)], t)| == |Project(log, t)| + 1
  {
    ProjectAppend(log, RecOf(t, th, now), t);
    assert RecOf(t, th, now).tid == t;
  }

  lemma ValidUndisturbed(sh: Shared, sh': Shared, b: nat, th: Thread)
    requires ValidInv(sh, b, th) && Undisturbed(sh, sh', b)
    ensures ValidInv(sh', b, th)
  {
    hide Project;
  }

  lemma AnswerStep(sh: Shared, t: nat, th: Thread, x: Input)
    requires AnswerInv(th)
    ensures AnswerInv(StepThread(sh, t, th, x))
  {
    hide RecOf, Told;
    if th.pc.CallReal? {
      ToldAppend(th.expected, th.inits, th.answers, Direct(th, x.fail), th.init);
    }
  }

  lemma SuffixAppend(part: seq<Rec>, whole: seq<Rec>, r: Rec)
    requires Suffix(part, whole)
    ensures Suffix(part + [r], whole + [r])
  {
  }

  lemma FrontAndLast(recs: seq<Rec>)
    requires recs != []
    ensures recs[..|recs| - 1] + [recs[|recs| - 1]] == recs
  {
  }

  lemma LogQuiet(sh: Shared, t: nat, th: Thread, x: Input)
    requires LogInv(sh.log, t, th) && !th.pc.CallReal? && (!Pending(th.pc) || th.pc.Crashed?)
    ensures LogInv(StepShared(sh, t, th, x).log, t, StepThread(sh, t, th, x))
  {
    hide RecOf, CallThread, Project, Suffix;
  }

  lemma LogCall(sh: Shared, t: nat, th: Thread, x: Input)
    requires LogInv(sh.log, t, th) && th.pc.CallReal? && sh.resolved
    ensures LogInv(StepShared(sh, t, th, x).log, t, StepThread(sh, t, th, x))
  {
    CallHist(t, th, x.fail);
    hide RecOf, CallThread, Project, Suffix;
    CallThreadPc(t, th, x.fail);
  }

  lemma LogLoad(sh: Shared, t: nat, th: Thread, x: Input)
    requires SharedInv(sh) && LogInv(sh.log, t, th) && th.pc.LoadFd?
    ensures LogInv(StepShared(sh, t, th, x).log, t, StepThread(sh, t, th, x))
  {
    if sh.fd < 0 {
      assert Project(sh.log, t) == [];
      EmptySuffix<Rec>(th.hist);
    }
    hide Project, Suffix;
  }

  lemma EmptySuffix<T>(whole: seq<T>)
    ensures Suffix([], whole)
  {
  }

  lemma WriteEffect(sh: Shared, t: nat, th: Thread, x: Input)
    requires th.pc.WriteRec?
    ensures StepShared(sh, t, th, x) == if Faulty(th.call) then sh else sh.(log := sh.log + [RecOf(t, th, x.now)])
    ensures StepThread(sh, t, th, x)
         == if Faulty(th.call) then th.(pc := Crashed) else th.(pc := Return, errno := x.clobber)
  {
    hide RecOf, Faulty, CallThread;
  }

  lemma LogWrite(log: seq<Rec>, t: nat, th: Thread, now: int, errno: int)
    requires LogInv(log, t, th) && th.pc.WriteRec?
    ensures LogInv(log + [RecOf(t, th, now)], t, th.(pc := Return, errno := errno))
  {
    var r := RecOf(t, th, now);
    assert r.tid == t && r.(ts := 0) == RecOf(t, th, 0);
    assert RecOf(t, th.(pc := Return, errno := errno), 0) == RecOf(t, th, 0);
    hide Project, Suffix, RecOf;
    ProjectAppend(log, r, t);
    SuffixAppend(Project(log, t), Settled(th), RecOf(t, th, 0));
    FrontAndLast(th.hist);
  }

  lemma LogCrash(sh: Shared, t: nat, th: Thread, x: Input)
    requires LogInv(sh.log, t, th) && th.pc.WriteRec? && Faulty(th.call)
    ensures LogInv(StepShared(sh, t, th, x).log, t, StepThread(sh, t, th, x))
  {
    RecIgnoresPc(t, th, 0, Crashed);
    WriteEffect(sh, t, th, x);
    hide Project, Suffix, RecOf, Faulty, StepShared, StepThread;
  }

  lemma RecIgnoresPc(t: nat, th: Thread, now: int, pc: Pc)
    ensures RecOf(t, th.(pc := pc), now) == RecOf(t, th, now)
  {
  }

  lemma CallHist(t: nat, th: Thread, fail: Option<int>)
    ensures var th' := CallThread(t, th, fail);
            Settled(th') == th.hist && th'.hist != [] && th'.hist[|th'.hist| - 1] == RecOf(t, th', 0)
  {
    var th' := CallThread(t, th, fail);
    assert th'.hist[..|th'.hist| - 1] == th.hist;
  }

  // ------------------------------------------------------------------ whole runs

  ghost predicate ThreadInv(sh: Shared, t: nat, th: Thread) {
    && PcInv(sh, t, th.pc) && KernelInv(th) && ValidInv(sh, t, th) && AnswerInv(th) && InitInv(sh, t, th)
    && LogInv(sh.log, t, th)
  }

  ghost predicate Inv(s: System) {
    && SharedInv(s.sh) && HolderInv(s)
    && (forall t <- s.threads :: ThreadInv(s.sh, t, s.threads[t]))
    && (forall t: nat | t !in s.threads :: Project(s.sh.log, t) == [])
  }

  lemma FreshThread(sh: Shared, t: nat)
    requires Project(sh.log, t) == []
    ensures ThreadInv(sh, t, FRESH)
  {
  }

  lemma LoggedStep(sh: Shared, t: nat, th: Thread, x: Input)
    requires SharedInv(sh) && PcInv(sh, t, th.pc) && LogInv(sh.log, t, th) && ValidInv(sh, t, th)
    ensures ValidInv(StepShared(sh, t, th, x), t, StepThread(sh, t, th, x))
    ensures LogInv(StepShared(sh, t, th, x).log, t, StepThread(sh, t, th, x))
  {
    hide ValidInv, LogInv, StepShared, StepThread, SharedInv;
    match th.pc {
      case CallReal =>
        ValidCall(sh, t, th, x);
        LogCall(sh, t, th, x);
      case LoadFd =>
        ValidLoad(sh, t, th, x);
        LogLoad(sh, t, th, x);
      case WriteRec(_) =>
        ValidWrite(sh, t, th, x);
        if Faulty(th.call) { LogCrash(sh, t, th, x); } else { LogWrite(sh.log, t, th, x.now, x.clobber); }
        WriteEffect(sh, t, th, x);
      case Crashed =>
        ValidLoad(sh, t, th, x);
        LogQuiet(sh, t, th, x);
      case _ =>
        ValidQuiet(sh, t, th, x);
        LogQuiet(sh, t, th, x);
    }
  }

  lemma OwnStep(s: System, t: nat, x: Input)
    requires Inv(s)
    ensures var s' := Next(s, t, x); SharedInv(s'.sh) && HolderInv(s') && ThreadInv(s'.sh, t, s'.threads[t])
  {
    var th := ThreadOf(s, t);
    if t !in s.threads { FreshThread(s.sh, t); }
    hide PcInv, KernelInv, ValidInv, AnswerInv, InitInv, LogInv, StepShared, StepThread, SharedInv, HolderInv, Project;
    InitStep(s.sh, t, th, x);
    HolderStep(s, t, x);
    KernelStep(s.sh, t, th, x);
    LoggedStep(s.sh, t, th, x);
    AnswerStep(s.sh, t, th, x);
    InitByStep(s.sh, t, th, x);
  }

  lemma OtherStep(s: System, t: nat, x: Input, b: nat)
    requires Inv(s) && b != t
    ensures var s' := Next(s, t, x);
            Project(s'.sh.log, b) == Project(s.sh.log, b) &&
            (b in s.threads ==> ThreadInv(s'.sh, b, s.threads[b]))
  {
    var th := ThreadOf(s, t);
    if t !in s.threads { FreshThread(s.sh, t); }
    hide PcInv, KernelInv, ValidInv, AnswerInv, InitInv, StepShared, StepThread, SharedInv, HolderInv, Project;
    OthersUndisturbed(s.sh, t, th, x, b);
    if b in s.threads {
      assert ThreadInv(s.sh, b, s.threads[b]);
      PcUndisturbed(s.sh, Next(s, t, x).sh, b, s.threads[b].pc);
      InitByUndisturbed(s.sh, Next(s, t, x).sh, b, s.threads[b]);
      ValidUndisturbed(s.sh, Next(s, t, x).sh, b, s.threads[b]);
    }
  }

  lemma InvKeeps(s: System, t: nat, x: Input)
    requires Inv(s)
    ensures Inv(Next(s, t, x))
  {
    hide ThreadInv, StepShared, StepThread, SharedInv, HolderInv, Project;
    var s' := Next(s, t, x);
    OwnStep(s, t, x);
    forall b: nat | b != t
      ensures b in s'.threads ==> ThreadInv(s'.sh, b, s'.threads[b])
      ensures b !in s'.threads ==> Project(s'.sh.log, b) == []
    {
      OtherStep(s, t, x, b);
    }
  }

  lemma {:induction false} RunKeeps(s: System, steps: seq<(nat, Input)>)
    requires Inv(s)
    ensures Inv(Run(s, steps))
    decreases |steps|
  {
    hide Inv, Next;
    if steps != [] {
      InvKeeps(s, steps[0].0, steps[0].1);
      RunKeeps(Next(s, steps[0].0, steps[0].1), steps[1..]);
    }
  }

  lemma InitialInv()
    ensures Inv(INITIAL)
  {
  }

  /** Under every interleaving the real function is looked up and the log opened at most once, nobody ever calls
    * through a null pointer, and nothing is written before a log is open. */
  lemma OnceOnly(steps: seq<(nat, Input)>)
    ensures var sh := Run(INITIAL, steps).sh;
            sh.lookups <= 1 && sh.opens <= 1 && !sh.crashed && (sh.log != [] ==> sh.opens == 1 && sh.fd >= 0)
  {
    InitialInv();
    RunKeeps(INITIAL, steps);
  }

  lemma ThreadHolds(s: System, t: nat)
    requires Inv(s)
    ensures ThreadInv(s.sh, t, ThreadOf(s, t))
  {
    if t !in s.threads {
      hide SharedInv, HolderInv;
      FreshThread(s.sh, t);
    }
  }

  /** Transparency.  Every answered call got the rc and the old stack a direct call would have given it.  It also got
    * the same errno if and only if it failed, or it was not the call that initialised, or initialising happened to
    * leave errno as the caller had it.  In a whole run at most one call of one thread is the one that initialised. */
  lemma Transparent(steps: seq<(nat, Input)>, t: nat, i: nat)
    requires t in Run(INITIAL, steps).threads && i < |Run(INITIAL, steps).threads[t].answers|
    ensures var s := Run(INITIAL, steps);
            var th := s.threads[t];
            && |th.answers| <= |th.expected| == |th.inits|
            && th.answers[i].rc == th.expected[i].rc && th.answers[i].oss == th.expected[i].oss
            && (th.answers[i].errno == th.expected[i].errno
                <==> th.answers[i].rc != 0 || th.inits[i].None? || th.inits[i].value == th.expected[i].errno)
            && (th.inits[i].Some? ==> s.sh.initBy == Some((t, i)))
  {
    hide Run, SharedInv, HolderInv, PcInv, KernelInv, LogInv;
    InitialInv();
    RunKeeps(INITIAL, steps);
    var s := Run(INITIAL, steps);
    assert ThreadInv(s.sh, t, s.threads[t]);
  }

  /** A call whose pointers are valid never crashes; one with a bad pointer is answered, with -1 as a direct call would
    * have been, if it finds no log, and crashes if it finds one.  So in every state of every run the finished calls
    * with bad pointers are among those that are not in the log. */
  lemma BadPointers(steps: seq<(nat, Input)>, t: nat, i: nat)
    requires var s := Run(INITIAL, steps); i < |Settled(ThreadOf(s, t))| <= |ThreadOf(s, t).made|
    ensures var s := Run(INITIAL, steps);
            var th := ThreadOf(s, t);
            && (Faulty(th.made[i].call) ==> i < |Settled(th)| - |Project(s.sh.log, t)|)
            && (th.pc.Crashed? ==> Faulty(th.call) && s.sh.fd >= 0 && |th.expected| == |th.answers| + 1)
  {
    hide Run, SharedInv, HolderInv, PcInv, KernelInv, LogInv, InitInv, Project;
    InitialInv();
    RunKeeps(INITIAL, steps);
    ThreadHolds(Run(INITIAL, steps), t);
  }

  /** At the step itself the condition is exact. */
  lemma CrashExact(sh: Shared, t: nat, th: Thread, x: Input, fail: Option<int>)
    requires th.pc.WriteRec?
    ensures StepThread(sh, t, th, x).pc.Crashed? <==> Faulty(th.call)
    ensures Faulty(th.call) ==> Direct(th, fail).rc == -1
  {
  }

  /** The position in a thread's history of its first logged call. */
  function First(s: System, t: nat): int {
    |Settled(ThreadOf(s, t))| - |Project(s.sh.log, t)|
  }

  /** Logged call `m` of thread `t`. */
  ghost predicate LoggedCall(s: System, t: nat, m: nat) {
    var k, mine, made := First(s, t), Project(s.sh.log, t), ThreadOf(s, t).made;
    m < |mine| && 0 <= k && k + m < |made| && !BadOld(made[k + m].call) && Kept(Reg(made, k + m), made[k + m], mine[m])
  }

  lemma LoggedCalls(s: System, t: nat)
    requires Inv(s)
    ensures 0 <= First(s, t) && First(s, t) + |Project(s.sh.log, t)| <= |ThreadOf(s, t).made|
    ensures forall m: nat | m < |Project(s.sh.log, t)| :: LoggedCall(s, t, m)
    ensures var th := ThreadOf(s, t);
            !Pending(th.pc) ==> Reg(th.made, First(s, t) + |Project(s.sh.log, t)|) == th.alt
  {
    hide Inv, Project, Kept, KernelInv, LogInv, ValidInv, Settled, Reg, BadOld;
    ThreadHolds(s, t);
    var th := ThreadOf(s, t);
    ThreadParts(s.sh, t, th);
    LogIsSuffix(s.sh.log, t, th);
    SettledLength(s.sh, t, th);
    forall m: nat | m < |Project(s.sh.log, t)| ensures LoggedCall(s, t, m) {
      LoggedOne(s.sh, t, th, m);
    }
  }

  lemma ThreadParts(sh: Shared, t: nat, th: Thread)
    requires ThreadInv(sh, t, th)
    ensures PcInv(sh, t, th.pc) && LogInv(sh.log, t, th) && KernelInv(th) && ValidInv(sh, t, th)
  {
  }

  lemma LogIsSuffix(log: seq<Rec>, t: nat, th: Thread)
    requires LogInv(log, t, th)
    ensures |Project(log, t)| <= |Settled(th)|
    ensures Project(log, t) == Settled(th)[|Settled(th)| - |Project(log, t)|..]
  {
    hide Project, Settled, RecOf;
  }

  lemma SettledLength(sh: Shared, t: nat, th: Thread)
    requires KernelInv(th) && ValidInv(sh, t, th)
    ensures Settled(th) <= th.hist && |th.made| == |th.hist|
    ensures !Pending(th.pc) ==> |Settled(th)| == |th.made| && Reg(th.made, |th.made|) == th.alt
  {
    hide Kept, Project;
  }

  lemma LoggedOne(sh: Shared, t: nat, th: Thread, m: nat)
    requires KernelInv(th) && ValidInv(sh, t, th) && Settled(th) <= th.hist
    requires m < |Project(sh.log, t)| <= |Settled(th)|
    requires Project(sh.log, t) == Settled(th)[|Settled(th)| - |Project(sh.log, t)|..]
    ensures var i := |Settled(th)| - |Project(sh.log, t)| + m;
            i < |th.made| && !BadOld(th.made[i].call) && Kept(Reg(th.made, i), th.made[i], Project(sh.log, t)[m])
  {
    hide Kept, Project, Settled, Reg;
    var i := |Settled(th)| - |Project(sh.log, t)| + m;
    assert Project(sh.log, t)[m] == Settled(th)[i] == th.hist[i];
  }

  /** The log agrees with the kernel, in every state of every run: replaying a thread's records from a successful one,
    * starting at the stack it reported, gives the registration after the last of them, which is what the next
    * successful record reports and, between calls, what the kernel holds.  This asks that no replayed call had the
    * kernel overwrite its request, or that it made no difference. */
  lemma LogMatchesKernel(steps: seq<(nat, Input)>, t: nat, i: nat, j: nat)
    requires var s := Run(INITIAL, steps);
             var mine := Project(s.sh.log, t);
             && i < j <= |mine| && mine[i].rc == 0
             && forall m: nat | i <= m < j && LoggedCall(s, t, m) ::
                  Harmless(ThreadOf(s, t).made[First(s, t) + m].call, mine[m])
    ensures var s := Run(INITIAL, steps);
            var mine, th, k := Project(s.sh.log, t), ThreadOf(s, t), First(s, t);
            && 0 <= k && k + j <= |th.made|
            && Replay(mine[i..j], OldOf(mine[i])) == Reg(th.made, k + j)
            && (j < |mine| && mine[j].rc == 0 ==> OldOf(mine[j]) == Reg(th.made, k + j))
            && (j == |mine| && !Pending(th.pc) ==> th.alt == Reg(th.made, k + j))
  {
    hide Run, Project, Inv, LoggedCall, Replay, Harmless;
    InitialInv();
    RunKeeps(INITIAL, steps);
    LoggedCalls(Run(INITIAL, steps), t);
    ReplayLogged(Run(INITIAL, steps), t, i, j);
    if j < |Project(Run(INITIAL, steps).sh.log, t)| {
      LoggedOld(Run(INITIAL, steps), t, j);
    }
  }

  lemma LoggedOld(s: System, t: nat, m: nat)
    requires LoggedCall(s, t, m)
    ensures Project(s.sh.log, t)[m].rc == 0 ==>
              OldOf(Project(s.sh.log, t)[m]) == Reg(ThreadOf(s, t).made, First(s, t) + m)
  {
    hide Project;
  }

  lemma LoggedNext(s: System, t: nat, m: nat)
    requires LoggedCall(s, t, m)
    ensures var r, made, k := Project(s.sh.log, t)[m], ThreadOf(s, t).made, First(s, t);
            Reg(made, k + m + 1) == After(Reg(made, k + m), r) <==> Harmless(made[k + m].call, r)
    ensures var r, made, k := Project(s.sh.log, t)[m], ThreadOf(s, t).made, First(s, t);
            Reg(made, k + m + 1)
              == if r.rc == 0 then AltAfter(Reg(made, k + m), made[k + m].call.ss, None) else Reg(made, k + m)
  {
    hide Project, After, Harmless;
  }

  lemma {:induction false} ReplayLogged(s: System, t: nat, i: nat, j: nat)
    requires i < j <= |Project(s.sh.log, t)| && Project(s.sh.log, t)[i].rc == 0
    requires forall m: nat | i <= m < j :: LoggedCall(s, t, m)
    requires forall m: nat | i <= m < j && LoggedCall(s, t, m) ::
               Harmless(ThreadOf(s, t).made[First(s, t) + m].call, Project(s.sh.log, t)[m])
    ensures var mine, made := Project(s.sh.log, t), ThreadOf(s, t).made;
            && 0 <= First(s, t) && First(s, t) + j <= |made|
            && Replay(mine[i..j], OldOf(mine[i])) == Reg(made, First(s, t) + j)
    decreases j
  {
    hide Project, After, Harmless, Reg;
    var mine := Project(s.sh.log, t);
    assert LoggedCall(s, t, j - 1);
    LoggedNext(s, t, j - 1);
    hide LoggedCall;
    if i == j - 1 {
      LoggedOld(s, t, i);
      assert mine[i..j] == [mine[i]];
      ReplayOne(mine[i], OldOf(mine[i]));
    } else {
      ReplayLogged(s, t, i, j - 1);
      assert mine[i..j] == mine[i..j - 1] + [mine[j - 1]];
      ReplayAppend(mine[i..j - 1], mine[j - 1], OldOf(mine[i]));
    }
  }

  /** And what it asks is exact: every replay gives the registration if and only if every logged call is harmless. */
  lemma ReplayExact(steps: seq<(nat, Input)>, t: nat)
    ensures var s := Run(INITIAL, steps);
            var mine, made, k := Project(s.sh.log, t), ThreadOf(s, t).made, First(s, t);
            && 0 <= k && k + |mine| <= |made|
            && ((forall i: nat, j: nat | i < j <= |mine| && mine[i].rc == 0 ::
                   Replay(mine[i..j], OldOf(mine[i])) == Reg(made, k + j))
                <==> forall m: nat | m < |mine| :: Harmless(made[k + m].call, mine[m]))
  {
    hide Run, Project, Inv, LoggedCall, Replay, After, Reg;
    InitialInv();
    RunKeeps(INITIAL, steps);
    var s := Run(INITIAL, steps);
    LoggedCalls(s, t);
    var mine, made, k := Project(s.sh.log, t), ThreadOf(s, t).made, First(s, t);
    if forall m: nat | m < |mine| :: Harmless(made[k + m].call, mine[m]) {
      forall i: nat, j: nat | i < j <= |mine| && mine[i].rc == 0
        ensures Replay(mine[i..j], OldOf(mine[i])) == Reg(made, k + j)
      {
        ReplayLogged(s, t, i, j);
      }
    } else {
      var m: nat :| m < |mine| && !Harmless(made[k + m].call, mine[m]);
      HarmShows(s, t, m);
    }
  }

  /** A harmful record alone already replays to the wrong registration. */
  lemma HarmShows(s: System, t: nat, m: nat)
    requires LoggedCall(s, t, m)
    requires !Harmless(ThreadOf(s, t).made[First(s, t) + m].call, Project(s.sh.log, t)[m])
    ensures var r := Project(s.sh.log, t)[m];
            && r.rc == 0 && Project(s.sh.log, t)[m..m + 1] == [r]
            && Replay(Project(s.sh.log, t)[m..m + 1], OldOf(r)) != Reg(ThreadOf(s, t).made, First(s, t) + m + 1)
  {
    var mine := Project(s.sh.log, t);
    assert mine[m].rc == 0;
    LoggedNext(s, t, m);
    LoggedOld(s, t, m);
    hide Project, LoggedCall, Harmless, After, Replay, Reg;
    assert mine[m..m + 1] == [mine[m]];
    ReplayOne(mine[m], OldOf(mine[m]));
  }

  /** Neighbouring successful records, in every state of every run: the later one reports what the earlier call asked
    * for, or what it reported itself if it asked for nothing.  Read off the earlier record, that is right exactly when
    * the record is harmless. */
  lemma PreviousSuccess(steps: seq<(nat, Input)>, t: nat, i: nat, j: nat)
    requires var mine := Project(Run(INITIAL, steps).sh.log, t);
             i < j < |mine| && mine[i].rc == 0 == mine[j].rc && forall k | i < k < j :: mine[k].rc != 0
    ensures var s := Run(INITIAL, steps);
            var mine, made, k := Project(s.sh.log, t), ThreadOf(s, t).made, First(s, t);
            && 0 <= k && k + i < |made|
            && OldOf(mine[j]) == AltAfter(OldOf(mine[i]), made[k + i].call.ss, None)
            && (OldOf(mine[j]) == After(OldOf(mine[i]), mine[i]) <==> Harmless(made[k + i].call, mine[i]))
  {
    hide Run, Project, Inv, LoggedCall, After, Reg, Harmless, AltAfter;
    InitialInv();
    RunKeeps(INITIAL, steps);
    var s := Run(INITIAL, steps);
    LoggedCalls(s, t);
    LoggedOld(s, t, i);
    LoggedOld(s, t, j);
    LoggedNext(s, t, i);
    FailuresKeep(s, t, i, j);
  }

  /** Failed calls leave no trace in the kernel. */
  lemma {:induction false} FailuresKeep(s: System, t: nat, i: nat, j: nat)
    requires i < j <= |Project(s.sh.log, t)| && forall m: nat | i <= m < j :: LoggedCall(s, t, m)
    requires forall m: nat | i < m < j :: Project(s.sh.log, t)[m].rc != 0
    ensures First(s, t) + j <= |ThreadOf(s, t).made| && 0 <= First(s, t)
    ensures Reg(ThreadOf(s, t).made, First(s, t) + j) == Reg(ThreadOf(s, t).made, First(s, t) + i + 1)
    decreases j
  {
    hide Project, After, Reg;
    assert LoggedCall(s, t, j - 1);
    LoggedNext(s, t, j - 1);
    hide LoggedCall;
    if i < j - 1 {
      FailuresKeep(s, t, i, j - 1);
    }
  }

  lemma ReplayOne(r: Rec, alt: Stack)
    ensures Replay([r], alt) == After(alt, r)
  {
    ReplayAppend([], r, alt);
    assert [] + [r] == [r];
  }

  /** Thread `t` takes `n` steps in a row. */
  function Steps(s: System, t: nat, x: Input, n: nat): System
    decreases n
  {
    if n == 0 then s else Steps(Next(s, t, x), t, x, n - 1)
  }

  lemma {:induction false} StepsAreRun(s: System, t: nat, x: Input, n: nat)
    ensures Steps(s, t, x, n) == Run(s, seq(n, _ => (t, x)))
    decreases n
  {
    hide Next;
    if n > 0 {
      StepsAreRun(Next(s, t, x), t, x, n - 1);
      assert seq(n, _ => (t, x))[1..] == seq(n - 1, _ => (t, x));
    }
  }

  /** Between the lookup and the open in `init_once` another thread already sees the function pointer but no log:
    * its whole call goes through unrecorded, which is why the log is a suffix and not the whole history. */
  lemma EarlyCallUnlogged() returns (x: Input, s: System)
    ensures s == Steps(Steps(INITIAL, 0, x, 6), 1, x, 5)
    ensures 1 in s.threads && s.threads[1].pc.Idle? && |s.threads[1].hist| == 1
    ensures s.sh.log == [] && s.sh.resolved && !s.sh.done
  {
    x := Input(NO_CALL, None, 3, 0, 0, NO_STACK);
    var before := Steps(INITIAL, 0, x, 6);
    assert before.sh == Shared(true, false, -1, Some(0), 1, 0, Some((0, 0)), false, []);
    assert before.threads.Keys == {0};
    EarlyCall(before, x);
    s := Steps(before, 1, x, 5);
  }

  lemma EarlyCall(s: System, x: Input)
    requires s.sh.resolved && s.sh.fd < 0 && 1 !in s.threads
    ensures var s' := Steps(s, 1, x, 5);
            1 in s'.threads && s'.sh == s.sh && s'.threads[1].pc.Idle? && |s'.threads[1].hist| == 1
  {
    hide RecOf, Direct;
    var s2 := Steps(s, 1, x, 2);
    var s3 := Next(s2, 1, x);
    var s5 := Next(Next(s3, 1, x), 1, x);
    assert s2.threads[1].pc.CallReal? && s2.threads[1].hist == [];
    assert s3.threads[1].pc.LoadFd? && |s3.threads[1].hist| == 1;
    assert s5.threads[1].pc.Idle? && |s5.threads[1].hist| == 1;
  }
}
