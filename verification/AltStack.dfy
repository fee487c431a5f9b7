/** The per-thread alternate signal stack shim, and the runtimes it shares a thread with.
  *
  * `Shim` is `ensure_large_sigaltstack` itself, system call by system call.  `System` is a process: threads,
  * their kernel registrations and the mappings behind them, changed by the shim, by CoreCLR's "install only
  * when disabled" step, by Go's install-or-record step, and by signal handlers running on the stack.
  * Every event carries the results its system calls happened to have.
  */
module AltStack {
  import opened Options

  const LARGE: nat := 0x10_0000
  const PAGE: nat := 0x1000
  const GO_STACK: nat := 0x8000

  datatype Owner = ByShim | ByHost | ByGo

  /** A live mapping; its lowest `guard` bytes are inaccessible. */
  datatype Region = Region(base: nat, length: nat, guard: nat, owner: Owner, tid: nat)

  /** What `sigaltstack` holds for a thread. */
  datatype Registration = Disabled | Enabled(sp: nat, size: nat)

  datatype GoState = Outside | Inside(newSigstack: bool)

  /** One thread: the kernel's registration, the shim's two thread-local variables, Go's view of the thread,
    * and, while a handler runs on the alternate stack, how many bytes of it are in use. */
  datatype Thread = Thread(
    alive: bool, kernel: Registration, installed: bool, base: Option<nat>, go: GoState, used: Option<nat>)

  const FRESH_THREAD: Thread := Thread(true, Disabled, false, None, Outside, None)

  /** How the four system calls of one `ensure_large_sigaltstack` would turn out. */
  datatype Outcome = Outcome(queryOk: bool, mapped: Option<nat>, protectOk: bool, installOk: bool)

  predicate Apart(r: Region, base: nat, length: nat) {
    base + length <= r.base || r.base + r.length <= base
  }

  /** The kernel only hands out addresses nobody else has mapped. */
  predicate FreshRange(live: set<Region>, base: nat, length: nat) {
    forall r <- live :: Apart(r, base, length)
  }

  predicate Large(k: Registration) {
    k.Enabled? && k.size >= LARGE
  }

  function ShimRegion(t: nat, base: nat, protectOk: bool): Region {
    Region(base, PAGE + LARGE, if protectOk then PAGE else 0, ByShim, t)
  }

  /** Does this call get as far as replacing the registration? */
  predicate Replaces(th: Thread, o: Outcome) {
    !th.installed && o.queryOk && !Large(th.kernel) && o.mapped.Some? && o.installOk
  }

  function EnsureThread(th: Thread, o: Outcome): Thread {
    if Replaces(th, o) then
      th.(kernel := Enabled(o.mapped.value + PAGE, LARGE), base := Some(o.mapped.value), installed := true)
    else
      th.(installed := th.installed || (o.queryOk && Large(th.kernel)))
  }

  function EnsureLive(th: Thread, live: set<Region>, t: nat, o: Outcome): set<Region> {
    if Replaces(th, o) then live + {ShimRegion(t, o.mapped.value, o.protectOk)} else live
  }

  /** When the shim installs, what, and what it leaves alone.  With the flag clear a call sets it if and only if it
    * can query and either finds 1 MiB registered or gets its own mapping registered; in every other case the thread
    * and the mappings stay as they were. */
  lemma EnsureLaw(th: Thread, live: set<Region>, t: nat, o: Outcome)
    ensures th.installed ==> EnsureThread(th, o) == th && EnsureLive(th, live, t, o) == live
    ensures !th.installed ==>
              var after, mapped := EnsureThread(th, o), EnsureLive(th, live, t, o);
              var large := th.kernel.Enabled? && th.kernel.size >= 0x10_0000;
              && (after.installed <==> o.queryOk && (large || (o.mapped.Some? && o.installOk)))
              && (after.installed && large ==> after == th.(installed := true) && mapped == live)
              && (after.installed && !large ==>
                    && after == th.(installed := true, kernel := Enabled(o.mapped.value + 0x1000, 0x10_0000),
                                  base := Some(o.mapped.value))
                    && mapped == live + {Region(o.mapped.value, 0x10_1000, if o.protectOk then 0x1000 else 0,
                                                ByShim, t)})
              && (!after.installed ==> after == th && mapped == live)
  {
  }

  /** The calling thread as the C function sees it. */
  class Shim {
    const tid: nat
    var thread: Thread
    var live: set<Region>

    constructor (t: nat)
      ensures tid == t && thread == FRESH_THREAD && live == {}
    {
      tid, thread, live := t, FRESH_THREAD, {};
    }

    /** `sigaltstack(&ss, NULL)` */
    method Install(sp: nat, size: nat, ok: bool)
      modifies this`thread
      ensures thread == if ok then old(thread).(kernel := Enabled(sp, size)) else old(thread)
    {
      if ok {
        thread := thread.(kernel := Enabled(sp, size));
      }
    }

    method EnsureLargeSigaltstack(o: Outcome)
      requires o.mapped.Some? ==> FreshRange(live, o.mapped.value, PAGE + LARGE)
      modifies this
      ensures thread == EnsureThread(old(thread), o)
      ensures live == EnsureLive(old(thread), old(live), tid, o)
      ensures var large := old(thread.kernel).Enabled? && old(thread.kernel).size >= 0x10_0000;
              && (thread.installed <==>
                    old(thread.installed) || (o.queryOk && (large || (o.mapped.Some? && o.installOk))))
              && (thread.installed && !old(thread.installed) && !large ==>
                    && thread.kernel == Enabled(o.mapped.value + 0x1000, 0x10_0000)
                    && live == old(live) + {Region(o.mapped.value, 0x10_1000, if o.protectOk then 0x1000 else 0,
                                                   ByShim, tid)})
              && (!thread.installed || old(thread.installed) || large ==>
                    thread.kernel == old(thread.kernel) && live == old(live))
    {
      EnsureLaw(thread, live, tid, o);
      if thread.installed {
        return;
      }
      if !o.queryOk {
        return;
      }
      if thread.kernel.Enabled? && thread.kernel.size >= LARGE {
        thread := thread.(installed := true);
        return;
      }
      var total := PAGE + LARGE;
      if o.mapped.None? {
        return;
      }
      var base := o.mapped.value;
      var mapping := Region(base, total, 0, ByShim, tid);
      FreshIsNew(live, mapping);
      live := live + {mapping};
      if o.protectOk {
        live := live - {mapping};
        mapping := mapping.(guard := PAGE);
        FreshIsNew(live, mapping);
        live := live + {mapping};
      }
      Install(base + PAGE, LARGE, o.installOk);
      if !o.installOk {
        live := live - {mapping};
        return;
      }
      thread := thread.(base := Some(base), installed := true);
    }
  }

  lemma FreshIsNew(live: set<Region>, r: Region)
    requires FreshRange(live, r.base, r.length) && r.length > 0
    ensures r !in live && (live + {r}) - {r} == live
  {
    assert r in live ==> Apart(r, r.base, r.length);
  }

  // ------------------------------------------------------------------ the whole process

  datatype System = System(threads: map<nat, Thread>, live: set<Region>)

  datatype Event =
    | Create(tid: nat)
    | HostEnsure(tid: nat, base: nat, size: nat)
    | Ensure(tid: nat, o: Outcome)
    | GoEnter(tid: nat, base: nat)
    | GoExit(tid: nat)
    | SignalEnter(tid: nat)
    | SignalPush(tid: nat, bytes: nat)
    | SignalReturn(tid: nat)
    | Exit(tid: nat)

  const INITIAL: System := System(map[], {})

  /** What the kernel and the runtimes guarantee about an event: fresh mappings, no registration change while
    * a handler is on the stack, and Go and thread exit only outside handlers. */
  predicate Possible(s: System, e: Event) {
    if e.Create? then e.tid !in s.threads
    else
      e.tid in s.threads && s.threads[e.tid].alive &&
      var th := s.threads[e.tid];
      match e
      case HostEnsure(_, b, n) => FreshRange(s.live, b, n) && 0 < n
      case Ensure(_, o) =>
        (o.mapped.Some? ==> FreshRange(s.live, o.mapped.value, PAGE + LARGE)) && (th.used.Some? ==> !o.installOk)
      case GoEnter(_, b) => th.go.Outside? && FreshRange(s.live, b, GO_STACK)
      case GoExit(_) => th.go.Inside? && th.used.None?
      case SignalEnter(_) => th.used.None?
      case SignalPush(_, _) => th.used.Some?
      case SignalReturn(_) => th.used.Some?
      case Exit(_) => th.used.None?
  }

  /** Exactly that, event by event, for a live thread: nothing else is ruled out. */
  lemma PossibleLaw(s: System, t: nat, b: nat, n: nat, o: Outcome, u: nat)
    requires t in s.threads && s.threads[t].alive
    ensures Possible(s, HostEnsure(t, b, n)) <==> n > 0 && FreshRange(s.live, b, n)
    ensures Possible(s, Ensure(t, o)) <==>
              && (o.mapped.Some? ==> FreshRange(s.live, o.mapped.value, 0x10_1000))
              && (o.installOk ==> s.threads[t].used == None)
    ensures Possible(s, GoEnter(t, b)) <==> s.threads[t].go == Outside && FreshRange(s.live, b, 0x8000)
    ensures Possible(s, GoExit(t)) <==> s.threads[t].go != Outside && s.threads[t].used == None
    ensures Possible(s, SignalEnter(t)) <==> s.threads[t].used == None
    ensures Possible(s, SignalPush(t, n)) && Possible(s, SignalReturn(t)) <==> s.threads[t].used != None
    ensures Possible(s, Exit(t)) <==> s.threads[t].used == None
    ensures Possible(s, Create(u)) <==> u !in s.threads
  {
  }

  /** The usage rule: the shim is called before the thread enters Go, not from within a Go call that installed
    * Go's own stack. */
  predicate Disciplined(s: System, e: Event)
    requires Possible(s, e)
  {
    e.Ensure? ==> s.threads[e.tid].go != Inside(true)
  }

  function NextThread(th: Thread, e: Event): Thread {
    match e
    case Create(_) => FRESH_THREAD
    case HostEnsure(_, b, n) => if th.kernel.Disabled? then th.(kernel := Enabled(b, n)) else th
    case Ensure(_, o) => EnsureThread(th, o)
    case GoEnter(_, b) =>
      if th.kernel.Disabled? then th.(kernel := Enabled(b, GO_STACK), go := Inside(true)) else th.(go := Inside(false))
    case GoExit(_) => if th.go == Inside(true) then th.(kernel := Disabled, go := Outside) else th.(go := Outside)
    case SignalEnter(_) => if th.kernel.Enabled? then th.(used := Some(0)) else th
    case SignalPush(_, n) => if th.used.Some? then th.(used := Some(th.used.value + n)) else th
    case SignalReturn(_) => th.(used := None)
    case Exit(_) => th.(alive := false, kernel := Disabled)
  }

  function NextLive(th: Thread, live: set<Region>, e: Event): set<Region> {
    match e
    case HostEnsure(t, b, n) => if th.kernel.Disabled? then live + {Region(b, n, 0, ByHost, t)} else live
    case Ensure(t, o) => EnsureLive(th, live, t, o)
    case GoEnter(t, b) => if th.kernel.Disabled? then live + {Region(b, GO_STACK, 0, ByGo, t)} else live
    case GoExit(t) => if th.go == Inside(true) then Without(live, t, ByGo) else live
    case Exit(t) => Without(Without(live, t, ByGo), t, ByHost)
    case _ => live
  }

  function Without(live: set<Region>, t: nat, owner: Owner): set<Region> {
    set r <- live | !(r.tid == t && r.owner == owner)
  }

  /** What CoreCLR and Go do to a registration: each installs its own stack if and only if there is none, CoreCLR's
    * for good, Go's 32 KiB for the length of the call, which leaves the thread as it found it. */
  lemma RuntimesLaw(th: Thread, live: set<Region>, t: nat, b: nat, n: nat)
    ensures NextThread(th, HostEnsure(t, b, n)) == if th.kernel == Disabled then th.(kernel := Enabled(b, n)) else th
    ensures NextLive(th, live, HostEnsure(t, b, n))
         == if th.kernel == Disabled then live + {Region(b, n, 0, ByHost, t)} else live
    ensures th.go == Outside ==>
              var inside, during := NextThread(th, GoEnter(t, b)), NextLive(th, live, GoEnter(t, b));
              && inside.kernel == (if th.kernel == Disabled then Enabled(b, 0x8000) else th.kernel)
              && during == (if th.kernel == Disabled then live + {Region(b, 0x8000, 0, ByGo, t)} else live)
              && NextThread(inside, GoExit(t)) == th
              && ((forall r <- live | r.tid == t :: r.owner != ByGo) ==> NextLive(inside, during, GoExit(t)) == live)
  {
    if forall r <- live | r.tid == t :: r.owner != ByGo {
      assert Without(live + {Region(b, 0x8000, 0, ByGo, t)}, t, ByGo) == live;
    }
  }

  /** A thread starts with nothing registered and nothing mapped, and of its mappings only the shim's outlive it. */
  lemma LifeLaw(th: Thread, live: set<Region>, t: nat, r: Region)
    ensures NextThread(th, Create(t)) == Thread(true, Disabled, false, None, Outside, None)
    ensures NextLive(th, live, Create(t)) == live
    ensures NextThread(th, Exit(t)) == th.(alive := false, kernel := Disabled)
    ensures r in NextLive(th, live, Exit(t)) <==> r in live && (r.tid == t ==> r.owner == ByShim)
  {
  }

  /** A handler on the alternate stack uses what its frames push, and gives it all back. */
  lemma SignalLaw(th: Thread, t: nat, a: nat, b: nat)
    requires th.used == None
    ensures var s1 := NextThread(th, SignalEnter(t));
            var s2 := NextThread(NextThread(s1, SignalPush(t, a)), SignalPush(t, b));
            && s2 == (if th.kernel.Enabled? then th.(used := Some(a + b)) else th)
            && NextThread(s2, SignalReturn(t)) == th
  {
  }

  function ThreadOf(s: System, t: nat): Thread {
    if t in s.threads then s.threads[t] else FRESH_THREAD
  }

  function Next(s: System, e: Event): System {
    var th := ThreadOf(s, e.tid);
    System(s.threads[e.tid := NextThread(th, e)], NextLive(th, s.live, e))
  }

  /** A run of the process: every event is possible. */
  predicate Feasible(s: System, es: seq<Event>)
    decreases |es|
  {
    es == [] || (Possible(s, es[0]) && Feasible(Next(s, es[0]), es[1..]))
  }

  /** A run in which thread `t` keeps the usage rule, whatever the other threads do. */
  predicate LegalFor(s: System, es: seq<Event>, t: nat)
    decreases |es|
  {
    es == [] ||
    (Possible(s, es[0]) && (es[0].tid == t ==> Disciplined(s, es[0])) && LegalFor(Next(s, es[0]), es[1..], t))
  }

  function Run(s: System, es: seq<Event>): System
    decreases |es|
  {
    if es == [] then s else Run(Next(s, es[0]), es[1..])
  }

  // ------------------------------------------------------------------ invariant

  /** The registered bytes all belong to the usable part of this mapping. */
  predicate Backs(r: Region, t: nat, k: Registration) {
    k.Enabled? && r.tid == t && r.base + r.guard <= k.sp && k.sp + k.size <= r.base + r.length
  }

  predicate Backed(live: set<Region>, t: nat, th: Thread) {
    th.kernel.Disabled? || exists r :: r in live && Backs(r, t, th.kernel) && (th.base.Some? || r.owner != ByShim)
  }

  /** What holds of every thread of every process: a registered stack is backed by live memory. */
  predicate Sound(live: set<Region>, t: nat, th: Thread) {
    && (th.alive ==> Backed(live, t, th))
    && (!th.alive ==> th.kernel.Disabled?)
    && (th.used.Some? ==> th.kernel.Enabled? && th.alive)
  }

  /** What holds of a thread that keeps the usage rule: while it lives, a set flag means a large stack that Go does not
    * think is its own, and a recorded base is the registered one. */
  predicate Flagged(th: Thread) {
    th.alive ==>
      && (th.installed ==> Large(th.kernel) && th.go != Inside(true))
      && (th.base.Some? ==> th.installed && th.kernel == Enabled(th.base.value + PAGE, LARGE))
  }

  /** A shim mapping is live only because some thread registered it. */
  predicate Accounted(s: System, r: Region) {
    r.owner == ByShim ==>
      r.tid in s.threads && s.threads[r.tid].base == Some(r.base) && exists p :: r == ShimRegion(r.tid, r.base, p)
  }

  predicate DisjointRegions(live: set<Region>) {
    forall a <- live, b <- live | a != b :: Apart(a, b.base, b.length)
  }

  /** A recorded base is that of a live shim mapping, and the flag goes with it. */
  predicate Holds(live: set<Region>, t: nat, th: Thread) {
    th.base.Some? ==> th.installed && exists p :: ShimRegion(t, th.base.value, p) in live
  }

  /** Who owns which mapping.  This needs no usage rule. */
  ghost predicate Owned(s: System) {
    && (forall t <- s.threads :: Holds(s.live, t, s.threads[t]))
    && (forall r <- s.live :: Accounted(s, r) && r.length > 0 && r.tid in s.threads)
    && DisjointRegions(s.live)
  }

  ghost predicate Safe(s: System) {
    Owned(s) && forall t <- s.threads :: Sound(s.live, t, s.threads[t])
  }

  lemma SoundFrame(live: set<Region>, after: set<Region>, t: nat, th: Thread)
    requires Sound(live, t, th)
    requires forall r <- live | r.tid == t :: r in after
    ensures Sound(after, t, th)
  {
    if th.kernel.Enabled? && th.alive {
      var r :| r in live && Backs(r, t, th.kernel) && (th.base.Some? || r.owner != ByShim);
      assert r in after;
    }
  }

  /** No event touches the mappings of another thread. */
  lemma OthersKeep(th: Thread, live: set<Region>, e: Event, r: Region)
    requires r in live && r.tid != e.tid
    ensures r in NextLive(th, live, e)
  {
  }

  /** An event of its own leaves a thread's registration backed, whether or not it keeps the usage rule. */
  lemma SoundKeeps(th: Thread, live: set<Region>, e: Event)
    requires e.Create? || (Sound(live, e.tid, th) && th.alive)
    requires e.GoExit? || e.Exit? ==> th.used.None?
    requires e.Ensure? && th.used.Some? ==> !e.o.installOk
    ensures Sound(NextLive(th, live, e), e.tid, NextThread(th, e))
  {
    var after := NextLive(th, live, e);
    var th' := NextThread(th, e);
    if e.Create? {
    } else if e.Ensure? && Replaces(th, e.o) {
      var r := ShimRegion(e.tid, e.o.mapped.value, e.o.protectOk);
      assert r in after && Backs(r, e.tid, th'.kernel);
    } else if th.kernel.Enabled? {
      var r :| r in live && Backs(r, e.tid, th.kernel) && (th.base.Some? || r.owner != ByShim);
      if th'.kernel.Enabled? {
        assert r in after && Backs(r, e.tid, th'.kernel);
      }
    } else if th'.kernel.Enabled? {
      var n := if e.GoEnter? then GO_STACK else e.size;
      var r := Region(e.base, n, 0, if e.GoEnter? then ByGo else ByHost, e.tid);
      assert r in after && Backs(r, e.tid, th'.kernel);
    }
  }

  /** And one that keeps the rule, or comes after the flag is set, leaves the flag meaningful. */
  lemma FlagKeeps(s: System, e: Event)
    requires Possible(s, e) && Flagged(ThreadOf(s, e.tid))
    requires Disciplined(s, e) || ThreadOf(s, e.tid).installed
    ensures Flagged(Next(s, e).threads[e.tid])
  {
  }

  /** A new mapping is apart from every other, so the address space stays disjoint. */
  lemma DisjointKeeps(live: set<Region>, r: Region)
    requires DisjointRegions(live) && FreshRange(live, r.base, r.length)
    ensures DisjointRegions(live + {r})
  {
  }

  lemma RegionsKeep(s: System, e: Event)
    requires Owned(s) && Possible(s, e)
    ensures var s' := Next(s, e); DisjointRegions(s'.live)
    ensures var s' := Next(s, e); forall r <- s'.live :: Accounted(s', r) && r.length > 0 && r.tid in s'.threads
  {
    var th := ThreadOf(s, e.tid);
    var s' := Next(s, e);
    match e {
      case HostEnsure(t, b, n) => DisjointKeeps(s.live, Region(b, n, 0, ByHost, t));
      case Ensure(t, o) =>
        if o.mapped.Some? { DisjointKeeps(s.live, ShimRegion(t, o.mapped.value, o.protectOk)); }
      case GoEnter(t, b) => DisjointKeeps(s.live, Region(b, GO_STACK, 0, ByGo, t));
      case _ =>
    }
    forall r <- s'.live ensures Accounted(s', r) && r.length > 0 && r.tid in s'.threads {
      if r in s.live {
        assert Accounted(s, r);
        AccountedKeeps(s, e, r);
      } else if e.Ensure? {
        assert r == ShimRegion(e.tid, e.o.mapped.value, e.o.protectOk);
      }
    }
  }

  lemma AccountedKeeps(s: System, e: Event, r: Region)
    requires Owned(s) && Possible(s, e) && r in s.live && r in Next(s, e).live
    ensures Accounted(Next(s, e), r) && r.length > 0 && r.tid in Next(s, e).threads
  {
    assert Accounted(s, r);
    if r.owner == ByShim && r.tid == e.tid {
      assert Holds(s.live, e.tid, s.threads[e.tid]);
      assert NextThread(s.threads[e.tid], e).base == s.threads[e.tid].base;
    }
  }

  lemma HoldsKeeps(th: Thread, live: set<Region>, e: Event)
    requires Holds(live, e.tid, th)
    ensures Holds(NextLive(th, live, e), e.tid, NextThread(th, e))
  {
    var after := NextLive(th, live, e);
    if th.base.Some? && !e.Create? {
      var p :| ShimRegion(e.tid, th.base.value, p) in live;
      assert ShimRegion(e.tid, th.base.value, p) in after;
    }
    if e.Ensure? && Replaces(th, e.o) {
      assert ShimRegion(e.tid, e.o.mapped.value, e.o.protectOk) in after;
    }
  }

  lemma HoldsFrame(live: set<Region>, after: set<Region>, t: nat, th: Thread)
    requires Holds(live, t, th)
    requires forall r <- live | r.tid == t :: r in after
    ensures Holds(after, t, th)
  {
    if th.base.Some? {
      var p :| ShimRegion(t, th.base.value, p) in live;
      assert ShimRegion(t, th.base.value, p) in after;
    }
  }

  /** Every event keeps the ownership of mappings, whenever and wherever the shim is called. */
  lemma OwnedKeeps(s: System, e: Event)
    requires Owned(s) && Possible(s, e)
    ensures Owned(Next(s, e))
  {
    var th := ThreadOf(s, e.tid);
    var s' := Next(s, e);
    RegionsKeep(s, e);
    HoldsKeeps(th, s.live, e);
    forall t <- s'.threads ensures Holds(s'.live, t, s'.threads[t]) {
      if t != e.tid {
        forall r <- s.live | r.tid == t ensures r in s'.live {
          OthersKeep(th, s.live, e, r);
        }
        HoldsFrame(s.live, s'.live, t, s.threads[t]);
      }
    }
  }

  /** Every event keeps every thread's registration backed. */
  lemma SafeKeeps(s: System, e: Event)
    requires Safe(s) && Possible(s, e)
    ensures Safe(Next(s, e))
  {
    var th := ThreadOf(s, e.tid);
    var s' := Next(s, e);
    OwnedKeeps(s, e);
    SoundKeeps(th, s.live, e);
    forall t <- s'.threads ensures Sound(s'.live, t, s'.threads[t]) {
      if t != e.tid {
        forall r <- s.live | r.tid == t ensures r in s'.live {
          OthersKeep(th, s.live, e, r);
        }
        SoundFrame(s.live, s'.live, t, s.threads[t]);
      }
    }
  }

  // ------------------------------------------------------------------ whole runs

  lemma {:induction false} RunSafe(s: System, es: seq<Event>)
    requires Safe(s) && Feasible(s, es)
    ensures Safe(Run(s, es))
    decreases |es|
  {
    if es != [] {
      SafeKeeps(s, es[0]);
      RunSafe(Next(s, es[0]), es[1..]);
    }
  }

  /** In every state any process can reach, whoever called the shim from wherever, mappings are disjoint and owned and
    * every registered stack is backed by live memory of its own thread. */
  lemma ReachableSafe(es: seq<Event>)
    requires Feasible(INITIAL, es)
    ensures Safe(Run(INITIAL, es))
  {
    RunSafe(INITIAL, es);
  }

  lemma {:induction false} RunOwned(s: System, es: seq<Event>)
    requires Owned(s) && Feasible(s, es)
    ensures Owned(Run(s, es))
    decreases |es|
  {
    if es != [] {
      OwnedKeeps(s, es[0]);
      RunOwned(Next(s, es[0]), es[1..]);
    }
  }

  /** In every state any process can reach, each mapping has its owner and no two overlap. */
  lemma ReachableOwned(es: seq<Event>)
    requires Feasible(INITIAL, es)
    ensures Owned(Run(INITIAL, es))
  {
    RunOwned(INITIAL, es);
  }

  /** Whatever other threads do, the flag of a thread that keeps the usage rule means what it should. */
  lemma {:induction false} RunFlagged(s: System, es: seq<Event>, t: nat)
    requires LegalFor(s, es, t) && Flagged(ThreadOf(s, t))
    ensures Flagged(ThreadOf(Run(s, es), t)) && Feasible(s, es)
    decreases |es|
  {
    if es != [] {
      if es[0].tid == t {
        FlagKeeps(s, es[0]);
      }
      RunFlagged(Next(s, es[0]), es[1..], t);
    }
  }

  lemma ReachableFlagged(es: seq<Event>, t: nat)
    requires LegalFor(INITIAL, es, t)
    ensures Flagged(ThreadOf(Run(INITIAL, es), t)) && Safe(Run(INITIAL, es))
  {
    RunFlagged(INITIAL, es, t);
    ReachableSafe(es);
  }

  predicate AliveThroughout(s: System, es: seq<Event>, t: nat)
    decreases |es|
  {
    t in s.threads && s.threads[t].alive && (es == [] || AliveThroughout(Next(s, es[0]), es[1..], t))
  }

  /** Whole-run safety.  Once its flag is set, a thread that has kept the usage rule keeps the very same enabled stack
    * of at least 1 MiB for as long as it lives, whatever it, CoreCLR, Go, signals and other threads then do, and Go is
    * never in a call that would disable it on the way out. */
  lemma {:induction false} FlaggedForever(s: System, es: seq<Event>, t: nat)
    requires Feasible(s, es) && AliveThroughout(s, es, t) && Flagged(s.threads[t]) && s.threads[t].installed
    ensures var s' := Run(s, es);
            t in s'.threads &&
            var th := s'.threads[t];
            && th.alive && th.installed && th.kernel == s.threads[t].kernel && th.kernel.Enabled?
            && th.kernel.size >= 0x10_0000
            && th.base == s.threads[t].base && th.go != Inside(true)
    decreases |es|
  {
    if es != [] {
      if es[0].tid == t {
        FlagKeeps(s, es[0]);
      }
      FlaggedForever(Next(s, es[0]), es[1..], t);
    }
  }

  /** In every reachable state a handler that has used no more bytes than are registered has only touched accessible
    * memory that is mapped for its own thread and shared with no other mapping. */
  lemma HandlerInside(s: System, t: nat, a: nat) returns (r: Region)
    requires Safe(s) && t in s.threads && s.threads[t].used.Some?
    requires var th := s.threads[t];
             th.kernel.Enabled? ==>
               th.used.value <= th.kernel.size &&
               th.kernel.sp + th.kernel.size - th.used.value <= a < th.kernel.sp + th.kernel.size
    ensures r in s.live && r.tid == t && r.base + r.guard <= a < r.base + r.length
    ensures forall q <- s.live | q != r :: a < q.base || q.base + q.length <= a
  {
    var th := s.threads[t];
    assert Sound(s.live, t, th);
    r :| r in s.live && Backs(r, t, th.kernel) && (th.base.Some? || r.owner != ByShim);
    forall q <- s.live | q != r ensures a < q.base || q.base + q.length <= a {
      assert Apart(q, r.base, r.length);
    }
  }

  /** On a flagged thread that has kept the usage rule a handler may use 1 MiB: after any run, and whatever followed. */
  lemma LargeHandlerInside(before: seq<Event>, after: seq<Event>, t: nat, a: nat) returns (r: Region)
    requires LegalFor(INITIAL, before, t)
    requires var s := Run(INITIAL, before);
             Feasible(s, after) && AliveThroughout(s, after, t) && s.threads[t].installed
    requires var th := ThreadOf(Run(Run(INITIAL, before), after), t);
             th.used.Some? && th.used.value <= 0x10_0000 &&
             (th.kernel.Enabled? ==>
                th.kernel.sp + th.kernel.size - th.used.value <= a < th.kernel.sp + th.kernel.size)
    ensures var s := Run(Run(INITIAL, before), after);
            && r in s.live && r.tid == t && r.base + r.guard <= a < r.base + r.length
            && forall q <- s.live | q != r :: a < q.base || q.base + q.length <= a
  {
    ReachableFlagged(before, t);
    var s := Run(INITIAL, before);
    FlaggedForever(s, after, t);
    RunSafe(s, after);
    r := HandlerInside(Run(s, after), t, a);
  }

  /** The live shim mappings of one thread. */
  function ShimRegions(live: set<Region>, t: nat): set<Region> {
    set r <- live | r.owner == ByShim && r.tid == t
  }

  /** Conservation, over every run and under every combination of call results: a thread has one live shim mapping
    * if it registered one and none otherwise. */
  lemma ShimMappings(es: seq<Event>, t: nat)
    requires Feasible(INITIAL, es)
    ensures var s := Run(INITIAL, es);
            var th := ThreadOf(s, t);
            if th.base.None? then ShimRegions(s.live, t) == {}
            else th.installed &&
                 var b := th.base.value;
                 || ShimRegions(s.live, t) == {Region(b, 0x10_1000, 0x1000, ByShim, t)}
                 || ShimRegions(s.live, t) == {Region(b, 0x10_1000, 0, ByShim, t)}
  {
    ReachableOwned(es);
    OwnedMappings(Run(INITIAL, es), t);
  }

  lemma OwnedMappings(s: System, t: nat)
    requires Owned(s)
    ensures var th := ThreadOf(s, t);
            if th.base.None? then ShimRegions(s.live, t) == {}
            else th.installed && exists p :: ShimRegions(s.live, t) == {ShimRegion(t, th.base.value, p)}
  {
    var th := ThreadOf(s, t);
    forall r <- s.live | r.owner == ByShim && r.tid == t ensures th.base == Some(r.base) {
      assert Accounted(s, r);
    }
    if th.base.Some? {
      assert Holds(s.live, t, th);
      var p :| ShimRegion(t, th.base.value, p) in s.live;
      var mine := ShimRegion(t, th.base.value, p);
      forall r <- s.live | r.owner == ByShim && r.tid == t ensures r == mine {
        assert Accounted(s, r);
        assert r != mine ==> Apart(r, mine.base, mine.length);
      }
      assert ShimRegions(s.live, t) == {mine};
    }
  }

  /** Whoever sets the flag, the thread then has at least 1 MiB registered; a call that maps but cannot install
    * leaves no mapping behind. */
  lemma FlagMeansLarge(s: System, t: nat, o: Outcome)
    requires Possible(s, Ensure(t, o))
    ensures var s' := Next(s, Ensure(t, o));
            && (s'.threads[t].installed && !s.threads[t].installed ==>
                  s'.threads[t].kernel.Enabled? && s'.threads[t].kernel.size >= 0x10_0000)
            && (s'.live != s.live ==> s'.threads[t].installed && s'.threads[t].base.Some?)
  {
  }

  /** The pages just above a shim mapping's base are the guard: the first byte below the registered stack is
    * inaccessible when `mprotect` succeeded. */
  lemma GuardBelow(s: System, t: nat, r: Region)
    requires Owned(s) && t in s.threads && Flagged(s.threads[t]) && s.threads[t].alive && s.threads[t].base.Some?
    requires r in s.live && r.owner == ByShim && r.tid == t
    ensures s.threads[t].kernel == Enabled(r.base + 0x1000, 0x10_0000)
    ensures (r.guard == 0x1000 || r.guard == 0) && r.length == 0x10_1000
  {
    assert Accounted(s, r);
  }

  /** Nothing in the process ever unmaps a shim stack that was registered, not even its thread's exit. */
  lemma {:induction false} ShimStackStays(s: System, es: seq<Event>, r: Region)
    requires r in s.live && r.owner == ByShim
    ensures r in Run(s, es).live
    decreases |es|
  {
    if es != [] {
      ShimStackStays(Next(s, es[0]), es[1..], r);
    }
  }

  /** What a call that gets through leaves behind: 1 MiB registered right above a guard page, in a mapping of its
    * own that holds nothing else. */
  lemma EnsureInstalls(s: System, t: nat, o: Outcome)
    requires Possible(s, Ensure(t, o)) && o.queryOk && o.mapped.Some? && o.installOk
    requires var th := s.threads[t]; !th.installed && !(th.kernel.Enabled? && th.kernel.size >= 0x10_0000)
    ensures var s' := Next(s, Ensure(t, o));
            var r := ShimRegion(t, o.mapped.value, o.protectOk);
            && s'.live == s.live + {r} && r !in s.live && Backs(r, t, s'.threads[t].kernel)
            && s'.threads[t].installed && s'.threads[t].base == Some(r.base)
            && s'.threads[t].kernel == Enabled(o.mapped.value + 0x1000, 0x10_0000)
            && r.length == 0x10_1000 && r.guard == if o.protectOk then 0x1000 else 0
  {
    FreshIsNew(s.live, ShimRegion(t, o.mapped.value, o.protectOk));
  }

  /** The second and every later call on a thread changes nothing, whatever its system calls would have returned. */
  lemma EnsureIdempotent(th: Thread, live: set<Region>, t: nat, o: Outcome, again: Outcome)
    ensures var once := EnsureThread(th, o);
            once.installed ==> EnsureThread(once, again) == once && EnsureLive(once, live, t, again) == live
    ensures !EnsureThread(th, o).installed ==> EnsureThread(th, o) == th && EnsureLive(th, live, t, o) == live
  {
  }

  /** Thread `t` stays in the Go call it is in. */
  predicate StaysInGo(es: seq<Event>, t: nat) {
    forall i | 0 <= i < |es| :: es[i] != GoExit(t)
  }

  lemma {:induction false} GoPersists(s: System, es: seq<Event>, t: nat)
    requires Feasible(s, es) && AliveThroughout(s, es, t) && s.threads[t].go.Inside? && StaysInGo(es, t)
    ensures var s' := Run(s, es); t in s'.threads && s'.threads[t].alive && s'.threads[t].go == s.threads[t].go
    decreases |es|
  {
    if es != [] {
      assert es[0] != GoExit(t);
      GoPersists(Next(s, es[0]), es[1..], t);
    }
  }

  /** The usage rule is exact.  When the flag is set by a call made inside Go, then, whatever happens before that Go
    * call is over, the stack survives Go's exit if and only if Go had not installed a stack of its own on the way
    * in. */
  lemma EnsureInsideGo(s: System, t: nat, o: Outcome, es: seq<Event>)
    requires Possible(s, Ensure(t, o)) && Flagged(s.threads[t]) && s.threads[t].go.Inside?
    requires var s1 := Next(s, Ensure(t, o));
             && !s.threads[t].installed && s1.threads[t].installed
             && Feasible(s1, es) && AliveThroughout(s1, es, t) && StaysInGo(es, t)
    requires Possible(Run(Next(s, Ensure(t, o)), es), GoExit(t))
    ensures var s1 := Next(s, Ensure(t, o));
            var end := Next(Run(s1, es), GoExit(t)).threads[t];
            && (s.threads[t].go == Inside(false) ==> end.kernel == s1.threads[t].kernel && Large(end.kernel))
            && (s.threads[t].go == Inside(true) ==> end.kernel == Disabled)
  {
    var s1 := Next(s, Ensure(t, o));
    GoPersists(s1, es, t);
    if s.threads[t].go == Inside(false) {
      FlagKeeps(s, Ensure(t, o));
      FlaggedForever(s1, es, t);
    }
  }

  /** A run that breaks the rule: the flag stays set while the thread has no alternate stack at all. */
  lemma EnsureInsideGoDisables()
    ensures var o := Outcome(true, Some(0x100000), true, true);
            var s1 := Next(INITIAL, Create(0));
            var s2 := Next(s1, GoEnter(0, 0x10000));
            var s3 := Next(s2, Ensure(0, o));
            Possible(INITIAL, Create(0)) && Possible(s1, GoEnter(0, 0x10000)) && Possible(s2, Ensure(0, o)) &&
            Possible(s3, GoExit(0)) && !Disciplined(s2, Ensure(0, o)) &&
            var th := Next(s3, GoExit(0)).threads[0]; th.installed && th.kernel == Disabled
  {
  }
}
