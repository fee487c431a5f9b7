/** The wrapper as it is written: `init_once` and `sigaltstack`, run by one thread without interruption.
  *
  * Each method is a run of the interleaved state machine of `Tracer`, so what holds in every run holds of the code.
  */
module TracerCode {
  import opened Options
  import opened TraceRecord
  import opened Tracer

  class Wrapper {
    const tid: nat
    // shared
    var resolved: bool
    var initDone: bool
    var fd: int
    var log: seq<Rec>
    ghost var lookups: nat
    ghost var opens: nat
    ghost var initBy: Option<(nat, nat)>
    // the calling thread
    var alt: Stack
    var errno: int

    constructor (t: nat)
      ensures tid == t && Shows(INITIAL)
    {
      tid, resolved, initDone, fd, log, lookups, opens, initBy := t, false, false, -1, [], 0, 0, None;
      alt, errno := NO_STACK, 0;
    }

    /** This object is what the calling thread sees of `s`, and nobody is inside `init_once`. */
    ghost predicate Shows(s: System)
      reads this
    {
      && s.sh == Shared(resolved, initDone, fd, None, lookups, opens, initBy, false, log)
      && ThreadOf(s, tid).alt == alt && ThreadOf(s, tid).errno == errno
    }

    method InitOnce(x: Input, ghost s: System) returns (ghost n: nat)
      requires Shows(s) && ThreadOf(s, tid).pc.CheckDone? && SharedInv(s.sh)
      modifies this
      ensures alt == old(alt) && log == old(log) && resolved && initDone
      ensures fd == (if old(initDone) then old(fd) else x.fd)
      ensures errno == (if old(initDone) then old(errno) else x.clobber)
      ensures opens == old(opens) + (if old(initDone) then 0 else 1)
      ensures Shows(Steps(s, tid, x, n))
      ensures ThreadOf(Steps(s, tid, x, n), tid)
           == if old(initDone) then ThreadOf(s, tid).(pc := CallReal)
              else ThreadOf(s, tid).(pc := CallReal, errno := x.clobber, init := Some(x.clobber))
    {
      hide Steps, Next;
      n := InitSteps(s.sh);
      if initDone {
        InitSkips(s, tid, x);
        return;
      }
      resolved, lookups, errno := true, lookups + 1, x.clobber;
      initBy := Some((tid, |ThreadOf(s, tid).inits|));
      opens := opens + 1;
      fd := x.fd;
      initDone := true;
      InitRuns(s, tid, x);
    }

    /** `real_sigaltstack(ss, p_oss)`: the kernel's own effect. */
    method RealSigaltstack(c: Call, buffer: Stack, fail: Option<int>) returns (rc: int, written: Stack)
      modifies this`alt, this`errno
      ensures rc == if Outcome(c, fail).None? then 0 else -1
      ensures written == if Outcome(c, fail).None? then old(alt) else buffer
      ensures alt == AltAfter(old(alt), c.ss, Refused(c, fail))
      ensures errno == if Outcome(c, fail).Some? then Outcome(c, fail).value else old(errno)
    {
      if BadNew(c) {
        errno := EFAULT;
        return -1, buffer;
      }
      if fail.Some? {
        errno := fail.value;
        return -1, buffer;
      }
      var before := alt;
      if c.ss.Some? {
        alt := Stored(c.ss.value);
      }
      if BadOld(c) {
        errno := EFAULT;
        return -1, buffer;
      }
      return 0, before;
    }

    /** `sigaltstack`, entered with errno as it is. */
    method Sigaltstack(x: Input, ghost s: System) returns (crash: bool, rc: int, oss: Stack, ghost n: nat)
      requires Shows(s) && ThreadOf(s, tid).pc.Idle? && SharedInv(s.sh)
      modifies this
      ensures var s' := Steps(Entered(s, tid, x), tid, x, n);
              && Shows(s')
              && if crash then ThreadOf(s', tid).pc.Crashed?
                 else ThreadOf(s', tid).pc.Idle? &&
                      ThreadOf(s', tid).answers == ThreadOf(s, tid).answers + [Answer(rc, errno, oss)]
      ensures crash <==> ((x.call.ss.Some? && x.call.badNew) || (x.call.wantsOld && x.call.badOld)) && fd >= 0
      ensures resolved && fd == if old(resolved) || old(initDone) then old(fd) else x.fd
      ensures !crash ==>
                var c := x.call;
                var refused := c.ss.Some? && c.badNew;
                && rc == (if refused || x.fail.Some? || (c.wantsOld && c.badOld) then -1 else 0)
                && errno == (if refused then 14 else if x.fail.Some? then x.fail.value
                             else if c.wantsOld && c.badOld then 14
                             else if old(resolved) || old(initDone) then old(errno) else x.clobber)
                && oss == (if c.wantsOld && rc == 0 then old(alt)
                           else if c.same && c.ss.Some? && c.wantsOld then c.ss.value else c.oss)
      ensures var c := x.call;
              alt == if c.ss.None? || c.badNew || x.fail.Some? then old(alt)
                     else if c.ss.value.flags == 2 then Stack(0, 0, 2)
                     else Stack(c.ss.value.sp, c.ss.value.size, 0)
      ensures crash || fd < 0 ==> log == old(log)
      ensures !crash && fd >= 0 ==>
                var c := x.call;
                var shared := c.same && c.ss.Some? && c.wantsOld;
                var prev := if rc == 0 then old(alt)
                            else if shared then c.ss.value else if c.wantsOld then c.oss else x.garbage;
                var asked := if shared then oss else if c.ss.Some? then c.ss.value else Stack(0, 0, 0);
                log == old(log) +
                       [Rec(x.now, tid, rc, errno, 0, asked.sp, asked.size, asked.flags, if c.ss.Some? then 1 else 0,
                            prev.sp, prev.size, prev.flags, 1, c.caller)]
    {
      hide Steps, Next, StepThread, StepShared, Entered;
      ghost var m := 0;
      ghost var s0 := Entered(s, tid, x);
      ghost var s1 := Steps(s0, tid, x, 1);
      CallBegins(s, tid, x);
      StepsZero(s1, tid, x);
      if !resolved {
        m := InitOnce(x, s1);
      }
      crash, rc, oss, n := Forward(x, Steps(s1, tid, x, m));
      StepsAdd(s1, tid, x, m, n);
      StepsAdd(s0, tid, x, 1, m + n);
      n := 1 + m + n;
    }

    /** The body of `sigaltstack` after initialisation. */
    method Forward(x: Input, ghost s: System) returns (crash: bool, rc: int, oss: Stack, ghost n: nat)
      requires Shows(s) && resolved && ThreadOf(s, tid).pc.CallReal?
      requires ThreadOf(s, tid).call == x.call && ThreadOf(s, tid).oss == OssAtEntry(x.call)
      requires ThreadOf(s, tid).local == x.garbage
      modifies this
      ensures fd == old(fd) && resolved && Shows(Steps(s, tid, x, n)) && (crash <==> Faulty(x.call) && fd >= 0)
      ensures var th := ThreadOf(Steps(s, tid, x, n), tid);
              if crash then th.pc.Crashed?
              else th.pc.Idle? && th.answers == ThreadOf(s, tid).answers + [Answer(rc, errno, oss)]
      ensures !crash ==>
                var c := x.call;
                var refused := c.ss.Some? && c.badNew;
                && rc == (if refused || x.fail.Some? || (c.wantsOld && c.badOld) then -1 else 0)
                && errno == (if refused then 14 else if x.fail.Some? then x.fail.value
                             else if c.wantsOld && c.badOld then 14 else old(errno))
                && oss == (if c.wantsOld && rc == 0 then old(alt)
                           else if c.same && c.ss.Some? && c.wantsOld then c.ss.value else c.oss)
      ensures var c := x.call;
              alt == if c.ss.None? || c.badNew || x.fail.Some? then old(alt)
                     else if c.ss.value.flags == 2 then Stack(0, 0, 2)
                     else Stack(c.ss.value.sp, c.ss.value.size, 0)
      ensures crash || fd < 0 ==> log == old(log)
      ensures !crash && fd >= 0 ==>
                var c := x.call;
                var shared := c.same && c.ss.Some? && c.wantsOld;
                var prev := if rc == 0 then old(alt)
                            else if shared then c.ss.value else if c.wantsOld then c.oss else x.garbage;
                var asked := if shared then oss else if c.ss.Some? then c.ss.value else Stack(0, 0, 0);
                log == old(log) +
                       [Rec(x.now, tid, rc, errno, 0, asked.sp, asked.size, asked.flags, if c.ss.Some? then 1 else 0,
                            prev.sp, prev.size, prev.flags, 1, c.caller)]
    {
      hide Steps, Next;
      ghost var th := ThreadOf(s, tid);
      var buffer := if x.call.wantsOld then OssAtEntry(x.call) else x.garbage;
      var pOss: Stack;
      rc, pOss := RealSigaltstack(x.call, buffer, x.fail);
      var err := errno;
      ghost var called := CallThread(tid, th, x.fail);
      oss := if x.call.wantsOld then pOss else OssAtEntry(x.call);
      var request := if SameStruct(x.call) then Some(oss) else x.call.ss;
      assert RecOf(tid, called, x.now) == MakeRec(tid, request, rc, err, pOss, x.call.caller, x.now);
      hide RecOf, MakeRec, Direct, Faulty;
      crash := false;
      if fd < 0 {
        CallUnlogged(s, tid, x);
        n := 3;
      } else if Faulty(x.call) {
        // reading *ss or *oss for the record
        CallCrashes(s, tid, x);
        crash, n := true, 3;
        return;
      } else {
        log := log + [MakeRec(tid, request, rc, err, pOss, x.call.caller, x.now)];
        errno := x.clobber;
        CallLogged(s, tid, x);
        n := 4;
      }
      errno := err;
    }
  }

  lemma {:induction false} StepsAdd(s: System, t: nat, x: Input, a: nat, b: nat)
    ensures Steps(Steps(s, t, x, a), t, x, b) == Steps(s, t, x, a + b)
    decreases a
  {
    hide Next;
    if a > 0 {
      StepsAdd(Next(s, t, x), t, x, a - 1, b);
    }
  }

  lemma StepsZero(s: System, t: nat, x: Input)
    ensures Steps(s, t, x, 0) == s
  {
  }

  function InitSteps(sh: Shared): nat {
    if sh.done then 1 else 8
  }

  lemma InitSkips(s: System, t: nat, x: Input)
    requires s.sh.done && ThreadOf(s, t).pc.CheckDone?
    ensures var s' := Steps(s, t, x, 1); s'.sh == s.sh && ThreadOf(s', t) == ThreadOf(s, t).(pc := CallReal)
  {
  }

  lemma InitRuns(s: System, t: nat, x: Input)
    requires !s.sh.done && s.sh.mutex.None? && ThreadOf(s, t).pc.CheckDone?
    ensures var s' := Steps(s, t, x, 8);
            && s'.sh == s.sh.(resolved := true, done := true, fd := x.fd, lookups := s.sh.lookups + 1,
                              opens := s.sh.opens + 1, initBy := Some((t, |ThreadOf(s, t).inits|)))
            && ThreadOf(s', t) == ThreadOf(s, t).(pc := CallReal, errno := x.clobber, init := Some(x.clobber))
  {
    hide CallThread, RecOf;
    var s4 := Next(Next(Next(Next(s, t, x), t, x), t, x), t, x);
    assert s4.sh == s.sh.(mutex := Some(t), resolved := true, lookups := s.sh.lookups + 1,
                          initBy := Some((t, |ThreadOf(s, t).inits|)));
    assert ThreadOf(s4, t) == ThreadOf(s, t).(pc := OpenLog, errno := x.clobber, init := Some(x.clobber));
    assert Steps(s, t, x, 8) == Steps(s4, t, x, 4);
  }

  /** The call is made with whatever errno the thread has. */
  function Entered(s: System, t: nat, x: Input): System {
    Next(s, t, x.(clobber := ThreadOf(s, t).errno))
  }

  lemma CallBegins(s: System, t: nat, x: Input)
    requires ThreadOf(s, t).pc.Idle?
    ensures var s' := Steps(Entered(s, t, x), t, x, 1);
            var th := ThreadOf(s, t);
            && s'.sh == s.sh
            && ThreadOf(s', t) == th.(pc := if s.sh.resolved then CallReal else CheckDone, call := x.call,
                                      oss := OssAtEntry(x.call), local := x.garbage, entry := th.errno, init := None)
  {
  }

  /** Everything from the real call to the return, after `called` is what the kernel and the buffers hold. */
  function Returned(th: Thread, called: Thread): Thread {
    called.(pc := Idle, errno := called.err, answers := th.answers + [Answer(called.rc, called.err, called.oss)])
  }

  lemma CallLogged(s: System, t: nat, x: Input)
    requires ThreadOf(s, t).pc.CallReal? && s.sh.resolved && s.sh.fd >= 0 && !Faulty(ThreadOf(s, t).call)
    ensures var called := CallThread(t, ThreadOf(s, t), x.fail);
            var s' := Steps(s, t, x, 4);
            s'.sh == s.sh.(log := s.sh.log + [RecOf(t, called, x.now)]) &&
            ThreadOf(s', t) == Returned(ThreadOf(s, t), called)
  {
    var called := CallThread(t, ThreadOf(s, t), x.fail);
    RecIgnoresPc(t, called, x.now, WriteRec(s.sh.fd));
    hide RecOf, Direct, Faulty, Outcome, Refused;
    var s2 := Next(Next(s, t, x), t, x);
    assert s2.sh == s.sh && ThreadOf(s2, t) == called.(pc := WriteRec(s.sh.fd));
    assert Steps(s, t, x, 4) == Next(Next(s2, t, x), t, x);
  }

  lemma CallCrashes(s: System, t: nat, x: Input)
    requires ThreadOf(s, t).pc.CallReal? && s.sh.resolved && s.sh.fd >= 0 && Faulty(ThreadOf(s, t).call)
    ensures var s' := Steps(s, t, x, 3);
            s'.sh == s.sh && ThreadOf(s', t) == CallThread(t, ThreadOf(s, t), x.fail).(pc := Crashed)
  {
    hide RecOf, Direct, Faulty, Outcome, Refused;
    var s1 := Next(s, t, x);
    assert Steps(s, t, x, 3) == Next(Next(s1, t, x), t, x);
  }

  lemma CallUnlogged(s: System, t: nat, x: Input)
    requires ThreadOf(s, t).pc.CallReal? && s.sh.resolved && s.sh.fd < 0
    ensures var s' := Steps(s, t, x, 3);
            s'.sh == s.sh && ThreadOf(s', t) == Returned(ThreadOf(s, t), CallThread(t, ThreadOf(s, t), x.fail))
  {
    hide RecOf, Direct, Outcome, Refused;
    var s1 := Next(s, t, x);
    assert Steps(s, t, x, 3) == Next(Next(s1, t, x), t, x);
  }

  /** A process's first call, with nobody else around, entered with errno 0. */
  function FirstCall(x: Input, n: nat): System {
    Steps(Entered(INITIAL, 0, x), 0, x, 9 + n)
  }

  lemma FirstCallRuns(x: Input, n: nat)
    ensures var s := Steps(Steps(Entered(INITIAL, 0, x), 0, x, 1), 0, x, 8);
            && FirstCall(x, n) == Steps(s, 0, x, n)
            && s.sh.resolved && s.sh.fd == x.fd && s.sh.log == []
            && ThreadOf(s, 0) == FRESH.(pc := CallReal, call := x.call, oss := OssAtEntry(x.call), local := x.garbage,
                                        errno := x.clobber, init := Some(x.clobber))
  {
    hide Steps, Next, Entered, RecOf, OssAtEntry;
    var s0 := Entered(INITIAL, 0, x);
    CallBegins(INITIAL, 0, x);
    var s1 := Steps(s0, 0, x, 1);
    InitRuns(s1, 0, x);
    StepsAdd(s1, 0, x, 8, n);
    StepsAdd(s0, 0, x, 1, 8 + n);
  }

  /** Where the wrapper is not transparent: a successful first call hands back whatever errno opening the log left, be
    * it a failure's. */
  lemma InitErrnoLeaks(c: int, call: Call)
    requires !Faulty(call)
    ensures var th := ThreadOf(FirstCall(Input(call, None, -1, 0, c, NO_STACK), 3), 0);
            && th.pc.Idle? && |th.answers| == |th.expected| == 1
            && th.answers[0].rc == th.expected[0].rc == 0
            && th.expected[0].errno == 0 && th.answers[0].errno == c
  {
    var x := Input(call, None, -1, 0, c, NO_STACK);
    hide Steps, Next, Entered, RecOf;
    FirstCallRuns(x, 3);
    CallUnlogged(Steps(Steps(Entered(INITIAL, 0, x), 0, x, 1), 0, x, 8), 0, x);
  }

  /** A bad pointer: a direct call answers EFAULT, the wrapper crashes when the log is open. */
  lemma BadPointerCrashes(call: Call, fd: int)
    requires BadNew(call) && fd >= 0
    ensures var th := ThreadOf(FirstCall(Input(call, None, fd, 0, 0, NO_STACK), 3), 0);
            th.pc.Crashed? && |th.expected| == 1 && th.expected[0].rc == -1 && th.expected[0].errno == EFAULT
  {
    var x := Input(call, None, fd, 0, 0, NO_STACK);
    hide Steps, Next, Entered, RecOf;
    FirstCallRuns(x, 3);
    CallCrashes(Steps(Steps(Entered(INITIAL, 0, x), 0, x, 1), 0, x, 8), 0, x);
  }

  /** One structure for both pointers: the record shows the old stack twice, and replays to "no stack" although the
    * call registered one. */
  lemma SameStructMisleads(ss: Stack, fd: int)
    requires fd >= 0 && ss.flags != SS_DISABLE
    ensures var call := Call(Some(ss), true, ss, false, false, true, 0);
            var s := FirstCall(Input(call, None, fd, 0, 0, NO_STACK), 4);
            && |s.sh.log| == 1 && s.sh.log[0].rc == 0 && OldOf(s.sh.log[0]) == NO_STACK
            && After(NO_STACK, s.sh.log[0]) == NO_STACK != ThreadOf(s, 0).alt == Stored(ss)
  {
    var call := Call(Some(ss), true, ss, false, false, true, 0);
    var x := Input(call, None, fd, 0, 0, NO_STACK);
    hide Steps, Next, Entered;
    FirstCallRuns(x, 4);
    CallLogged(Steps(Steps(Entered(INITIAL, 0, x), 0, x, 1), 0, x, 8), 0, x);
  }
}
