/** Which calls the tracer records.
  *
  * A thread's log is all of its real calls but the first few; how many are missing is counted here, step by step.
  */
module TracerLoss {
  import opened Options
  import opened TraceRecord
  import opened Tracer

  /** Real calls of thread `t` that are over and done with but not in the log. */
  function Missed(s: System, t: nat): int {
    |Settled(ThreadOf(s, t))| - |Project(s.sh.log, t)|
  }

  /** The step at which a call finds no log to write to. */
  predicate FindsNoLog(s: System, t: nat) {
    ThreadOf(s, t).pc.LoadFd? && s.sh.fd < 0
  }

  function Misses(s: System, steps: seq<(nat, Input)>, t: nat): nat
    decreases |steps|
  {
    if steps == [] then 0
    else
      (if steps[0].0 == t && FindsNoLog(s, t) then 1 else 0) + Misses(Next(s, steps[0].0, steps[0].1), steps[1..], t)
  }

  /** The thread's own step makes a call go missing exactly when it loads a negative descriptor. */
  predicate CountsMisses(sh: Shared, t: nat, th: Thread, x: Input) {
    |Settled(StepThread(sh, t, th, x))| - |Project(StepShared(sh, t, th, x).log, t)|
      == |Settled(th)| - |Project(sh.log, t)| + if th.pc.LoadFd? && sh.fd < 0 then 1 else 0
  }

  lemma QuietMisses(sh: Shared, t: nat, th: Thread, x: Input)
    requires SharedInv(sh) && PcInv(sh, t, th.pc) && LogInv(sh.log, t, th)
    requires !th.pc.CallReal? && (!Pending(th.pc) || th.pc.Crashed?)
    ensures CountsMisses(sh, t, th, x)
  {
    hide Project, RecOf, Suffix, CallThread, Faulty;
  }

  lemma CallMisses(sh: Shared, t: nat, th: Thread, x: Input)
    requires SharedInv(sh) && PcInv(sh, t, th.pc) && LogInv(sh.log, t, th) && th.pc.CallReal?
    ensures CountsMisses(sh, t, th, x)
  {
    CallHist(t, th, x.fail);
    hide Project, RecOf, Suffix, CallThread, Faulty;
    CallThreadPc(t, th, x.fail);
  }

  lemma LoadMisses(sh: Shared, t: nat, th: Thread, x: Input)
    requires SharedInv(sh) && PcInv(sh, t, th.pc) && LogInv(sh.log, t, th) && th.pc.LoadFd?
    ensures CountsMisses(sh, t, th, x)
  {
    hide Project, RecOf, Suffix, CallThread, Faulty;
  }

  lemma WriteMisses(sh: Shared, t: nat, th: Thread, x: Input)
    requires SharedInv(sh) && PcInv(sh, t, th.pc) && LogInv(sh.log, t, th) && th.pc.WriteRec?
    ensures CountsMisses(sh, t, th, x)
  {
    WriteEffect(sh, t, th, x);
    PendingSettled(sh, t, th);
    WriteProjects(sh.log, t, th, x.now);
    hide Project, RecOf, Suffix, Faulty, StepThread, StepShared;
  }

  lemma OwnStepMisses(sh: Shared, t: nat, th: Thread, x: Input)
    requires SharedInv(sh) && PcInv(sh, t, th.pc) && LogInv(sh.log, t, th)
    ensures CountsMisses(sh, t, th, x)
  {
    hide CountsMisses, SharedInv, PcInv, LogInv;
    if th.pc.CallReal? {
      CallMisses(sh, t, th, x);
    } else if th.pc.LoadFd? {
      LoadMisses(sh, t, th, x);
    } else if th.pc.WriteRec? {
      WriteMisses(sh, t, th, x);
    } else {
      QuietMisses(sh, t, th, x);
    }
  }

  /** A call goes missing at exactly one kind of step. */
  lemma StepMisses(s: System, u: nat, x: Input, t: nat)
    requires Inv(s)
    ensures Missed(Next(s, u, x), t) == Missed(s, t) + if u == t && FindsNoLog(s, t) then 1 else 0
  {
    hide ThreadInv, SharedInv, HolderInv, Project, StepShared, StepThread, Settled, PcInv, LogInv, KernelInv, ValidInv,
         AnswerInv, InitInv;
    ThreadHolds(s, u);
    if u == t {
      ThreadParts(s.sh, t, ThreadOf(s, t));
      OwnStepMisses(s.sh, t, ThreadOf(s, t), x);
    } else {
      OtherStep(s, u, x, t);
    }
  }

  lemma {:induction false} RunMisses(s: System, steps: seq<(nat, Input)>, t: nat)
    requires Inv(s)
    ensures Missed(Run(s, steps), t) == Missed(s, t) + Misses(s, steps, t)
    decreases |steps|
  {
    hide Inv, Next, Missed, FindsNoLog;
    if steps != [] {
      StepMisses(s, steps[0].0, steps[0].1, t);
      InvKeeps(s, steps[0].0, steps[0].1);
      RunMisses(Next(s, steps[0].0, steps[0].1), steps[1..], t);
    }
  }

  /** The exact log.  In every state of every run a thread's log is its finished calls without the first `k`, where
    * `k` is the number of its calls that found the descriptor negative when they came to write.  So every call is
    * recorded if and only if none did. */
  lemma LogExact(steps: seq<(nat, Input)>, t: nat)
    ensures var s := Run(INITIAL, steps);
            var done := Settled(ThreadOf(s, t));
            var k := Misses(INITIAL, steps, t);
            && k <= |done| && Project(s.sh.log, t) == done[k..]
            && (Project(s.sh.log, t) == done <==> k == 0)
  {
    hide Run, Misses, Inv, ThreadInv, Project, Settled, LogInv;
    InitialInv();
    RunKeeps(INITIAL, steps);
    RunMisses(INITIAL, steps, t);
    var s := Run(INITIAL, steps);
    ThreadHolds(s, t);
    ThreadParts(s.sh, t, ThreadOf(s, t));
    NothingAtFirst(t);
    LogIsSuffix(s.sh.log, t, ThreadOf(s, t));
  }

  lemma NothingAtFirst(t: nat)
    ensures Missed(INITIAL, t) == 0
  {
  }

  /** What the caller can check: once the log is open, no call goes missing any more. */
  lemma {:induction false} OpenLogMissesNothing(s: System, steps: seq<(nat, Input)>, t: nat)
    requires Inv(s) && s.sh.fd >= 0
    ensures Misses(s, steps, t) == 0 && Run(s, steps).sh.fd == s.sh.fd
    decreases |steps|
  {
    if steps != [] {
      InvKeeps(s, steps[0].0, steps[0].1);
      FdStays(s, steps[0].0, steps[0].1);
      hide Inv, Next;
      OpenLogMissesNothing(Next(s, steps[0].0, steps[0].1), steps[1..], t);
    }
  }

  /** Once initialisation is over the descriptor never changes, open or not. */
  lemma FdStays(s: System, u: nat, x: Input)
    requires Inv(s) && (s.sh.fd >= 0 || s.sh.done)
    ensures Next(s, u, x).sh.fd == s.sh.fd && (s.sh.done ==> Next(s, u, x).sh.done)
  {
    ThreadHolds(s, u);
    ThreadParts(s.sh, u, ThreadOf(s, u));
    hide ThreadInv, Inv, LogInv, RecOf;
  }

  /** From a state in which the log is open, every call finished later is in it, in order, behind what was there. */
  lemma RecordedFromOpen(s: System, steps: seq<(nat, Input)>, t: nat)
    requires Inv(s) && s.sh.fd >= 0
    ensures var s' := Run(s, steps);
            0 <= Missed(s, t) <= |Settled(ThreadOf(s', t))| &&
            Project(s'.sh.log, t) == Settled(ThreadOf(s', t))[Missed(s, t)..]
  {
    hide Run, Misses, Inv, ThreadInv, Project, Settled, LogInv;
    RunKeeps(s, steps);
    RunMisses(s, steps, t);
    OpenLogMissesNothing(s, steps, t);
    var s' := Run(s, steps);
    ThreadHolds(s, t);
    ThreadParts(s.sh, t, ThreadOf(s, t));
    LogIsSuffix(s.sh.log, t, ThreadOf(s, t));
    ThreadHolds(s', t);
    ThreadParts(s'.sh, t, ThreadOf(s', t));
    LogIsSuffix(s'.sh.log, t, ThreadOf(s', t));
  }

  /** And if opening it failed, nothing is ever recorded. */
  lemma {:induction false} FailedOpenRecordsNothing(s: System, steps: seq<(nat, Input)>)
    requires Inv(s) && s.sh.done && s.sh.fd < 0
    ensures Run(s, steps).sh.log == []
    decreases |steps|
  {
    if steps != [] {
      InvKeeps(s, steps[0].0, steps[0].1);
      FdStays(s, steps[0].0, steps[0].1);
      hide Inv, Next;
      FailedOpenRecordsNothing(Next(s, steps[0].0, steps[0].1), steps[1..]);
    }
  }
}
