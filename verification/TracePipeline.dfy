/** From the wrapper's calls, through the log file and the decoder, back to the kernel's state. */
module TracePipeline {
  import opened Options
  import opened Words
  import opened TraceRecord
  import opened Tracer
  import Decoder
  import TracerLoss

  // ------------------------------------------------------------------ C ranges

  /** The fields of a `stack_t` are a pointer, a `size_t` and an `int`. */
  predicate StackFits(k: Stack) {
    InRange(Q, k.sp) && InRange(Q, k.size) && InRange(I, k.flags)
  }

  predicate CallFits(c: Call) {
    (c.ss.Some? ==> StackFits(c.ss.value)) && StackFits(c.oss) && InRange(Q, c.caller)
  }

  predicate InputFits(x: Input) {
    && CallFits(x.call) && StackFits(x.garbage) && InRange(Q, x.now) && InRange(I, x.clobber)
    && (x.fail.Some? ==> InRange(I, x.fail.value))
  }

  /** A run whose thread ids and values all have their C types. */
  predicate StepsFit(steps: seq<(nat, Input)>) {
    forall i | 0 <= i < |steps| :: steps[i].0 < HALF && InputFits(steps[i].1)
  }

  predicate ThreadFits(th: Thread) {
    && CallFits(th.call) && StackFits(th.alt) && StackFits(th.oss) && StackFits(th.local)
    && InRange(I, th.errno) && InRange(I, th.rc) && InRange(I, th.err)
  }

  ghost predicate SystemFits(s: System) {
    Decoder.AllFit(s.sh.log) && forall t <- s.threads :: ThreadFits(s.threads[t])
  }

  lemma RecordFits(t: nat, th: Thread, now: int)
    requires t < HALF && ThreadFits(th) && InRange(Q, now)
    ensures Fits(RecOf(t, th, now))
  {
    var r := RecOf(t, th, now);
    forall i | 0 <= i < 14 ensures InRange(REC_FMT[i], Values(r)[i]) {
      FieldFits(t, th, now, i);
    }
  }

  lemma FieldFits(t: nat, th: Thread, now: int, i: nat)
    requires t < HALF && ThreadFits(th) && InRange(Q, now) && i < 14
    ensures InRange(REC_FMT[i], Values(RecOf(t, th, now))[i])
  {
  }

  lemma IdleStepFits(sh: Shared, t: nat, th: Thread, x: Input)
    requires ThreadFits(th) && InputFits(x) && th.pc.Idle?
    ensures ThreadFits(StepThread(sh, t, th, x))
  {
    OssFits(x.call);
    hide RecOf, Direct, CallThread, CallFits, StackFits, InRange, OssAtEntry, Faulty;
  }

  lemma CallStepFits(sh: Shared, t: nat, th: Thread, x: Input)
    requires ThreadFits(th) && InputFits(x) && th.pc.CallReal?
    ensures ThreadFits(StepThread(sh, t, th, x))
  {
    CallThreadFits(t, th, x.fail);
    hide RecOf, Direct, CallThread, CallFits, StackFits, ThreadFits;
  }

  lemma OtherStepFits(sh: Shared, t: nat, th: Thread, x: Input)
    requires ThreadFits(th) && InputFits(x) && !th.pc.Idle? && !th.pc.CallReal?
    ensures ThreadFits(StepThread(sh, t, th, x))
  {
    hide RecOf, Direct, CallThread, CallFits, StackFits, InRange, OssAtEntry, Faulty;
  }

  lemma ThreadStepFits(sh: Shared, t: nat, th: Thread, x: Input)
    requires ThreadFits(th) && InputFits(x)
    ensures ThreadFits(StepThread(sh, t, th, x))
  {
    hide ThreadFits, InputFits, StepThread;
    if th.pc.Idle? {
      IdleStepFits(sh, t, th, x);
    } else if th.pc.CallReal? {
      CallStepFits(sh, t, th, x);
    } else {
      OtherStepFits(sh, t, th, x);
    }
  }

  lemma OssFits(c: Call)
    requires CallFits(c)
    ensures StackFits(OssAtEntry(c))
  {
  }

  lemma CallThreadFits(t: nat, th: Thread, fail: Option<int>)
    requires ThreadFits(th) && (fail.Some? ==> InRange(I, fail.value))
    ensures ThreadFits(CallThread(t, th, fail))
  {
    hide RecOf, Direct;
  }

  lemma LogStepFits(sh: Shared, t: nat, th: Thread, x: Input)
    requires Decoder.AllFit(sh.log) && t < HALF && ThreadFits(th) && InputFits(x)
    ensures Decoder.AllFit(StepShared(sh, t, th, x).log)
  {
    RecordFits(t, th, x.now);
    hide Fits, RecOf;
  }

  lemma {:induction false} RunFits(s: System, steps: seq<(nat, Input)>)
    requires SystemFits(s) && StepsFit(steps)
    ensures SystemFits(Run(s, steps))
    decreases |steps|
  {
    if steps != [] {
      var t, x := steps[0].0, steps[0].1;
      hide ThreadFits, InputFits, StepThread, StepShared, Decoder.AllFit;
      FreshFits();
      ThreadStepFits(s.sh, t, ThreadOf(s, t), x);
      LogStepFits(s.sh, t, ThreadOf(s, t), x);
      RunFits(Next(s, t, x), steps[1..]);
    }
  }

  lemma FreshFits()
    ensures ThreadFits(FRESH)
  {
  }

  /** Whatever the tracer writes is a record the format can hold. */
  lemma LogFits(steps: seq<(nat, Input)>)
    requires StepsFit(steps)
    ensures Decoder.AllFit(Run(INITIAL, steps).sh.log)
  {
    RunFits(INITIAL, steps);
  }

  // ------------------------------------------------------------------ end to end

  /** What the decoder makes of the log file of a run, torn tail included. */
  function Decoded(steps: seq<(nat, Input)>, tail: seq<byte>): seq<Rec>
    requires StepsFit(steps) && |tail| < REC_SIZE
  {
    LogFits(steps);
    Decoder.DecodeAll(Decoder.LogBytes(Run(INITIAL, steps).sh.log) + tail)
  }

  /** The decoded file shows, of each thread, exactly the finished calls that found the log open. */
  lemma DecodedExact(steps: seq<(nat, Input)>, tail: seq<byte>, t: nat)
    requires StepsFit(steps) && |tail| < REC_SIZE
    ensures var done := Settled(ThreadOf(Run(INITIAL, steps), t));
            var k := TracerLoss.Misses(INITIAL, steps, t);
            k <= |done| && Project(Decoded(steps, tail), t) == done[k..]
  {
    hide Run, Project, Settled, TracerLoss.Misses, Decoder.LogBytes, Decoder.DecodeAll;
    LogFits(steps);
    Decoder.LogRoundTrip(Run(INITIAL, steps).sh.log, tail);
    TracerLoss.LogExact(steps, t);
  }

  /** Decode the log file of any run, torn tail included, in any of its states, and replay one thread's lines from a
    * successful one: that gives the registration after the last of them, which the next successful line reports and
    * the kernel holds between calls, as long as no replayed call had its request overwritten to any effect. */
  lemma DecodedLogMatchesKernel(steps: seq<(nat, Input)>, tail: seq<byte>, t: nat, i: nat, j: nat)
    requires StepsFit(steps) && |tail| < REC_SIZE
    requires var s := Run(INITIAL, steps);
             var mine := Project(Decoded(steps, tail), t);
             && i < j <= |mine| && mine[i].rc == 0
             && forall m: nat | i <= m < j && LoggedCall(s, t, m) ::
                  Harmless(ThreadOf(s, t).made[First(s, t) + m].call, mine[m])
    ensures var s := Run(INITIAL, steps);
            var mine, th, k := Project(Decoded(steps, tail), t), ThreadOf(s, t), First(s, t);
            && mine == Project(s.sh.log, t) && 0 <= k && k + j <= |th.made|
            && Replay(mine[i..j], OldOf(mine[i])) == Reg(th.made, k + j)
            && (j < |mine| && mine[j].rc == 0 ==> OldOf(mine[j]) == Reg(th.made, k + j))
            && (j == |mine| && !Pending(th.pc) ==> th.alt == Reg(th.made, k + j))
  {
    hide Run, Project, Replay, Harmless, LoggedCall, Reg, Decoder.LogBytes, Decoder.DecodeAll;
    LogFits(steps);
    Decoder.LogRoundTrip(Run(INITIAL, steps).sh.log, tail);
    LogMatchesKernel(steps, t, i, j);
  }
}
