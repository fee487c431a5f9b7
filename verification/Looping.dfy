// CreateLoopingMethod: c + 1 loops in sequence that share one counter.
module Looping {
  import opened Int32
  import opened IL
  import opened ILTyping
  import opened ILGenerator

  const ACCUMULATOR: nat := 0
  const COUNTER: nat := 1

  // ----- The emitted code -----

  const PROLOGUE: seq<Instr> := [Ldarg0, Stloc(ACCUMULATOR), LdcI4(0), Stloc(COUNTER)]
  const EPILOGUE: seq<Instr> := [Ldloc(ACCUMULATOR), Ret]

  function Start(depth: nat): nat {
    4 + depth * 19
  }

  function Condition(limit: int, loopEnd: int): seq<Instr> {
    [Ldloc(COUNTER), LdcI4(limit), Clt, Brfalse(loopEnd)]
  }

  function Parity(continueAt: int): seq<Instr> {
    [Ldloc(COUNTER), LdcI4(2), Rem, Brtrue(continueAt)]
  }

  const ACCUMULATE: seq<Instr> :=
    [Ldloc(ACCUMULATOR), Ldloc(COUNTER), LdcI4(3), Mul, Add, Stloc(ACCUMULATOR)]

  function Increment(loopStart: int): seq<Instr> {
    [Ldloc(COUNTER), LdcI4(1), Add, Stloc(COUNTER), Br(loopStart)]
  }

  function LoopCode(loopStart: int, limit: int, continueAt: int, loopEnd: int): (r: seq<Instr>)
    ensures |r| == 19
  {
    Condition(limit, loopEnd) + Parity(continueAt) + ACCUMULATE + Increment(loopStart)
  }

  function Body(depth: nat): (r: seq<Instr>)
    ensures |r| == 19
  {
    LoopCode(Start(depth), 100 + depth * 10, Start(depth) + 14, Start(depth) + 19)
  }

  function Emitted(depth: nat): seq<Instr> {
    PROLOGUE + Repeat(Body, depth)
  }

  lemma EmittedNext(depth: nat)
    ensures |Emitted(depth)| == Start(depth)
    ensures Emitted(depth + 1) == Emitted(depth) + Body(depth)
  {
    RepeatLength(Body, depth, 19);
    hide Body;
    ConcatAssoc(PROLOGUE, Repeat(Body, depth), Body(depth));
  }

  function LoopingProgram(complexity: nat): Program {
    Program(Emitted(complexity + 1) + EPILOGUE, [], 2)
  }

  // The four groups of instructions that EmitLoop appends.
  method EmitCondition(il: Generator, limit: int, loopEnd: nat)
    requires loopEnd < |il.labels|
    modifies il`code
    ensures il.code == old(il.code) + Condition(limit, loopEnd)
  {
    il.Emit(Ldloc(COUNTER));
    il.Emit(LdcI4(limit));
    il.Emit(Clt);
    il.Emit(Brfalse(loopEnd));
  }

  method EmitParity(il: Generator, continueLabel: nat)
    requires continueLabel < |il.labels|
    modifies il`code
    ensures il.code == old(il.code) + Parity(continueLabel)
  {
    il.Emit(Ldloc(COUNTER));
    il.Emit(LdcI4(2));
    il.Emit(Rem);
    il.Emit(Brtrue(continueLabel));
  }

  method EmitAccumulate(il: Generator)
    modifies il`code
    ensures il.code == old(il.code) + ACCUMULATE
  {
    il.Emit(Ldloc(ACCUMULATOR));
    il.Emit(Ldloc(COUNTER));
    il.Emit(LdcI4(3));
    il.Emit(Mul);
    il.Emit(Add);
    il.Emit(Stloc(ACCUMULATOR));
  }

  method EmitIncrement(il: Generator, loopStart: nat)
    requires loopStart < |il.labels|
    modifies il`code
    ensures il.code == old(il.code) + Increment(loopStart)
  {
    il.Emit(Ldloc(COUNTER));
    il.Emit(LdcI4(1));
    il.Emit(Add);
    il.Emit(Stloc(COUNTER));
    il.Emit(Br(loopStart));
  }

  method EmitLoop(il: Generator, depth: nat, ghost target: seq<Instr>)
    requires Baked(il.code, il.labels, target) && |il.code| == Start(depth)
    modifies il`code, il`labels
    ensures Baked(il.code, il.labels, target + Body(depth))
  {
    var loopStart := il.DefineLabel();
    var loopEnd := il.DefineLabel();
    var continueLabel := il.DefineLabel();
    il.MarkLabel(loopStart);
    EmitCondition(il, 100 + depth * 10, loopEnd);
    EmitParity(il, continueLabel);
    EmitAccumulate(il);
    il.MarkLabel(continueLabel);
    EmitIncrement(il, loopStart);
    il.MarkLabel(loopEnd);
    ghost var more := [Start(depth), Start(depth) + 19, Start(depth) + 14];
    assert il.labels == old(il.labels) + more;
    assert il.code == old(il.code) + LoopCode(loopStart, 100 + depth * 10, continueLabel, loopEnd);
    LoopBaked(il.labels, loopStart, depth);
    BakedConcat(old(il.code), old(il.labels), target,
                LoopCode(loopStart, 100 + depth * 10, continueLabel, loopEnd), more, Body(depth));
  }

  // The labels of one loop, marked where EmitLoop marks them, bake to the loop's targets.
  lemma LoopBaked(labels: seq<int>, l: nat, depth: nat)
    requires l + 2 < |labels|
    requires labels[l] == Start(depth) && labels[l + 1] == Start(depth) + 19 && labels[l + 2] == Start(depth) + 14
    ensures Baked(LoopCode(l, 100 + depth * 10, l + 2, l + 1), labels, Body(depth))
  {
    hide Baked, Condition, Parity, ACCUMULATE, Increment;
    var at, limit := Start(depth), 100 + depth * 10;
    GroupsBaked(labels, l, limit);
    BakedAppend(Condition(limit, l + 1), labels, Condition(limit, at + 19), Parity(l + 2), Parity(at + 14));
    BakedAppend(Condition(limit, l + 1) + Parity(l + 2), labels,
                Condition(limit, at + 19) + Parity(at + 14), ACCUMULATE, ACCUMULATE);
    BakedAppend(Condition(limit, l + 1) + Parity(l + 2) + ACCUMULATE, labels,
                Condition(limit, at + 19) + Parity(at + 14) + ACCUMULATE,
                Increment(l), Increment(at));
  }

  lemma GroupsBaked(labels: seq<int>, l: nat, limit: int)
    requires l + 2 < |labels| && labels[l] >= 0 && labels[l + 1] >= 0 && labels[l + 2] >= 0
    ensures Baked(Condition(limit, l + 1), labels, Condition(limit, labels[l + 1]))
    ensures Baked(Parity(l + 2), labels, Parity(labels[l + 2]))
    ensures Baked(ACCUMULATE, labels, ACCUMULATE)
    ensures Baked(Increment(l), labels, Increment(labels[l]))
  {}

  method EmitPrologue(il: Generator, accumulator: nat, counter: nat)
    modifies il`code
    ensures il.code == old(il.code) + [Ldarg0, Stloc(accumulator), LdcI4(0), Stloc(counter)]
  {
    il.Emit(Ldarg0);
    il.Emit(Stloc(accumulator));
    il.Emit(LdcI4(0));
    il.Emit(Stloc(counter));
  }

  method CreateLoopingMethod(complexity: nat) returns (m: Program)
    ensures m == LoopingProgram(complexity)
  {
    var il := new Generator();
    var accumulator := il.DeclareLocal();
    var counter := il.DeclareLocal();
    EmitPrologue(il, accumulator, counter);
    assert il.code == PROLOGUE;
    assert Baked(il.code, il.labels, Emitted(0));
    for depth := 0 to complexity + 1
      invariant Baked(il.code, il.labels, Emitted(depth))
      invariant il.locals == 2 && il.regions == [] && il.open == []
    {
      EmittedNext(depth);
      EmitLoop(il, depth, Emitted(depth));
    }
    ghost var before := il.code;
    il.Emit(Ldloc(accumulator));
    il.Emit(Ret);
    assert il.code == before + EPILOGUE;
    BakedAppend(before, il.labels, Emitted(complexity + 1), EPILOGUE, EPILOGUE);
    hide Baked, AllLinked;
    BakedUnique(il.code, il.labels, LoopingProgram(complexity).code);
    m := il.CreateDelegate();
  }

  // ----- What it computes -----

  // The sum of 3k over the even k below n.
  function EvenSum(n: nat): nat {
    if n == 0 then 0 else EvenSum(n - 1) + (if (n - 1) % 2 == 0 then (n - 1) * 3 else 0)
  }

  lemma {:induction false} EvenSumClosed(m: nat)
    ensures EvenSum(2 * m) == 3 * m * (m - 1)
  {
    if m > 0 {
      EvenSumClosed(m - 1);
      assert EvenSum(2 * m) == EvenSum(2 * m - 2) + (2 * m - 2) * 3;
    }
  }

  // The four groups of one iteration, from counter k and accumulator acc.
  lemma RunCondition(p: Program, arg: int32, at: nat, limit: int32, end: nat, acc: int32, k: int32)
    requires HasBlock(p, at, Condition(limit, end))
    ensures Run(p, arg, Running(at, Nil, [acc, k]), 4) == Running(if k < limit then at + 4 else end, Nil, [acc, k])
  {
    assert ExecBlock(Condition(limit, end), arg, Nil, [acc, k], 3)
        == Frame(Cons(Num(if k < limit then 1 else 0), Nil), [acc, k]);
    RunBranch(p, arg, at, Condition(limit, end), Nil, [acc, k], if k < limit then 1 else 0);
  }

  lemma RunParity(p: Program, arg: int32, at: nat, odd: nat, acc: int32, k: int32)
    requires HasBlock(p, at, Parity(odd)) && k >= 0
    ensures Run(p, arg, Running(at, Nil, [acc, k]), 4) == Running(if k % 2 == 0 then at + 4 else odd, Nil, [acc, k])
  {
    assert ExecBlock(Parity(odd), arg, Nil, [acc, k], 3) == Frame(Cons(Num(k % 2), Nil), [acc, k]);
    RunBranch(p, arg, at, Parity(odd), Nil, [acc, k], k % 2);
  }

  lemma AccumulateValue(arg: int32, acc: int32, k: int32)
    ensures ExecBlock(ACCUMULATE, arg, Nil, [acc, k], 5) == Frame(Cons(Num(Wrap(acc + k * 3)), Nil), [acc, k])
  {
    assert ExecBlock(ACCUMULATE, arg, Nil, [acc, k], 3)
        == Frame(Cons(Num(3), Cons(Num(k), Cons(Num(acc), Nil))), [acc, k]);
    WrapAdd(acc, k * 3);
  }

  lemma AccumulateEffect(arg: int32, acc: int32, k: int32)
    ensures ExecBlock(ACCUMULATE, arg, Nil, [acc, k], 6) == Frame(Nil, [Wrap(acc + k * 3), k])
  {
    hide ExecBlock;
    AccumulateValue(arg, acc, k);
    ExecNext(ACCUMULATE, arg, Nil, [acc, k], 5, Cons(Num(Wrap(acc + k * 3)), Nil), [acc, k]);
  }

  lemma RunAccumulate(p: Program, arg: int32, at: nat, acc: int32, k: int32)
    requires HasBlock(p, at, ACCUMULATE)
    ensures Run(p, arg, Running(at, Nil, [acc, k]), 6) == Running(at + 6, Nil, [Wrap(acc + k * 3), k])
  {
    AccumulateEffect(arg, acc, k);
    hide Exec, ExecBlock, HasBlock;
    RunBlock(p, arg, at, ACCUMULATE, Nil, [acc, k], 6);
  }

  lemma IncrementEffect(arg: int32, start: nat, acc: int32, k: int32)
    requires k < MAX
    ensures ExecBlock(Increment(start), arg, Nil, [acc, k], 4) == Frame(Nil, [acc, k + 1])
  {
    assert ExecBlock(Increment(start), arg, Nil, [acc, k], 3) == Frame(Cons(Num(k + 1), Nil), [acc, k]);
  }

  lemma RunIncrement(p: Program, arg: int32, at: nat, start: nat, acc: int32, k: int32)
    requires HasBlock(p, at, Increment(start)) && k < MAX
    ensures Run(p, arg, Running(at, Nil, [acc, k]), 5) == Running(start, Nil, [acc, k + 1])
  {
    IncrementEffect(arg, start, acc, k);
    hide Exec, ExecBlock;
    RunJump(p, arg, at, Increment(start), Nil, [acc, k]);
  }

  lemma LoopBlocks(p: Program, at: nat, limit: int)
    requires HasBlock(p, at, LoopCode(at, limit, at + 14, at + 19))
    ensures HasBlock(p, at, Condition(limit, at + 19)) && HasBlock(p, at + 4, Parity(at + 14))
    ensures HasBlock(p, at + 8, ACCUMULATE) && HasBlock(p, at + 14, Increment(at))
  {
    SubBlock(p, at, Condition(limit, at + 19) + Parity(at + 14) + ACCUMULATE, Increment(at));
    SubBlock(p, at, Condition(limit, at + 19) + Parity(at + 14), ACCUMULATE);
    SubBlock(p, at, Condition(limit, at + 19), Parity(at + 14));
  }

  // One iteration takes 19 steps when k is even and 13 when it is odd.
  lemma RunIteration(p: Program, arg: int32, at: nat, limit: int32, acc: int32, k: int32)
    requires HasBlock(p, at, LoopCode(at, limit, at + 14, at + 19)) && 0 <= k < limit
    ensures Run(p, arg, Running(at, Nil, [acc, k]), if k % 2 == 0 then 19 else 13)
         == Running(at, Nil, [if k % 2 == 0 then Wrap(acc + k * 3) else acc, k + 1])
  {
    hide Step, Run;
    LoopBlocks(p, at, limit);
    var s := Running(at, Nil, [acc, k]);
    RunCondition(p, arg, at, limit, at + 19, acc, k);
    RunParity(p, arg, at + 4, at + 14, acc, k);
    RunAdd(p, arg, s, 4, 4);
    if k % 2 == 0 {
      RunAccumulate(p, arg, at + 8, acc, k);
      RunIncrement(p, arg, at + 14, at, Wrap(acc + k * 3), k);
      RunAdd(p, arg, s, 8, 6);
      RunAdd(p, arg, s, 14, 5);
    } else {
      RunIncrement(p, arg, at + 14, at, acc, k);
      RunAdd(p, arg, s, 8, 5);
    }
  }

  // Steps of the iterations that take the counter from 0 to k.
  function IterationSteps(k: nat): nat {
    if k == 0 then 0 else IterationSteps(k - 1) + (if (k - 1) % 2 == 0 then 19 else 13)
  }

  // A loop entered with counter k, accumulator Wrap(arg + EvenSum(k)), runs until the counter is its limit.
  lemma {:induction false} RunLoop(p: Program, arg: int32, at: nat, limit: int32, k: int32)
    requires HasBlock(p, at, LoopCode(at, limit, at + 14, at + 19)) && 0 <= k <= limit
    ensures IterationSteps(k) <= IterationSteps(limit)
    ensures Run(p, arg, Running(at, Nil, [Wrap(arg + EvenSum(k)), k]), IterationSteps(limit) - IterationSteps(k) + 4)
         == Running(at + 19, Nil, [Wrap(arg + EvenSum(limit)), limit])
    decreases limit - k
  {
    hide Step, Run;
    var acc := Wrap(arg + EvenSum(k));
    var s := Running(at, Nil, [acc, k]);
    if k == limit {
      LoopBlocks(p, at, limit);
      RunCondition(p, arg, at, limit, at + 19, acc, k);
    } else {
      RunIteration(p, arg, at, limit, acc, k);
      WrapAdd(arg + EvenSum(k), k * 3);
      RunLoop(p, arg, at, limit, k + 1);
      RunAdd(p, arg, s, if k % 2 == 0 then 19 else 13, IterationSteps(limit) - IterationSteps(k + 1) + 4);
    }
  }

  function Limit(loops: nat): nat {
    if loops == 0 then 0 else 100 + (loops - 1) * 10
  }

  // The first `loops` loops share the counter: together they iterate exactly Limit(loops) times.
  lemma {:induction false} RunLoops(p: Program, arg: int32, complexity: nat, loops: nat)
    requires p == LoopingProgram(complexity) && loops <= complexity + 1 && Limit(complexity + 1) <= MAX
    ensures Limit(loops) <= MAX
    ensures Run(p, arg, Initial(p), 4 + IterationSteps(Limit(loops)) + 4 * loops)
         == Running(Start(loops), Nil, [Wrap(arg + EvenSum(Limit(loops))), Limit(loops)])
  {
    hide Step, Run;
    if loops == 0 {
      RunPrologue(complexity, arg);
    } else {
      RunLoops(p, arg, complexity, loops - 1);
      RunNextLoop(p, arg, complexity, loops - 1);
      hide HasBlock, LoopingProgram, EvenSum, IterationSteps, Initial;
      var before, after := IterationSteps(Limit(loops - 1)), IterationSteps(Limit(loops));
      RunAdd(p, arg, Initial(p), 4 + before + 4 * (loops - 1), after - before + 4);
    }
  }

  lemma RunNextLoop(p: Program, arg: int32, complexity: nat, loops: nat)
    requires p == LoopingProgram(complexity) && loops <= complexity && Limit(loops + 1) <= MAX
    ensures IterationSteps(Limit(loops)) <= IterationSteps(Limit(loops + 1))
    ensures Run(p, arg, Running(Start(loops), Nil, [Wrap(arg + EvenSum(Limit(loops))), Limit(loops)]),
                IterationSteps(Limit(loops + 1)) - IterationSteps(Limit(loops)) + 4)
         == Running(Start(loops + 1), Nil, [Wrap(arg + EvenSum(Limit(loops + 1))), Limit(loops + 1)])
  {
    hide Step, Run, HasBlock, LoopingProgram, LoopCode, EvenSum, IterationSteps;
    LoopAt(complexity, loops);
    RunLoop(p, arg, Start(loops), Limit(loops + 1), Limit(loops));
  }

  lemma LoopAt(complexity: nat, depth: nat)
    requires depth <= complexity
    ensures HasBlock(LoopingProgram(complexity), Start(depth),
                     LoopCode(Start(depth), 100 + depth * 10, Start(depth) + 14, Start(depth) + 19))
  {
    CodeBlocks(complexity);
    RepeatBlock(LoopingProgram(complexity), 4, Body, complexity + 1, 19, depth);
  }

  // The code, instruction by instruction.
  lemma LoopingListing(complexity: nat, depth: nat)
    ensures var p := LoopingProgram(complexity);
            && p.locals == 2 && p.regions == [] && |p.code| == 25 + 19 * complexity
            && HasBlock(p, 0, [Ldarg0, Stloc(0), LdcI4(0), Stloc(1)])
            && HasBlock(p, 23 + 19 * complexity, [Ldloc(0), Ret])
    ensures depth <= complexity ==>
              var at := 4 + 19 * depth;
              HasBlock(LoopingProgram(complexity), at,
                       [Ldloc(1), LdcI4(100 + 10 * depth), Clt, Brfalse(at + 19),
                        Ldloc(1), LdcI4(2), Rem, Brtrue(at + 14),
                        Ldloc(0), Ldloc(1), LdcI4(3), Mul, Add, Stloc(0),
                        Ldloc(1), LdcI4(1), Add, Stloc(1), Br(at)])
  {
    CodeBlocks(complexity);
    if depth <= complexity {
      LoopAt(complexity, depth);
      LoopListing(4 + 19 * depth, 100 + 10 * depth);
    }
    hide HasBlock, LoopingProgram, LoopCode, Repeat;
  }

  lemma LoopListing(at: nat, limit: int)
    ensures LoopCode(at, limit, at + 14, at + 19)
         == [Ldloc(1), LdcI4(limit), Clt, Brfalse(at + 19),
             Ldloc(1), LdcI4(2), Rem, Brtrue(at + 14),
             Ldloc(0), Ldloc(1), LdcI4(3), Mul, Add, Stloc(0),
             Ldloc(1), LdcI4(1), Add, Stloc(1), Br(at)]
  {}

  lemma RunPrologue(complexity: nat, arg: int32)
    ensures var p := LoopingProgram(complexity);
            Run(p, arg, Initial(p), 4) == Running(4, Nil, [arg, 0])
  {
    var p := LoopingProgram(complexity);
    CodeBlocks(complexity);
    assert Initial(p).locals == [0, 0];
    PrologueEffect(arg);
    hide LoopingProgram, Step, Exec, ExecBlock, HasBlock;
    RunBlock(p, arg, 0, PROLOGUE, Nil, [0, 0], 4);
  }

  lemma PrologueEffect(arg: int32)
    ensures ExecBlock(PROLOGUE, arg, Nil, [0, 0], 4) == Frame(Nil, [arg, 0])
  {
    assert ExecBlock(PROLOGUE, arg, Nil, [0, 0], 2) == Frame(Nil, [arg, 0]);
  }

  lemma CodeBlocks(complexity: nat)
    ensures var p := LoopingProgram(complexity);
            && HasBlock(p, 0, PROLOGUE) && HasBlock(p, 4, Repeat(Body, complexity + 1))
            && HasBlock(p, Start(complexity + 1), EPILOGUE) && |p.code| == Start(complexity + 1) + 2
            && p.regions == [] && p.locals == 2
  {
    var p := LoopingProgram(complexity);
    EmittedNext(complexity + 1);
    assert HasBlock(p, 0, p.code);
    SubBlock(p, 0, Emitted(complexity + 1), EPILOGUE);
    SubBlock(p, 0, PROLOGUE, Repeat(Body, complexity + 1));
  }

  lemma {:induction false} IterationStepsClosed(m: nat)
    ensures IterationSteps(2 * m) == 32 * m
  {
    if m > 0 {
      IterationStepsClosed(m - 1);
      assert IterationSteps(2 * m) == IterationSteps(2 * m - 1) + 13;
      assert IterationSteps(2 * m - 1) == IterationSteps(2 * m - 2) + 19;
    }
  }

  // The value added to the argument: the even counters below 2m, three times each.
  function Added(complexity: nat): int {
    var m := 50 + 5 * complexity;
    3 * m * (m - 1)
  }

  // Main result. When the last limit fits int32, the method halts after exactly
  // 32m + 4(c + 1) + 6 steps with arg + 3m(m - 1) modulo 2^32, where 2m = 100 + 10c is the number
  // of iterations; just before its two closing instructions the shared counter is 2m.
  lemma LoopingCorrect(complexity: nat, arg: int32)
    requires 100 + 10 * complexity <= MAX
    ensures var p, steps := LoopingProgram(complexity), 4 + 32 * (50 + 5 * complexity) + 4 * (complexity + 1);
            && Run(p, arg, Initial(p), steps + 2) == Returned(Wrap(arg + Added(complexity)))
            && Run(p, arg, Initial(p), steps)
               == Running(Start(complexity + 1), Nil, [Wrap(arg + Added(complexity)), 100 + 10 * complexity])
  {
    hide Step, HasBlock, LoopingProgram, Added, Run;
    var p, m := LoopingProgram(complexity), 50 + 5 * complexity;
    RunLoops(p, arg, complexity, complexity + 1);
    assert EvenSum(2 * m) == Added(complexity) by {
      EvenSumClosed(m);
      AddedIs(complexity);
    }
    IterationStepsClosed(m);
    CodeBlocks(complexity);
    RunReturn(p, arg, Start(complexity + 1), ACCUMULATOR, [Wrap(arg + Added(complexity)), 2 * m]);
    RunAdd(p, arg, Initial(p), 4 + 32 * m + 4 * (complexity + 1), 2);
  }

  lemma AddedIs(complexity: nat)
    ensures Added(complexity) == 3 * (50 + 5 * complexity) * (50 + 5 * complexity - 1)
  {}

  // The looping method's one outcome, in closed form.
  lemma LoopingReturns(complexity: nat, arg: int32) returns (v: int32)
    requires 100 + 10 * complexity <= MAX
    ensures Finishes(LoopingProgram(complexity), arg, Returned(v))
    ensures var m := 50 + 5 * complexity; v == Wrap(arg + 3 * m * (m - 1))
  {
    hide Run, LoopingProgram, Initial;
    LoopingCorrect(complexity, arg);
    AddedIs(complexity);
    v := Wrap(arg + Added(complexity));
  }

  // ----- It is well formed -----

  lemma ConditionPlain(limit: int, end: int)
    ensures |Condition(limit, end)| == 4 && PlainBlock(Condition(limit, end), 2, end)
  {}

  lemma ParityPlain(odd: int)
    ensures |Parity(odd)| == 4 && PlainBlock(Parity(odd), 2, odd)
  {}

  lemma AccumulatePlain(target: int)
    ensures |ACCUMULATE| == 6 && PlainBlock(ACCUMULATE, 2, target)
  {}

  lemma IncrementPlain(start: int)
    ensures |Increment(start)| == 5 && PlainBlock(Increment(start), 2, start)
  {}

  lemma EndsPlain(target: int)
    ensures PlainBlock(PROLOGUE, 2, target) && PlainBlock(EPILOGUE, 2, target)
  {
    ProloguePlain(target);
    hide PROLOGUE;
  }

  lemma ProloguePlain(target: int)
    ensures PlainBlock(PROLOGUE, 2, target)
  {
    assert BlockTyped(PROLOGUE, 2, 4) && InferBlock(PROLOGUE, 2, 4) == Typed(Nil);
  }

  lemma LoopTypes(p: Program, at: nat, limit: int)
    requires p.regions == [] && p.locals == 2 && EmptyAt(p, at)
    requires HasBlock(p, at, LoopCode(at, limit, at + 14, at + 19))
    ensures EmptyAt(p, at + 4) && EmptyAt(p, at + 8) && EmptyAt(p, at + 14) && EmptyAt(p, at + 19)
  {
    hide *;
    LoopBlocks(p, at, limit);
    ConditionPlain(limit, at + 19);
    ParityPlain(at + 14);
    AccumulatePlain(at);
    IncrementPlain(at);
    PlainBlockTypes(p, at, Condition(limit, at + 19), at + 19);
    PlainBlockTypes(p, at + 4, Parity(at + 14), at + 14);
    PlainBlockTypes(p, at + 8, ACCUMULATE, at);
    PlainBlockTypes(p, at + 14, Increment(at), at);
  }

  lemma LoopChecked(p: Program, at: nat, limit: int)
    requires p.regions == [] && p.locals == 2 && EmptyAt(p, at)
    requires HasBlock(p, at, LoopCode(at, limit, at + 14, at + 19)) && at + 19 < |p.code|
    ensures EmptyAt(p, at + 19) && CheckedRange(p, at, at + 19)
  {
    hide *;
    LoopBlocks(p, at, limit);
    LoopTypes(p, at, limit);
    ConditionPlain(limit, at + 19);
    ParityPlain(at + 14);
    AccumulatePlain(at);
    IncrementPlain(at);
    PlainBlockChecked(p, at, Condition(limit, at + 19), at + 19);
    PlainBlockChecked(p, at + 4, Parity(at + 14), at + 14);
    PlainBlockChecked(p, at + 8, ACCUMULATE, at);
    PlainBlockChecked(p, at + 14, Increment(at), at);
    JoinRanges(p, at, at + 4, at + 8);
    JoinRanges(p, at, at + 8, at + 14);
    JoinRanges(p, at, at + 14, at + 19);
  }

  lemma {:induction false} LoopsChecked(complexity: nat, loops: nat)
    requires loops <= complexity + 1
    ensures var p := LoopingProgram(complexity);
            EmptyAt(p, Start(loops)) && CheckedRange(p, 0, Start(loops))
  {
    hide EmptyAt, TypeAt, PlainBlock, Checked, CheckedRange, LoopingProgram, HasBlock, LoopCode;
    var p := LoopingProgram(complexity);
    CodeBlocks(complexity);
    if loops == 0 {
      StartsEmpty(p);
      EndsPlain(0);
      PlainBlockTypes(p, 0, PROLOGUE, 0);
      PlainBlockChecked(p, 0, PROLOGUE, 0);
    } else {
      LoopsChecked(complexity, loops - 1);
      LoopAt(complexity, loops - 1);
      LoopChecked(p, Start(loops - 1), 100 + (loops - 1) * 10);
      JoinRanges(p, 0, Start(loops - 1), Start(loops));
    }
  }

  // For every complexity the emitted method is well formed.
  lemma LoopingVerified(complexity: nat)
    ensures Verified(LoopingProgram(complexity))
  {
    hide EmptyAt, TypeAt, PlainBlock, Checked, CheckedRange, LoopingProgram, HasBlock;
    var p, end := LoopingProgram(complexity), Start(complexity + 1);
    LoopsChecked(complexity, complexity + 1);
    CodeBlocks(complexity);
    EndsPlain(0);
    StartsEmpty(p);
    PlainBlockChecked(p, end, EPILOGUE, 0);
    JoinRanges(p, 0, end, |p.code|);
  }
}
