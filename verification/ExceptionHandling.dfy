// CreateExceptionHandlingMethod: complexity + 1 protected regions in sequence.
module ExceptionHandling {
  import opened Int32
  import opened IL
  import opened ILTyping
  import opened ILGenerator

  const RESULT: nat := 0

  // ----- The emitted code -----

  function Work(level: nat): (r: seq<Instr>)
    ensures |r| == 6
  {
    [Ldarg0, LdcI4(level + 1), Mul, LdcI4(100), Rem, Stloc(RESULT)]
  }

  function Guard(noThrow: int): (r: seq<Instr>)
    ensures |r| == 4
  {
    [Ldloc(RESULT), LdcI4(0), Ceq, Brfalse(noThrow)]
  }

  const RAISING: seq<Instr> := [Newobj(InvalidOperation), Throw]

  // What follows the try part: its leave, then the handler with its own.
  function Catching(end: int): (r: seq<Instr>)
    ensures |r| == 5
  {
    [Leave(end), Pop, LdcI4(-1), Stloc(RESULT), Leave(end)]
  }

  // A level that may throw, and the last one, which does not.
  function ThrowingCode(level: nat, noThrow: int, end: int): (r: seq<Instr>)
    ensures |r| == 17
  {
    Work(level) + Guard(noThrow) + RAISING + Catching(end)
  }

  function LastCode(level: nat, end: int): (r: seq<Instr>)
    ensures |r| == 11
  {
    Work(level) + Catching(end)
  }

  function Level(level: nat): (r: seq<Instr>)
    ensures |r| == 17
  {
    ThrowingCode(level, 17 * level + 12, 17 * level + 17)
  }

  function LevelRegion(level: nat): Region {
    Region(17 * level, 17 * level + 13, 17 * level + 13, 17 * level + 17)
  }

  function LastRegion(level: nat): Region {
    Region(17 * level, 17 * level + 7, 17 * level + 7, 17 * level + 11)
  }

  function LevelRegions(k: nat): (r: seq<Region>)
    ensures |r| == k && forall i :: 0 <= i < k ==> r[i] == LevelRegion(i)
  {
    if k == 0 then [] else LevelRegions(k - 1) + [LevelRegion(k - 1)]
  }

  const EPILOGUE: seq<Instr> := [Ldloc(RESULT), Ret]

  function ExceptionProgram(complexity: nat): Program {
    Program(Repeat(Level, complexity) + (LastCode(complexity, 17 * complexity + 11) + EPILOGUE),
            LevelRegions(complexity) + [LastRegion(complexity)], 1)
  }

  // ----- Emission -----

  method EmitWork(il: Generator, result: nat, level: nat)
    requires result == RESULT
    modifies il`code
    ensures il.code == old(il.code) + Work(level)
  {
    il.Emit(Ldarg0);
    il.Emit(LdcI4(level + 1));
    il.Emit(Mul);
    il.Emit(LdcI4(100));
    il.Emit(Rem);
    il.Emit(Stloc(result));
  }

  method EmitGuard(il: Generator, result: nat) returns (noThrow: nat)
    requires result == RESULT
    modifies il`code, il`labels
    ensures noThrow == |old(il.labels)| && il.labels == old(il.labels) + [|il.code|]
    ensures il.code == old(il.code) + (Guard(noThrow) + RAISING)
  {
    il.Emit(Ldloc(result));
    il.Emit(LdcI4(0));
    il.Emit(Ceq);
    noThrow := il.DefineLabel();
    il.Emit(Brfalse(noThrow));
    il.Emit(Newobj(InvalidOperation));
    il.Emit(Throw);
    il.MarkLabel(noThrow);
  }

  // Catch part: pop the exception and store -1.
  method EmitCatching(il: Generator, result: nat)
    requires result == RESULT && |il.open| == 1
    requires var b := il.open[0];
             b.handlerStart == UNMARKED && b.endLabel < |il.labels| && il.labels[b.endLabel] == UNMARKED
    modifies il`code, il`labels, il`regions, il`open
    ensures il.code == old(il.code) + Catching(old(il.open)[0].endLabel) && il.open == []
    ensures il.labels == old(il.labels)[old(il.open)[0].endLabel := |il.code|]
    ensures var at := |old(il.code)| + 1;
            il.regions == old(il.regions) + [Region(old(il.open)[0].tryStart, at, at, |il.code|)]
  {
    il.BeginCatchBlock();
    il.Emit(Pop);
    il.Emit(LdcI4(-1));
    il.Emit(Stloc(result));
    il.EndExceptionBlock();
  }

  method EmitLevel(il: Generator, result: nat, level: nat, complexity: nat, ghost target: seq<Instr>)
    requires result == RESULT && level <= complexity && il.open == []
    requires Baked(il.code, il.labels, target) && |il.code| == 17 * level
    modifies il`code, il`labels, il`regions, il`open
    ensures il.open == []
    ensures il.regions == old(il.regions) + [if level < complexity then LevelRegion(level) else LastRegion(level)]
    ensures Baked(il.code, il.labels,
                  target + if level < complexity then Level(level) else LastCode(level, 17 * level + 11))
  {
    hide Baked, Work, Guard, Catching;
    ghost var code0, labels0 := il.code, il.labels;
    var tryStart := il.DefineLabel();
    var catchStart := il.DefineLabel();
    var tryEnd := il.DefineLabel();
    il.MarkLabel(tryStart);
    var end := il.BeginExceptionBlock();
    EmitWork(il, result, level);
    if level < complexity {
      var noThrow := EmitGuard(il, result);
      assert il.labels[noThrow] == 17 * level + 12;
      EmitCatching(il, result);
      LevelBaked(il.labels, level, noThrow, end);
      ghost var more := [17 * level, UNMARKED, UNMARKED, 17 * level + 17, 17 * level + 12];
      assert il.labels == labels0 + more;
      assert il.code == code0 + ThrowingCode(level, noThrow, end);
      BakedConcat(code0, labels0, target, ThrowingCode(level, noThrow, end), more, Level(level));
    } else {
      EmitCatching(il, result);
      LastBaked(il.labels, level, end);
      ghost var more := [17 * level, UNMARKED, UNMARKED, 17 * level + 11];
      assert il.labels == labels0 + more;
      assert il.code == code0 + LastCode(level, end);
      BakedConcat(code0, labels0, target, LastCode(level, end), more, LastCode(level, 17 * level + 11));
    }
  }

  lemma LevelBaked(labels: seq<int>, level: nat, noThrow: nat, end: nat)
    requires noThrow < |labels| && labels[noThrow] == 17 * level + 12
    requires end < |labels| && labels[end] == 17 * level + 17
    ensures Baked(ThrowingCode(level, noThrow, end), labels, Level(level))
  {
    var at := 17 * level;
    GroupsBaked(labels, level, noThrow, end);
    hide Baked, Work, Guard, RAISING, Catching;
    BakedAppend(Work(level), labels, Work(level), Guard(noThrow), Guard(at + 12));
    BakedAppend(Work(level) + Guard(noThrow), labels, Work(level) + Guard(at + 12), RAISING, RAISING);
    BakedAppend(Work(level) + Guard(noThrow) + RAISING, labels, Work(level) + Guard(at + 12) + RAISING,
                Catching(end), Catching(at + 17));
  }

  lemma LastBaked(labels: seq<int>, level: nat, end: nat)
    requires end < |labels| && labels[end] >= 0
    ensures Baked(LastCode(level, end), labels, LastCode(level, labels[end]))
  {
    GroupsBaked(labels, level, end, end);
    hide Baked, Work, Catching;
    BakedAppend(Work(level), labels, Work(level), Catching(end), Catching(labels[end]));
  }

  lemma GroupsBaked(labels: seq<int>, level: nat, noThrow: nat, end: nat)
    requires noThrow < |labels| && labels[noThrow] >= 0 && end < |labels| && labels[end] >= 0
    ensures Baked(Work(level), labels, Work(level)) && Baked(RAISING, labels, RAISING)
    ensures Baked(Guard(noThrow), labels, Guard(labels[noThrow]))
    ensures Baked(Catching(end), labels, Catching(labels[end]))
  {}

  // What has been emitted before a level.
  function Emitted(level: nat, complexity: nat): seq<Instr>
    requires level <= complexity + 1
  {
    if level <= complexity then Repeat(Level, level)
    else Repeat(Level, complexity) + LastCode(complexity, 17 * complexity + 11)
  }

  function EmittedRegions(level: nat, complexity: nat): seq<Region>
    requires level <= complexity + 1
  {
    if level <= complexity then LevelRegions(level) else LevelRegions(complexity) + [LastRegion(complexity)]
  }

  lemma EmittedNext(level: nat, complexity: nat)
    requires level <= complexity
    ensures |Emitted(level, complexity)| == 17 * level
    ensures Emitted(level + 1, complexity)
         == Emitted(level, complexity) + if level < complexity then Level(level) else LastCode(level, 17 * level + 11)
    ensures EmittedRegions(level + 1, complexity)
         == EmittedRegions(level, complexity) + [if level < complexity then LevelRegion(level) else LastRegion(level)]
  {
    RepeatLength(Level, level, 17);
  }

  method CreateExceptionHandlingMethod(complexity: nat) returns (m: Program)
    ensures m == ExceptionProgram(complexity)
  {
    hide Baked, AllLinked, LastCode, Level;
    var il := new Generator();
    var endLabel := il.DefineLabel();
    var result := il.DeclareLocal();
    assert Baked(il.code, il.labels, []) by { NothingBaked(il.labels); }
    for level := 0 to complexity + 1
      invariant Baked(il.code, il.labels, Emitted(level, complexity))
      invariant il.regions == EmittedRegions(level, complexity) && il.locals == 1 && il.open == []
    {
      EmittedNext(level, complexity);
      BakedLength(il.code, il.labels, Emitted(level, complexity));
      EmitLevel(il, result, level, complexity, Emitted(level, complexity));
    }
    ghost var before := il.code;
    il.Emit(Ldloc(result));
    il.Emit(Ret);
    assert il.code == before + EPILOGUE;
    ProgramBaked(before, il.labels, complexity);
    BakedUnique(il.code, il.labels, ExceptionProgram(complexity).code);
    m := il.CreateDelegate();
  }

  lemma ProgramBaked(before: seq<Instr>, labels: seq<int>, complexity: nat)
    requires Baked(before, labels, Emitted(complexity + 1, complexity))
    ensures Baked(before + EPILOGUE, labels, ExceptionProgram(complexity).code)
  {
    assert Baked(EPILOGUE, labels, EPILOGUE);
    hide Baked, EPILOGUE, LastCode;
    BakedAppend(before, labels, Emitted(complexity + 1, complexity), EPILOGUE, EPILOGUE);
    ConcatAssoc(Repeat(Level, complexity), LastCode(complexity, 17 * complexity + 11), EPILOGUE);
  }

  // ----- What it computes -----

  // The value a level stores before it may throw.
  function LevelValue(level: nat, arg: int32): int32 {
    TruncRem(Wrap(arg * (level + 1)), 100)
  }

  // The result after a level: -1 if it threw.
  function LevelResult(level: nat, complexity: nat, arg: int32): int32 {
    if level < complexity && LevelValue(level, arg) == 0 then -1 else LevelValue(level, arg)
  }

  function LevelSteps(level: nat, complexity: nat, arg: int32): nat {
    if level == complexity then 7 else if LevelValue(level, arg) == 0 then 16 else 11
  }

  // What the result local holds after that many levels.
  function Held(levels: nat, complexity: nat, arg: int32): int32 {
    if levels == 0 then 0 else LevelResult(levels - 1, complexity, arg)
  }

  function TotalSteps(levels: nat, complexity: nat, arg: int32): nat {
    if levels == 0 then 0 else TotalSteps(levels - 1, complexity, arg) + LevelSteps(levels - 1, complexity, arg)
  }

  lemma WorkValue(arg: int32, level: nat, x: int32)
    ensures ExecBlock(Work(level), arg, Nil, [x], 5) == Frame(Cons(Num(LevelValue(level, arg)), Nil), [x])
  {
    var v := Wrap(arg * (level + 1));
    assert ExecBlock(Work(level), arg, Nil, [x], 3) == Frame(Cons(Num(Wrap(arg * Wrap(level + 1))), Nil), [x]);
    assert Wrap(100) == 100;
    hide Wrap, ExecBlock;
    WrapMul(arg, level + 1);
    ExecNext(Work(level), arg, Nil, [x], 3, Cons(Num(v), Nil), [x]);
    ExecNext(Work(level), arg, Nil, [x], 4, Cons(Num(100), Cons(Num(v), Nil)), [x]);
  }

  lemma RunWork(p: Program, arg: int32, at: nat, level: nat, x: int32)
    requires HasBlock(p, at, Work(level))
    ensures Run(p, arg, Running(at, Nil, [x]), 6) == Running(at + 6, Nil, [LevelValue(level, arg)])
  {
    WorkValue(arg, level, x);
    hide Run, Step, ExecBlock, LevelValue, HasBlock;
    ExecNext(Work(level), arg, Nil, [x], 5, Cons(Num(LevelValue(level, arg)), Nil), [x]);
    RunBlock(p, arg, at, Work(level), Nil, [x], 6);
  }

  lemma GuardValue(arg: int32, noThrow: int, x: int32)
    ensures ExecBlock(Guard(noThrow), arg, Nil, [x], 3) == Frame(Cons(Num(if x == 0 then 1 else 0), Nil), [x])
  {
  }

  lemma RunGuard(p: Program, arg: int32, at: nat, noThrow: nat, x: int32)
    requires HasBlock(p, at, Guard(noThrow))
    ensures Run(p, arg, Running(at, Nil, [x]), 4) == Running(if x == 0 then at + 4 else noThrow, Nil, [x])
  {
    GuardValue(arg, noThrow, x);
    hide Exec, ExecBlock, HasBlock, Run, Step;
    RunBranch(p, arg, at, Guard(noThrow), Nil, [x], if x == 0 then 1 else 0);
  }

  // A throw lands in the handler of the region around it.
  lemma RunRaising(p: Program, arg: int32, at: nat, r: nat, x: int32)
    requires HasBlock(p, at, RAISING) && r < |p.regions| && p.regions[r].handlerStart >= 0
    requires Protecting(p.regions, at + 1) == r
    ensures Run(p, arg, Running(at, Nil, [x]), 2)
         == Running(p.regions[r].handlerStart, Cons(Obj(InvalidOperation), Nil), [x])
  {
    BlockInstr(p, at, RAISING);
    assert p.code[at + 0] == Newobj(InvalidOperation) && p.code[at + 1] == Throw;
    hide HasBlock, Protecting;
    var s := Running(at, Nil, [x]);
    assert Step(p, arg, s) == Running(at + 1, Cons(Obj(InvalidOperation), Nil), [x]);
    RunAdd(p, arg, s, 1, 1);
  }

  const HANDLER: seq<Instr> := [Pop, LdcI4(-1), Stloc(RESULT)]

  lemma RunHandler(p: Program, arg: int32, at: nat, end: nat, x: int32, e: Exn)
    requires HasBlock(p, at, HANDLER + [Leave(end)])
    ensures Run(p, arg, Running(at, Cons(Obj(e), Nil), [x]), 4) == Running(end, Nil, [-1])
  {
    assert ExecBlock(HANDLER + [Leave(end)], arg, Cons(Obj(e), Nil), [x], 3) == Frame(Nil, [-1]);
    hide Exec, ExecBlock, HasBlock;
    RunJump(p, arg, at, HANDLER + [Leave(end)], Cons(Obj(e), Nil), [x]);
  }

  lemma RunLeave(p: Program, arg: int32, at: nat, end: nat, x: int32)
    requires HasBlock(p, at, [Leave(end)])
    ensures Run(p, arg, Running(at, Nil, [x]), 1) == Running(end, Nil, [x])
  {
    RunJump(p, arg, at, [Leave(end)], Nil, [x]);
  }

  lemma CatchingParts(end: int)
    ensures Catching(end) == [Leave(end)] + (HANDLER + [Leave(end)]) && |RAISING| == 2 && |HANDLER| == 3
  {}

  lemma LevelBlocks(p: Program, level: nat)
    requires HasBlock(p, 17 * level, Level(level))
    ensures var at := 17 * level;
            && HasBlock(p, at, Work(level)) && HasBlock(p, at + 6, Guard(at + 12)) && HasBlock(p, at + 10, RAISING)
            && HasBlock(p, at + 12, [Leave(at + 17)]) && HasBlock(p, at + 13, HANDLER + [Leave(at + 17)])
  {
    var at := 17 * level;
    CatchingParts(at + 17);
    hide HasBlock, Work, Guard, RAISING, Catching, HANDLER;
    SubBlock(p, at, Work(level) + Guard(at + 12) + RAISING, Catching(at + 17));
    SubBlock(p, at, Work(level) + Guard(at + 12), RAISING);
    SubBlock(p, at, Work(level), Guard(at + 12));
    SubBlock(p, at + 12, [Leave(at + 17)], HANDLER + [Leave(at + 17)]);
  }

  lemma LastBlocks(p: Program, level: nat)
    requires HasBlock(p, 17 * level, LastCode(level, 17 * level + 11))
    ensures var at := 17 * level;
            && HasBlock(p, at, Work(level))
            && HasBlock(p, at + 6, [Leave(at + 11)]) && HasBlock(p, at + 7, HANDLER + [Leave(at + 11)])
  {
    var at := 17 * level;
    CatchingParts(at + 11);
    hide HasBlock, Work, Catching, HANDLER;
    SubBlock(p, at, Work(level), Catching(at + 11));
    SubBlock(p, at + 6, [Leave(at + 11)], HANDLER + [Leave(at + 11)]);
  }

  // The regions are disjoint, so an instruction of level l's try part is protected by region l.
  lemma ProtectingLevel(complexity: nat, level: nat, pc: nat)
    requires level < complexity && 17 * level <= pc < 17 * level + 13
    ensures var regions := ExceptionProgram(complexity).regions;
            Protecting(regions, pc) == level < |regions| && regions[level].handlerStart == 17 * level + 13
  {
    var regions := ExceptionProgram(complexity).regions;
    assert regions[level] == LevelRegion(level);
    var i := Protecting(regions, pc);
    assert i >= 0;
    assert regions[i] == if i < complexity then LevelRegion(i) else LastRegion(complexity);
  }

  lemma RunTest(p: Program, arg: int32, level: nat, x: int32)
    requires HasBlock(p, 17 * level, Work(level)) && HasBlock(p, 17 * level + 6, Guard(17 * level + 12))
    ensures var v := LevelValue(level, arg);
            Run(p, arg, Running(17 * level, Nil, [x]), 10) == Running(17 * level + if v == 0 then 10 else 12, Nil, [v])
  {
    hide Run, Step, HasBlock, LevelValue;
    RunWork(p, arg, 17 * level, level, x);
    RunGuard(p, arg, 17 * level + 6, 17 * level + 12, LevelValue(level, arg));
    RunAdd(p, arg, Running(17 * level, Nil, [x]), 6, 4);
  }

  // The instructions that throw, and the handler.
  lemma RunThrowAndCatch(p: Program, arg: int32, at: nat, r: nat, x: int32)
    requires HasBlock(p, at + 10, RAISING) && HasBlock(p, at + 13, HANDLER + [Leave(at + 17)])
    requires Protecting(p.regions, at + 11) == r < |p.regions| && p.regions[r].handlerStart == at + 13
    ensures Run(p, arg, Running(at + 10, Nil, [x]), 6) == Running(at + 17, Nil, [-1])
  {
    hide Run, Step, HasBlock, HANDLER, Protecting;
    RunRaising(p, arg, at + 10, r, x);
    RunHandler(p, arg, at + 13, at + 17, x, InvalidOperation);
    RunAdd(p, arg, Running(at + 10, Nil, [x]), 2, 4);
  }

  // A level whose value is 0 throws and is caught; otherwise it leaves normally.
  lemma RunCaught(p: Program, arg: int32, complexity: nat, level: nat, x: int32)
    requires p.regions == ExceptionProgram(complexity).regions && level < complexity
    requires HasBlock(p, 17 * level, Level(level))
    requires LevelValue(level, arg) == 0
    ensures Run(p, arg, Running(17 * level, Nil, [x]), 16) == Running(17 * level + 17, Nil, [-1])
  {
    hide Run, Step, HasBlock, Protecting, ExceptionProgram, LevelRegions, LevelValue, HANDLER, Level;
    LevelBlocks(p, level);
    ProtectingLevel(complexity, level, 17 * level + 11);
    RunTest(p, arg, level, x);
    RunThrowAndCatch(p, arg, 17 * level, level, 0);
    RunAdd(p, arg, Running(17 * level, Nil, [x]), 10, 6);
  }

  lemma RunUncaught(p: Program, arg: int32, level: nat, x: int32)
    requires HasBlock(p, 17 * level, Level(level)) && LevelValue(level, arg) != 0
    ensures Run(p, arg, Running(17 * level, Nil, [x]), 11) == Running(17 * level + 17, Nil, [LevelValue(level, arg)])
  {
    hide Run, Step, HasBlock, LevelValue, HANDLER, Level;
    LevelBlocks(p, level);
    RunTest(p, arg, level, x);
    RunLeave(p, arg, 17 * level + 12, 17 * level + 17, LevelValue(level, arg));
    RunAdd(p, arg, Running(17 * level, Nil, [x]), 10, 1);
  }

  lemma RunThrowingLevel(p: Program, arg: int32, complexity: nat, level: nat, x: int32)
    requires p.regions == ExceptionProgram(complexity).regions && level < complexity
    requires HasBlock(p, 17 * level, Level(level))
    ensures Run(p, arg, Running(17 * level, Nil, [x]), LevelSteps(level, complexity, arg))
         == Running(17 * level + 17, Nil, [LevelResult(level, complexity, arg)])
  {
    hide Run, Step, HasBlock, ExceptionProgram, LevelValue, Level;
    if LevelValue(level, arg) == 0 {
      RunCaught(p, arg, complexity, level, x);
    } else {
      RunUncaught(p, arg, level, x);
    }
  }

  lemma RunLastLevel(p: Program, arg: int32, level: nat, x: int32)
    requires HasBlock(p, 17 * level, LastCode(level, 17 * level + 11))
    ensures Run(p, arg, Running(17 * level, Nil, [x]), 7) == Running(17 * level + 11, Nil, [LevelValue(level, arg)])
  {
    hide Run, Step, HasBlock, LevelValue, LastCode;
    LastBlocks(p, level);
    RunWork(p, arg, 17 * level, level, x);
    RunLeave(p, arg, 17 * level + 6, 17 * level + 11, LevelValue(level, arg));
    RunAdd(p, arg, Running(17 * level, Nil, [x]), 6, 1);
  }

  lemma CodeBlocks(complexity: nat)
    ensures var p := ExceptionProgram(complexity);
            && HasBlock(p, 0, Repeat(Level, complexity))
            && HasBlock(p, 17 * complexity, LastCode(complexity, 17 * complexity + 11))
            && HasBlock(p, 17 * complexity + 11, EPILOGUE) && |p.code| == 17 * complexity + 13 && p.locals == 1
  {
    var p, last := ExceptionProgram(complexity), LastCode(complexity, 17 * complexity + 11);
    RepeatLength(Level, complexity, 17);
    assert HasBlock(p, 0, p.code);
    hide HasBlock, LastCode;
    SubBlock(p, 0, Repeat(Level, complexity), last + EPILOGUE);
    SubBlock(p, 17 * complexity, last, EPILOGUE);
  }

  lemma LevelAt(complexity: nat, level: nat)
    requires level < complexity
    ensures HasBlock(ExceptionProgram(complexity), 17 * level, Level(level))
  {
    CodeBlocks(complexity);
    hide HasBlock, ExceptionProgram;
    RepeatBlock(ExceptionProgram(complexity), 0, Level, complexity, 17, level);
  }

  // The code, instruction by instruction, and the regions.
  lemma ExceptionListing(complexity: nat, level: nat)
    ensures var p, last := ExceptionProgram(complexity), 17 * complexity;
            && p.locals == 1 && |p.regions| == complexity + 1 && |p.code| == last + 13
            && p.regions[complexity] == Region(last, last + 7, last + 7, last + 11)
            && HasBlock(p, last, [Ldarg0, LdcI4(complexity + 1), Mul, LdcI4(100), Rem, Stloc(0), Leave(last + 11),
                                  Pop, LdcI4(-1), Stloc(0), Leave(last + 11)])
            && HasBlock(p, last + 11, [Ldloc(0), Ret])
    ensures level < complexity ==>
              var p, at := ExceptionProgram(complexity), 17 * level;
              && p.regions[level] == Region(at, at + 13, at + 13, at + 17)
              && HasBlock(p, at, [Ldarg0, LdcI4(level + 1), Mul, LdcI4(100), Rem, Stloc(0),
                                  Ldloc(0), LdcI4(0), Ceq, Brfalse(at + 12), Newobj(InvalidOperation), Throw,
                                  Leave(at + 17), Pop, LdcI4(-1), Stloc(0), Leave(at + 17)])
  {
    CodeBlocks(complexity);
    LastListing(complexity, 17 * complexity + 11);
    RegionListing(complexity, level);
    if level < complexity {
      LevelAt(complexity, level);
      LevelListing(level);
    }
    hide HasBlock, ExceptionProgram, Level, LastCode, Repeat;
  }

  lemma RegionListing(complexity: nat, level: nat)
    ensures var p, last := ExceptionProgram(complexity), 17 * complexity;
            |p.regions| == complexity + 1 && p.regions[complexity] == Region(last, last + 7, last + 7, last + 11)
    ensures level < complexity ==>
              ExceptionProgram(complexity).regions[level]
              == Region(17 * level, 17 * level + 13, 17 * level + 13, 17 * level + 17)
  {
    hide Repeat, LastCode, Level;
  }

  lemma LastListing(level: nat, end: int)
    ensures LastCode(level, end)
         == [Ldarg0, LdcI4(level + 1), Mul, LdcI4(100), Rem, Stloc(0), Leave(end),
             Pop, LdcI4(-1), Stloc(0), Leave(end)]
  {}

  lemma LevelListing(level: nat)
    ensures var at := 17 * level;
            Level(level)
            == [Ldarg0, LdcI4(level + 1), Mul, LdcI4(100), Rem, Stloc(0),
                Ldloc(0), LdcI4(0), Ceq, Brfalse(at + 12), Newobj(InvalidOperation), Throw,
                Leave(at + 17), Pop, LdcI4(-1), Stloc(0), Leave(at + 17)]
  {}

  // The first `levels` levels run to the start of the next one, whichever of them throw.
  lemma {:induction false} RunLevels(p: Program, arg: int32, complexity: nat, levels: nat)
    requires p == ExceptionProgram(complexity) && levels <= complexity
    ensures Run(p, arg, Initial(p), TotalSteps(levels, complexity, arg))
         == Running(17 * levels, Nil, [Held(levels, complexity, arg)])
  {
    hide *;
    if levels == 0 {
      NoLevels(p, arg, complexity);
    } else {
      TotalNext(levels, complexity, arg);
      var x := Held(levels - 1, complexity, arg);
      RunLevels(p, arg, complexity, levels - 1);
      LevelAt(complexity, levels - 1);
      RunThrowingLevel(p, arg, complexity, levels - 1, x);
      RunAdd(p, arg, Initial(p), TotalSteps(levels - 1, complexity, arg), LevelSteps(levels - 1, complexity, arg));
    }
  }

  // What each level but the last does: it leaves its remainder, or raises and leaves -1 if that is zero.
  lemma AfterLevel(complexity: nat, arg: int32, levels: nat) returns (n: nat, x: int32)
    requires 1 <= levels <= complexity
    ensures var p := ExceptionProgram(complexity);
            Run(p, arg, Initial(p), n) == Running(17 * (levels - 1), Nil, [x])
    ensures var p, v := ExceptionProgram(complexity), TruncRem(Wrap(arg * levels), 100);
            Run(p, arg, Initial(p), n + if v == 0 then 16 else 11)
            == Running(17 * levels, Nil, [if v == 0 then -1 else v])
  {
    LevelOf(levels - 1, complexity, arg);
    hide *;
    TotalNext(levels, complexity, arg);
    n, x := TotalSteps(levels - 1, complexity, arg), Held(levels - 1, complexity, arg);
    RunLevels(ExceptionProgram(complexity), arg, complexity, levels - 1);
    RunLevels(ExceptionProgram(complexity), arg, complexity, levels);
  }

  lemma LevelOf(level: nat, complexity: nat, arg: int32)
    requires level < complexity
    ensures var v := TruncRem(Wrap(arg * (level + 1)), 100);
            && LevelResult(level, complexity, arg) == (if v == 0 then -1 else v)
            && LevelSteps(level, complexity, arg) == if v == 0 then 16 else 11
  {
    hide Wrap, TruncRem;
  }

  lemma NoLevels(p: Program, arg: int32, complexity: nat)
    requires p == ExceptionProgram(complexity)
    ensures Run(p, arg, Initial(p), TotalSteps(0, complexity, arg)) == Running(0, Nil, [Held(0, complexity, arg)])
  {
    CodeBlocks(complexity);
    assert Initial(p).locals == [0];
  }

  lemma TotalNext(levels: nat, complexity: nat, arg: int32)
    requires levels > 0
    ensures TotalSteps(levels, complexity, arg)
         == TotalSteps(levels - 1, complexity, arg) + LevelSteps(levels - 1, complexity, arg)
    ensures Held(levels, complexity, arg) == LevelResult(levels - 1, complexity, arg)
  {
  }

  lemma LastLevel(complexity: nat, arg: int32)
    ensures TotalSteps(complexity + 1, complexity, arg) == TotalSteps(complexity, complexity, arg) + 7
    ensures HasBlock(ExceptionProgram(complexity), 17 * complexity, LastCode(complexity, 17 * complexity + 11))
  {
    CodeBlocks(complexity);
    hide ExceptionProgram, LastCode, HasBlock, Level;
  }

  lemma RunAllLevels(p: Program, arg: int32, complexity: nat)
    requires p == ExceptionProgram(complexity)
    ensures Run(p, arg, Initial(p), TotalSteps(complexity + 1, complexity, arg))
         == Running(17 * complexity + 11, Nil, [LevelValue(complexity, arg)])
  {
    hide *;
    var n := TotalSteps(complexity, complexity, arg);
    LastLevel(complexity, arg);
    RunLevels(p, arg, complexity, complexity);
    RunLastLevel(p, arg, complexity, Held(complexity, complexity, arg));
    RunAdd(p, arg, Initial(p), n, 7);
  }

  lemma LastValue(complexity: nat, arg: int32)
    ensures LevelValue(complexity, arg) == TruncRem(Wrap(arg * (complexity + 1)), 100)
  {
  }

  // Main result: no exception escapes, and the method returns arg * (c + 1) reduced to int32, rem 100.
  lemma ExceptionCorrect(complexity: nat, arg: int32)
    ensures var p, n := ExceptionProgram(complexity), TotalSteps(complexity + 1, complexity, arg) + 2;
            Run(p, arg, Initial(p), n) == Returned(TruncRem(Wrap(arg * (complexity + 1)), 100))
  {
    hide *;
    LastValue(complexity, arg);
    AllLevelsReturn(complexity, arg);
  }

  lemma AllLevelsReturn(complexity: nat, arg: int32)
    ensures Run(ExceptionProgram(complexity), arg, Initial(ExceptionProgram(complexity)),
                TotalSteps(complexity + 1, complexity, arg) + 2) == Returned(LevelValue(complexity, arg))
  {
    hide *;
    var p, n := ExceptionProgram(complexity), TotalSteps(complexity + 1, complexity, arg);
    RunAllLevels(p, arg, complexity);
    EpilogueReturns(complexity, arg);
    RunAdd(p, arg, Initial(p), n, 2);
  }

  lemma EpilogueReturns(complexity: nat, arg: int32)
    ensures Run(ExceptionProgram(complexity), arg,
                Running(17 * complexity + 11, Nil, [LevelValue(complexity, arg)]), 2)
         == Returned(LevelValue(complexity, arg))
  {
    CodeBlocks(complexity);
    hide Run, Step, HasBlock, ExceptionProgram, LevelValue, LastCode, Level;
    RunReturn(ExceptionProgram(complexity), arg, 17 * complexity + 11, RESULT, [LevelValue(complexity, arg)]);
  }

  // No exception escapes, for any complexity and argument.
  lemma ExceptionReturns(complexity: nat, arg: int32) returns (v: int32)
    ensures Finishes(ExceptionProgram(complexity), arg, Returned(v))
    ensures v == TruncRem(Wrap(arg * (complexity + 1)), 100) && -100 < v < 100
  {
    hide Run, ExceptionProgram, Initial, TotalSteps;
    ExceptionCorrect(complexity, arg);
    v := TruncRem(Wrap(arg * (complexity + 1)), 100);
  }

  // ----- It is well formed -----

  function TryLength(level: nat, complexity: nat): nat {
    if level < complexity then 13 else 7
  }

  // Level l occupies the 17 positions from 17l: its try part, then a handler of four instructions.
  predicate Laid(p: Program, complexity: nat) {
    && |p.regions| == complexity + 1 && p.locals == 1
    && forall l :: 0 <= l <= complexity ==>
         var at, h := 17 * l, 17 * l + TryLength(l, complexity);
         p.regions[l] == Region(at, h, h, h + 4)
  }

  lemma ProgramLaid(complexity: nat)
    ensures Laid(ExceptionProgram(complexity), complexity)
  {}

  lemma HandlerPlaces(p: Program, complexity: nat, level: nat)
    requires Laid(p, complexity) && level <= complexity
    ensures var h := 17 * level + TryLength(level, complexity);
            HandlerAt(p, h) && NoHandlerWithin(p, 17 * level - 1, h) && NoHandlerWithin(p, h, h + 5)
  {
    var h := 17 * level + TryLength(level, complexity);
    assert p.regions[level].handlerStart == h;
  }

  // Ordinary flow inside one try part, and inside one handler.
  lemma FlowWithin(p: Program, complexity: nat, level: nat, a: int, b: int)
    requires Laid(p, complexity) && level <= complexity
    requires var at, h := 17 * level, 17 * level + TryLength(level, complexity);
             (at <= a < h && at <= b < h) || (h <= a < h + 4 && h <= b < h + 4)
    ensures FlowOk(p, a, b)
  {}

  lemma LeaveLevel(p: Program, complexity: nat, level: nat, a: int)
    requires Laid(p, complexity) && level <= complexity
    requires 17 * level <= a < 17 * level + TryLength(level, complexity) + 4
    ensures LeaveOk(p, a, 17 * level + TryLength(level, complexity) + 4)
  {
    assert p.regions[level].tryStart == 17 * level;
  }

  // A block inside a try part that branches only to `target`, inside the same part.
  lemma TryBlockChecked(p: Program, complexity: nat, level: nat, at: nat, block: seq<Instr>, target: nat)
    requires Laid(p, complexity) && level <= complexity
    requires HasBlock(p, at, block) && EmptyAt(p, at) && TryBlock(block, target)
    requires var h := 17 * level + TryLength(level, complexity);
             17 * level <= at && at + |block| < h < |p.code| && 17 * level <= target < h
    ensures EmptyAt(p, at + |block|)
    ensures EmptyAt(p, target) ==> CheckedRange(p, at, at + |block|)
  {
    HandlerPlaces(p, complexity, level);
    BlockTypes(p, at, block, |block|);
    if EmptyAt(p, target) {
      forall pc | at <= pc < at + |block| ensures ExitOk(p, pc) {
        BlockInstr(p, at, block);
        assert p.code[at + (pc - at)] == block[pc - at];
        FlowWithin(p, complexity, level, pc, pc + 1);
        FlowWithin(p, complexity, level, pc, target);
      }
      BlockChecked(p, at, block);
    }
  }

  // The leave that ends a try part.
  lemma TryLeaveChecked(p: Program, complexity: nat, level: nat)
    requires Laid(p, complexity) && level <= complexity
    requires var h := 17 * level + TryLength(level, complexity);
             h + 4 < |p.code| && EmptyAt(p, h - 1) && EmptyAt(p, h + 4) && HasBlock(p, h - 1, [Leave(h + 4)])
    ensures var h := 17 * level + TryLength(level, complexity); CheckedRange(p, h - 1, h)
  {
    var h := 17 * level + TryLength(level, complexity);
    BlockInstr(p, h - 1, [Leave(h + 4)]);
    assert p.code[h - 1 + 0] == Leave(h + 4);
    LeaveLevel(p, complexity, level, h - 1);
  }

  // Blocks a try part is made of.
  predicate TryBlock(block: seq<Instr>, target: int) {
    PlainBlock(block, 1, target) && forall j :: 0 <= j < |block| ==> !block[j].Ret?
  }

  lemma WorkPlain(level: nat, target: int)
    ensures TryBlock(Work(level), target)
  {}

  lemma GuardPlain(noThrow: int)
    ensures TryBlock(Guard(noThrow), noThrow)
  {}

  lemma RaisingPlain(target: int)
    ensures |RAISING| == 2 && TryBlock(RAISING, target)
  {}

  const STORING: seq<Instr> := [LdcI4(-1), Stloc(RESULT)]

  lemma HandlerCode(p: Program, h: nat, end: int)
    requires HasBlock(p, h, HANDLER + [Leave(end)])
    ensures h + 4 <= |p.code| && p.code[h] == Pop && p.code[h + 3] == Leave(end)
    ensures |STORING| == 2 && HasBlock(p, h + 1, STORING)
  {
    var block := HANDLER + [Leave(end)];
    BlockInstr(p, h, block);
    assert p.code[h + 0] == block[0] && p.code[h + 3] == block[3];
    assert block == [Pop] + (STORING + [Leave(end)]);
    hide HasBlock;
    SubBlock(p, h, [Pop], STORING + [Leave(end)]);
    SubBlock(p, h + 1, STORING, [Leave(end)]);
  }

  lemma StoringTyped()
    ensures |STORING| == 2 && BlockTyped(STORING, 1, 2) && InferBlock(STORING, 1, 2) == Typed(Nil)
  {}

  // The stack types through a handler: the exception, then empty from its second instruction on.
  lemma HandlerTypes(p: Program, complexity: nat, level: nat)
    requires Laid(p, complexity) && level <= complexity
    requires var h := 17 * level + TryLength(level, complexity);
             h > 0 && h + 4 < |p.code| && HasBlock(p, h, HANDLER + [Leave(h + 4)])
    ensures var h := 17 * level + TryLength(level, complexity);
            TypeAt(p, h) == Typed(Cons(ObjTy, Nil)) && EmptyAt(p, h + 1) && EmptyAt(p, h + 3) && EmptyAt(p, h + 4)
  {
    var h := 17 * level + TryLength(level, complexity);
    HandlerPlaces(p, complexity, level);
    HandlerCode(p, h, h + 4);
    StoringTyped();
    hide HasBlock, Laid, TryLength, HANDLER, STORING, InferBlock, BlockTyped;
    InferAdd(p, 0, Typed(Nil), h - 1, 1);
    InferAdd(p, 0, Typed(Nil), h, 1);
    BlockTypes(p, h + 1, STORING, 2);
    InferAdd(p, 0, Typed(Nil), h + 3, 1);
  }

  lemma StoringExits(p: Program, complexity: nat, level: nat)
    requires Laid(p, complexity) && level <= complexity
    requires var h := 17 * level + TryLength(level, complexity); h + 4 < |p.code| && HasBlock(p, h + 1, STORING)
    ensures var h := 17 * level + TryLength(level, complexity); ExitOk(p, h + 1) && ExitOk(p, h + 2)
  {
    var h := 17 * level + TryLength(level, complexity);
    FlowWithin(p, complexity, level, h + 1, h + 2);
    FlowWithin(p, complexity, level, h + 2, h + 3);
    StoringAt(p, h + 1);
    hide Laid, FlowOk, HasBlock, STORING;
  }

  lemma StoringAt(p: Program, at: nat)
    requires HasBlock(p, at, STORING)
    ensures at + 2 <= |p.code| && p.code[at] == LdcI4(-1) && p.code[at + 1] == Stloc(RESULT)
  {
    BlockInstr(p, at, STORING);
    assert p.code[at + 0] == STORING[0] && p.code[at + 1] == STORING[1];
  }

  lemma StoringChecked(p: Program, complexity: nat, level: nat)
    requires Laid(p, complexity) && level <= complexity
    requires var h := 17 * level + TryLength(level, complexity);
             h + 4 < |p.code| && HasBlock(p, h + 1, STORING) && EmptyAt(p, h + 1)
    ensures var h := 17 * level + TryLength(level, complexity); CheckedRange(p, h + 1, h + 3)
  {
    var h := 17 * level + TryLength(level, complexity);
    StoringExits(p, complexity, level);
    HandlerPlaces(p, complexity, level);
    StoringTyped();
    hide Laid, TryLength, FlowOk, HasBlock, EmptyAt, BlockTyped, STORING, ExitOk, NoHandlerWithin, HandlerAt;
    BlockChecked(p, h + 1, STORING);
  }

  lemma HandlerChecked(p: Program, complexity: nat, level: nat)
    requires Laid(p, complexity) && level <= complexity
    requires var h := 17 * level + TryLength(level, complexity);
             h > 0 && h + 4 < |p.code| && HasBlock(p, h, HANDLER + [Leave(h + 4)])
    ensures var h := 17 * level + TryLength(level, complexity); CheckedRange(p, h, h + 4) && EmptyAt(p, h + 4)
  {
    var h := 17 * level + TryLength(level, complexity);
    HandlerTypes(p, complexity, level);
    HandlerCode(p, h, h + 4);
    FlowWithin(p, complexity, level, h, h + 1);
    LeaveLevel(p, complexity, level, h + 3);
    StoringChecked(p, complexity, level);
    hide Laid, FlowOk, LeaveOk, HasBlock, HANDLER, TryLength;
    assert Checked(p, h) && Checked(p, h + 3);
  }

  // One whole level.
  lemma ThrowingChecked(p: Program, complexity: nat, level: nat)
    requires Laid(p, complexity) && level < complexity && HasBlock(p, 17 * level, Level(level))
    requires EmptyAt(p, 17 * level) && 17 * level + 17 < |p.code|
    ensures CheckedRange(p, 17 * level, 17 * level + 17) && EmptyAt(p, 17 * level + 17)
  {
    var at := 17 * level;
    hide *;
    LevelBlocks(p, level);
    ThrowingLength(level, complexity);
    WorkPlain(level, at);
    GuardPlain(at + 12);
    RaisingPlain(at);
    TryBlockChecked(p, complexity, level, at, Work(level), at);
    TryBlockChecked(p, complexity, level, at + 6, Guard(at + 12), at + 12);
    TryBlockChecked(p, complexity, level, at + 10, RAISING, at);
    TryBlockChecked(p, complexity, level, at + 6, Guard(at + 12), at + 12);
    HandlerChecked(p, complexity, level);
    TryLeaveChecked(p, complexity, level);
    JoinRanges(p, at, at + 6, at + 10);
    JoinRanges(p, at, at + 10, at + 12);
    JoinRanges(p, at, at + 12, at + 13);
    JoinRanges(p, at, at + 13, at + 17);
  }

  lemma ThrowingLength(level: nat, complexity: nat)
    ensures level < complexity ==> TryLength(level, complexity) == 13
    ensures TryLength(complexity, complexity) == 7
  {}

  lemma LastChecked(p: Program, complexity: nat)
    requires Laid(p, complexity) && HasBlock(p, 17 * complexity, LastCode(complexity, 17 * complexity + 11))
    requires EmptyAt(p, 17 * complexity) && 17 * complexity + 11 < |p.code|
    ensures CheckedRange(p, 17 * complexity, 17 * complexity + 11) && EmptyAt(p, 17 * complexity + 11)
  {
    var at := 17 * complexity;
    hide *;
    LastBlocks(p, complexity);
    ThrowingLength(complexity, complexity);
    WorkPlain(complexity, at);
    TryBlockChecked(p, complexity, complexity, at, Work(complexity), at);
    HandlerChecked(p, complexity, complexity);
    TryLeaveChecked(p, complexity, complexity);
    JoinRanges(p, at, at + 6, at + 7);
    JoinRanges(p, at, at + 7, at + 11);
  }

  lemma {:induction false} LevelsChecked(complexity: nat, levels: nat)
    requires levels <= complexity
    ensures var p := ExceptionProgram(complexity);
            && EmptyAt(p, 17 * levels) && CheckedRange(p, 0, 17 * levels)
            && (forall l :: 0 <= l <= levels ==> EmptyAt(p, 17 * l))
  {
    var p := ExceptionProgram(complexity);
    if levels == 0 {
      StartsEmpty(p);
    } else {
      LevelsChecked(complexity, levels - 1);
      hide EmptyAt, Laid, HasBlock, ExceptionProgram, CheckedRange, Level;
      CodeBlocks(complexity);
      ProgramLaid(complexity);
      LevelAt(complexity, levels - 1);
      ThrowingChecked(p, complexity, levels - 1);
      JoinRanges(p, 0, 17 * (levels - 1), 17 * levels);
    }
  }

  lemma EpilogueChecked(p: Program, complexity: nat)
    requires Laid(p, complexity) && |p.code| == 17 * complexity + 13
    requires HasBlock(p, 17 * complexity + 11, EPILOGUE) && EmptyAt(p, 17 * complexity + 11)
    ensures CheckedRange(p, 17 * complexity + 11, 17 * complexity + 13)
  {
    var at := 17 * complexity + 11;
    BlockInstr(p, at, EPILOGUE);
    assert p.code[at + 0] == Ldloc(RESULT) && p.code[at + 1] == Ret;
    assert !HandlerAt(p, at + 1) && FlowOk(p, at, at + 1) && OutsideRegions(p, at + 1);
    hide Laid, FlowOk, HasBlock, OutsideRegions;
    InferAdd(p, 0, Typed(Nil), at, 1);
  }

  // For every complexity the emitted method is well formed.
  lemma ExceptionVerified(complexity: nat)
    ensures Verified(ExceptionProgram(complexity))
  {
    var p := ExceptionProgram(complexity);
    LevelsChecked(complexity, complexity);
    CodeBlocks(complexity);
    ProgramLaid(complexity);
    RegionsOk(p, complexity);
    hide EmptyAt, Laid, HasBlock, ExceptionProgram, CheckedRange, RegionOk;
    LastChecked(p, complexity);
    EpilogueChecked(p, complexity);
    JoinRanges(p, 0, 17 * complexity, 17 * complexity + 11);
    JoinRanges(p, 0, 17 * complexity + 11, |p.code|);
  }

  lemma RegionsOk(p: Program, complexity: nat)
    requires Laid(p, complexity) && |p.code| == 17 * complexity + 13
    requires forall l :: 0 <= l <= complexity ==> EmptyAt(p, 17 * l)
    ensures forall r :: 0 <= r < |p.regions| ==> RegionOk(p, p.regions[r])
  {
    forall r | 0 <= r < |p.regions| ensures RegionOk(p, p.regions[r]) {
      assert EmptyAt(p, 17 * r);
    }
  }
}
