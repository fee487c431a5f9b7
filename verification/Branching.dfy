// CreateBranchingMethod and CreateBranchingTree: a full binary tree of tests on the result.
module Branching {
  import opened Int32
  import opened Words
  import opened IL
  import opened ILTyping
  import opened ILGenerator

  const RESULT: nat := 0

  // ----- The emitted code -----

  function Test(mask: int, left: int): seq<Instr> {
    [Ldloc(RESULT), LdcI4(mask), BitAnd, Brfalse(left)]
  }

  function Right(depth: nat): seq<Instr> {
    [Ldloc(RESULT), LdcI4(depth * 7), Mul, LdcI4(13), Add, Stloc(RESULT)]
  }

  function Left(depth: nat): seq<Instr> {
    [Ldloc(RESULT), LdcI4(depth), Add, Stloc(RESULT)]
  }

  // Number of instructions of a tree.
  function Width(depth: nat): nat {
    if depth == 0 then 0 else 15 + 2 * Width(depth - 1)
  }

  function Head(depth: nat, value: int, left: int): (r: seq<Instr>)
    ensures |r| == 10
  {
    Test(value + depth, left) + Right(depth)
  }

  function Middle(depth: nat, end: int): (r: seq<Instr>)
    ensures |r| == 5
  {
    [Br(end)] + Left(depth)
  }

  // The code of a tree placed at position `at`.
  function TreeCode(at: nat, depth: nat, value: int): (r: seq<Instr>)
    ensures |r| == Width(depth)
    decreases depth
  {
    if depth == 0 then []
    else
      var w := Width(depth - 1);
      Head(depth, value, at + 11 + w) + TreeCode(at + 10, depth - 1, value + 1)
      + (Middle(depth, at + Width(depth)) + TreeCode(at + 15 + w, depth - 1, value + 2))
  }

  const PROLOGUE: seq<Instr> := [Ldarg0, Stloc(RESULT)]
  const EPILOGUE: seq<Instr> := [Ldloc(RESULT), Ret]

  function BranchingProgram(complexity: nat): Program {
    Program(PROLOGUE + (TreeCode(2, complexity + 1, 0) + EPILOGUE), [], 2)
  }

  lemma {:induction false} WidthClosed(depth: nat)
    ensures Width(depth) == 15 * (Pow2(depth) - 1)
  {
    if depth > 0 {
      WidthClosed(depth - 1);
    }
  }

  // ----- Emission -----

  method EmitTest(il: Generator, result: nat, mask: int, left: nat)
    requires left < |il.labels| && result == RESULT
    modifies il`code
    ensures il.code == old(il.code) + Test(mask, left)
  {
    il.Emit(Ldloc(result));
    il.Emit(LdcI4(mask));
    il.Emit(BitAnd);
    il.Emit(Brfalse(left));
  }

  method EmitRight(il: Generator, result: nat, depth: nat)
    requires result == RESULT
    modifies il`code
    ensures il.code == old(il.code) + Right(depth)
  {
    il.Emit(Ldloc(result));
    il.Emit(LdcI4(depth * 7));
    il.Emit(Mul);
    il.Emit(LdcI4(13));
    il.Emit(Add);
    il.Emit(Stloc(result));
  }

  method EmitLeft(il: Generator, result: nat, depth: nat)
    requires result == RESULT
    modifies il`code
    ensures il.code == old(il.code) + Left(depth)
  {
    il.Emit(Ldloc(result));
    il.Emit(LdcI4(depth));
    il.Emit(Add);
    il.Emit(Stloc(result));
  }

  // Test of the result, then the right branch's update.
  method EmitHead(il: Generator, result: nat, depth: nat, value: int, left: nat)
    requires left < |il.labels| && result == RESULT
    modifies il`code
    ensures il.code == old(il.code) + Head(depth, value, left)
  {
    EmitTest(il, result, value + depth, left);
    EmitRight(il, result, depth);
  }

  // Jump over the left branch, mark it, then its update.
  method EmitMiddle(il: Generator, result: nat, depth: nat, left: nat, end: nat)
    requires left < |il.labels| && end < |il.labels| && il.labels[left] == UNMARKED && result == RESULT
    modifies il`code, il`labels
    ensures il.code == old(il.code) + Middle(depth, end)
    ensures il.labels == old(il.labels)[left := |old(il.code)| + 1]
  {
    il.Emit(Br(end));
    il.MarkLabel(left);
    EmitLeft(il, result, depth);
  }

  // Appends a segment that refers only to the labels it defines itself and bakes to TreeCode.
  method CreateBranchingTree(il: Generator, result: nat, temp: nat, depth: nat, value: int)
    returns (ghost segment: seq<Instr>)
    requires result == RESULT
    modifies il`code, il`labels
    ensures il.code == old(il.code) + segment && old(il.labels) <= il.labels
    ensures |segment| == Width(depth) && RefersFrom(segment, |old(il.labels)|)
    ensures Baked(segment, il.labels, TreeCode(|old(il.code)|, depth, value))
    decreases depth, 1
  {
    hide *;
    segment := [];
    if depth <= 0 {
      LeafBaked(il.labels, |il.code|, value);
      LeafWidth();
      return;
    }
    NodeParts(|il.code|, depth, value);
    var leftBranch := il.DefineLabel();
    var rightBranch := il.DefineLabel();
    var endBranch := il.DefineLabel();
    ghost var right := EmitRightBranch(il, result, temp, depth, value, leftBranch);
    ghost var labels1 := il.labels;
    ghost var left := EmitLeftBranch(il, result, temp, depth, value, leftBranch, endBranch);
    RefersWeaken(left, |labels1|, leftBranch + 3);
    segment := Head(depth, value, leftBranch) + right + (Middle(depth, endBranch) + left);
    ConcatAssoc(old(il.code), Head(depth, value, leftBranch) + right, Middle(depth, endBranch) + left);
    PrefixKept(old(il.labels), labels1, il.labels,
               |old(il.code)| + 11 + Width(depth - 1), |old(il.code)| + Width(depth));
    Relinked(|old(il.code)|, depth, value, leftBranch, right, left, labels1, il.labels);
  }

  lemma LeafBaked(labels: seq<int>, at: nat, value: int)
    ensures Baked([], labels, TreeCode(at, 0, value)) && RefersFrom([], |labels|)
  {}

  lemma PrefixKept(labels0: seq<int>, labels1: seq<int>, labels: seq<int>, left: int, end: int)
    requires labels0 + [UNMARKED] + [UNMARKED] + [UNMARKED] <= labels1
    requires labels1[|labels0| := left][|labels0| + 2 := end] <= labels
    ensures labels0 <= labels
  {}

  // Head of a node and the subtree that runs when the test is not zero.
  method EmitRightBranch(il: Generator, result: nat, temp: nat, depth: nat, value: int, leftBranch: nat)
    returns (ghost right: seq<Instr>)
    requires result == RESULT && depth > 0 && leftBranch < |il.labels|
    modifies il`code, il`labels
    ensures il.code == old(il.code) + (Head(depth, value, leftBranch) + right) && old(il.labels) <= il.labels
    ensures |right| == Width(depth - 1) && RefersFrom(right, |old(il.labels)|)
    ensures Baked(right, il.labels, TreeCode(|old(il.code)| + 10, depth - 1, value + 1))
    decreases depth, 0
  {
    hide Baked, RefersFrom, AgreeFrom, TreeCode, Head, Middle, Width;
    EmitHead(il, result, depth, value, leftBranch);
    right := CreateBranchingTree(il, result, temp, depth - 1, value + 1);
  }

  // The jump over the left branch, the left branch, and the end of the node.
  method EmitLeftBranch(il: Generator, result: nat, temp: nat, depth: nat, value: int, leftBranch: nat, endBranch: nat)
    returns (ghost left: seq<Instr>)
    requires result == RESULT && depth > 0
    requires leftBranch < endBranch < |il.labels| && il.labels[leftBranch] == il.labels[endBranch] == UNMARKED
    modifies il`code, il`labels
    ensures il.code == old(il.code) + (Middle(depth, endBranch) + left)
    ensures old(il.labels)[leftBranch := |old(il.code)| + 1][endBranch := |il.code|] <= il.labels
    ensures |left| == Width(depth - 1) && RefersFrom(left, |old(il.labels)|)
    ensures Baked(left, il.labels, TreeCode(|old(il.code)| + 5, depth - 1, value + 2))
    decreases depth, 0
  {
    hide *;
    EmitMiddle(il, result, depth, leftBranch, endBranch);
    left := CreateBranchingTree(il, result, temp, depth - 1, value + 2);
    ghost var labels2 := il.labels;
    EndMarked(old(il.labels), leftBranch, endBranch, |old(il.code)| + 1, labels2, |il.code|);
    il.MarkLabel(endBranch);
    BakedRelabel(left, labels2, il.labels, TreeCode(|old(il.code)| + 5, depth - 1, value + 2), |old(il.labels)|);
    ConcatAssoc(old(il.code), Middle(depth, endBranch), left);
  }

  lemma EndMarked(labels0: seq<int>, left: nat, end: nat, middle: int, labels2: seq<int>, position: int)
    requires left < end < |labels0| && labels0[end] == UNMARKED && labels0[left := middle] <= labels2
    ensures labels2[end] == UNMARKED && labels0[left := middle][end := position] <= labels2[end := position]
    ensures AgreeFrom(labels2, labels2[end := position], |labels0|)
  {}

  // The right subtree was baked before the node's own labels were marked; that changes nothing in it.
  lemma Relinked(at: nat, depth: nat, value: int, l: nat, right: seq<Instr>, left: seq<Instr>,
                 labels1: seq<int>, labels: seq<int>)
    requires depth > 0 && l + 2 < |labels1|
    requires labels1[l := at + 11 + Width(depth - 1)][l + 2 := at + Width(depth)] <= labels
    requires Baked(right, labels1, TreeCode(at + 10, depth - 1, value + 1)) && RefersFrom(right, l + 3)
    requires Baked(left, labels, TreeCode(at + 15 + Width(depth - 1), depth - 1, value + 2)) && RefersFrom(left, l + 3)
    ensures var segment := Head(depth, value, l) + right + (Middle(depth, l + 2) + left);
            RefersFrom(segment, l) && Baked(segment, labels, TreeCode(at, depth, value))
  {
    assert AgreeFrom(labels1, labels, l + 3);
    assert labels[l] == at + 11 + Width(depth - 1) && labels[l + 2] == at + Width(depth);
    hide Baked, RefersFrom, AgreeFrom, TreeCode, Head, Middle, Width;
    BakedRelabel(right, labels1, labels, TreeCode(at + 10, depth - 1, value + 1), l + 3);
    RefersWeaken(right, l + 3, l);
    RefersWeaken(left, l + 3, l);
    TreeBaked(labels, at, depth, value, l, right, left);
  }

  lemma TreeBaked(labels: seq<int>, at: nat, depth: nat, value: int, l: nat, right: seq<Instr>, left: seq<Instr>)
    requires depth > 0 && l + 2 < |labels|
    requires labels[l] == at + 11 + Width(depth - 1) && labels[l + 2] == at + Width(depth)
    requires Baked(right, labels, TreeCode(at + 10, depth - 1, value + 1)) && RefersFrom(right, l)
    requires Baked(left, labels, TreeCode(at + 15 + Width(depth - 1), depth - 1, value + 2)) && RefersFrom(left, l)
    ensures var segment := Head(depth, value, l) + right + (Middle(depth, l + 2) + left);
            Baked(segment, labels, TreeCode(at, depth, value)) && RefersFrom(segment, l)
  {
    hide Baked, RefersFrom, Head, Middle;
    var w := Width(depth - 1);
    var head, middle := Head(depth, value, l), Middle(depth, l + 2);
    var head', middle' := Head(depth, value, labels[l]), Middle(depth, labels[l + 2]);
    var right', left' := TreeCode(at + 10, depth - 1, value + 1), TreeCode(at + 15 + w, depth - 1, value + 2);
    HeadBaked(labels, depth, value, l);
    MiddleBaked(labels, depth, l);
    BakedAppend(head, labels, head', right, right');
    BakedAppend(middle, labels, middle', left, left');
    BakedAppend(head + right, labels, head' + right', middle + left, middle' + left');
    RefersConcat(head, right, l);
    RefersConcat(middle, left, l);
    RefersConcat(head + right, middle + left, l);
  }

  lemma HeadBaked(labels: seq<int>, depth: nat, value: int, l: nat)
    requires l < |labels| && labels[l] >= 0
    ensures Baked(Head(depth, value, l), labels, Head(depth, value, labels[l])) && RefersFrom(Head(depth, value, l), l)
  {
    assert Baked(Test(value + depth, l), labels, Test(value + depth, labels[l]));
    assert RefersFrom(Test(value + depth, l), l);
    assert Baked(Right(depth), labels, Right(depth)) && RefersFrom(Right(depth), l);
    hide Baked, RefersFrom, Test, Right;
    BakedAppend(Test(value + depth, l), labels, Test(value + depth, labels[l]), Right(depth), Right(depth));
    RefersConcat(Test(value + depth, l), Right(depth), l);
  }

  lemma MiddleBaked(labels: seq<int>, depth: nat, l: nat)
    requires l + 2 < |labels| && labels[l + 2] >= 0
    ensures Baked(Middle(depth, l + 2), labels, Middle(depth, labels[l + 2])) && RefersFrom(Middle(depth, l + 2), l)
  {}

  method CreateBranchingMethod(complexity: nat) returns (m: Program)
    ensures m == BranchingProgram(complexity)
  {
    hide TreeCode, Baked, AllLinked, Width;
    var il := new Generator();
    var result := il.DeclareLocal();
    var temp := il.DeclareLocal();
    il.Emit(Ldarg0);
    il.Emit(Stloc(result));
    ghost var segment := CreateBranchingTree(il, result, temp, complexity + 1, 0);
    il.Emit(Ldloc(result));
    il.Emit(Ret);
    ProgramBaked(segment, il.labels, complexity);
    assert il.code == PROLOGUE + (segment + EPILOGUE);
    BakedUnique(il.code, il.labels, BranchingProgram(complexity).code);
    m := il.CreateDelegate();
  }

  lemma ProgramBaked(segment: seq<Instr>, labels: seq<int>, complexity: nat)
    requires Baked(segment, labels, TreeCode(2, complexity + 1, 0))
    ensures Baked(PROLOGUE + (segment + EPILOGUE), labels, BranchingProgram(complexity).code)
  {
    assert Baked(PROLOGUE, labels, PROLOGUE) && Baked(EPILOGUE, labels, EPILOGUE);
    hide Baked, TreeCode, PROLOGUE, EPILOGUE;
    BakedAppend(segment, labels, TreeCode(2, complexity + 1, 0), EPILOGUE, EPILOGUE);
    BakedAppend(PROLOGUE, labels, PROLOGUE, segment + EPILOGUE, TreeCode(2, complexity + 1, 0) + EPILOGUE);
  }

  // ----- What it computes -----

  // One level of the tree: which way the test goes and the new result.
  predicate GoesLeft(depth: nat, value: int, r: int32) {
    And(r, Wrap(value + depth)) == 0
  }

  function LeftUpdate(depth: nat, r: int32): int32 {
    Wrap(r + depth)
  }

  function RightUpdate(depth: nat, r: int32): int32 {
    Wrap(r * (depth * 7) + 13)
  }

  function TreeValue(depth: nat, value: int, r: int32): int32
    decreases depth
  {
    if depth == 0 then r
    else if GoesLeft(depth, value, r) then TreeValue(depth - 1, value + 2, LeftUpdate(depth, r))
    else TreeValue(depth - 1, value + 1, RightUpdate(depth, r))
  }

  // Instructions executed on the way through a tree.
  function TreeSteps(depth: nat, value: int, r: int32): (n: nat)
    ensures 8 * depth <= n <= 11 * depth
    decreases depth
  {
    if depth == 0 then 0
    else if GoesLeft(depth, value, r) then 8 + TreeSteps(depth - 1, value + 2, LeftUpdate(depth, r))
    else 11 + TreeSteps(depth - 1, value + 1, RightUpdate(depth, r))
  }

  lemma RunTest(p: Program, arg: int32, at: nat, mask: int, left: nat, r: int32, t: int32)
    requires HasBlock(p, at, Test(mask, left))
    ensures Run(p, arg, Running(at, Nil, [r, t]), 4)
         == Running(if And(r, Wrap(mask)) == 0 then left else at + 4, Nil, [r, t])
  {
    assert ExecBlock(Test(mask, left), arg, Nil, [r, t], 3) == Frame(Cons(Num(And(r, Wrap(mask))), Nil), [r, t]);
    hide Exec, ExecBlock, And;
    RunBranch(p, arg, at, Test(mask, left), Nil, [r, t], And(r, Wrap(mask)));
  }

  lemma RightValue(arg: int32, depth: nat, r: int32, t: int32)
    ensures ExecBlock(Right(depth), arg, Nil, [r, t], 5) == Frame(Cons(Num(RightUpdate(depth, r)), Nil), [r, t])
  {
    assert ExecBlock(Right(depth), arg, Nil, [r, t], 2) == Frame(Cons(Num(Wrap(depth * 7)), Cons(Num(r), Nil)), [r, t]);
    var m := Wrap(depth * 7);
    assert ExecBlock(Right(depth), arg, Nil, [r, t], 5) == Frame(Cons(Num(Wrap(Wrap(r * m) + Wrap(13))), Nil), [r, t]);
    hide ExecBlock, Exec, Wrap;
    WrapMul(r, depth * 7);
    WrapAdd(Wrap(r * m), 13);
    WrapAdd(r * (depth * 7), 13);
  }

  lemma RunRight(p: Program, arg: int32, at: nat, depth: nat, r: int32, t: int32)
    requires HasBlock(p, at, Right(depth))
    ensures Run(p, arg, Running(at, Nil, [r, t]), 6) == Running(at + 6, Nil, [RightUpdate(depth, r), t])
  {
    hide Run, Step, RightUpdate, LeftUpdate, ExecBlock;
    RightValue(arg, depth, r, t);
    ExecNext(Right(depth), arg, Nil, [r, t], 5, Cons(Num(RightUpdate(depth, r)), Nil), [r, t]);
    RunBlock(p, arg, at, Right(depth), Nil, [r, t], 6);
  }

  lemma LeftValue(arg: int32, depth: nat, r: int32, t: int32)
    ensures ExecBlock(Left(depth), arg, Nil, [r, t], 3) == Frame(Cons(Num(LeftUpdate(depth, r)), Nil), [r, t])
  {
    WrapAdd(r, depth);
  }

  lemma RunLeft(p: Program, arg: int32, at: nat, depth: nat, r: int32, t: int32)
    requires HasBlock(p, at, Left(depth))
    ensures Run(p, arg, Running(at, Nil, [r, t]), 4) == Running(at + 4, Nil, [LeftUpdate(depth, r), t])
  {
    hide Run, Step, RightUpdate, LeftUpdate, ExecBlock;
    LeftValue(arg, depth, r, t);
    ExecNext(Left(depth), arg, Nil, [r, t], 3, Cons(Num(LeftUpdate(depth, r)), Nil), [r, t]);
    RunBlock(p, arg, at, Left(depth), Nil, [r, t], 4);
  }

  lemma RunBr(p: Program, arg: int32, at: nat, target: nat, locals: seq<int32>)
    requires HasBlock(p, at, [Br(target)])
    ensures Run(p, arg, Running(at, Nil, locals), 1) == Running(target, Nil, locals)
  {
    RunJump(p, arg, at, [Br(target)], Nil, locals);
  }

  // Where the parts of a node lie.
  lemma NodeBlocks(p: Program, at: nat, depth: nat, value: int)
    requires depth > 0 && HasBlock(p, at, TreeCode(at, depth, value))
    ensures var w := Width(depth - 1);
            && Width(depth) == 15 + 2 * w
            && HasBlock(p, at, Test(value + depth, at + 11 + w)) && HasBlock(p, at + 4, Right(depth))
            && HasBlock(p, at + 10, TreeCode(at + 10, depth - 1, value + 1))
            && HasBlock(p, at + 10 + w, [Br(at + Width(depth))]) && HasBlock(p, at + 11 + w, Left(depth))
            && HasBlock(p, at + 15 + w, TreeCode(at + 15 + w, depth - 1, value + 2))
  {
    hide HasBlock, TreeCode, Test, Right, Left, Head, Middle, Width;
    var w := Width(depth - 1);
    var head, right := Head(depth, value, at + 11 + w), TreeCode(at + 10, depth - 1, value + 1);
    var middle, left := Middle(depth, at + Width(depth)), TreeCode(at + 15 + w, depth - 1, value + 2);
    NodeParts(at, depth, value);
    SubBlock(p, at, head + right, middle + left);
    SubBlock(p, at, head, right);
    SubBlock(p, at + 10 + w, middle, left);
    SubBlock(p, at, Test(value + depth, at + 11 + w), Right(depth));
    SubBlock(p, at + 10 + w, [Br(at + Width(depth))], Left(depth));
  }

  lemma NodeParts(at: nat, depth: nat, value: int)
    requires depth > 0
    ensures var w := Width(depth - 1);
            && Width(depth) == 15 + 2 * w
            && TreeCode(at, depth, value)
               == Head(depth, value, at + 11 + w) + TreeCode(at + 10, depth - 1, value + 1)
                  + (Middle(depth, at + Width(depth)) + TreeCode(at + 15 + w, depth - 1, value + 2))
            && Head(depth, value, at + 11 + w) == Test(value + depth, at + 11 + w) + Right(depth)
            && Middle(depth, at + Width(depth)) == [Br(at + Width(depth))] + Left(depth)
            && |Test(value + depth, at + 11 + w)| == 4
  {}

  // The left way through a node, given the run of its left subtree; then the right way.
  lemma RunLeftWay(p: Program, arg: int32, at: nat, depth: nat, value: int, r: int32, t: int32, n: nat, v: int32)
    requires depth > 0 && HasBlock(p, at, TreeCode(at, depth, value)) && GoesLeft(depth, value, r)
    requires var start := at + 15 + Width(depth - 1);
             Run(p, arg, Running(start, Nil, [LeftUpdate(depth, r), t]), n)
               == Running(start + Width(depth - 1), Nil, [v, t])
    ensures Run(p, arg, Running(at, Nil, [r, t]), 8 + n) == Running(at + Width(depth), Nil, [v, t])
  {
    hide Run, Step, HasBlock, TreeCode, LeftUpdate;
    var s, w := Running(at, Nil, [r, t]), Width(depth - 1);
    NodeBlocks(p, at, depth, value);
    RunTest(p, arg, at, value + depth, at + 11 + w, r, t);
    RunLeft(p, arg, at + 11 + w, depth, r, t);
    RunAdd(p, arg, s, 4, 4);
    RunAdd(p, arg, s, 8, n);
  }

  lemma RunRightWay(p: Program, arg: int32, at: nat, depth: nat, value: int, r: int32, t: int32, n: nat, v: int32)
    requires depth > 0 && HasBlock(p, at, TreeCode(at, depth, value)) && !GoesLeft(depth, value, r)
    requires Run(p, arg, Running(at + 10, Nil, [RightUpdate(depth, r), t]), n)
          == Running(at + 10 + Width(depth - 1), Nil, [v, t])
    ensures Run(p, arg, Running(at, Nil, [r, t]), 11 + n) == Running(at + Width(depth), Nil, [v, t])
  {
    hide Run, Step, HasBlock, TreeCode, RightUpdate;
    var s, w := Running(at, Nil, [r, t]), Width(depth - 1);
    NodeBlocks(p, at, depth, value);
    RunTest(p, arg, at, value + depth, at + 11 + w, r, t);
    RunRight(p, arg, at + 4, depth, r, t);
    RunAdd(p, arg, s, 4, 6);
    RunAdd(p, arg, s, 10, n);
    RunBr(p, arg, at + 10 + w, at + Width(depth), [v, t]);
    RunAdd(p, arg, s, 10 + n, 1);
  }

  lemma TreeUnfold(depth: nat, value: int, r: int32)
    ensures depth == 0 ==> TreeSteps(depth, value, r) == 0 && TreeValue(depth, value, r) == r
    ensures depth > 0 && GoesLeft(depth, value, r) ==>
              && TreeSteps(depth, value, r) == 8 + TreeSteps(depth - 1, value + 2, LeftUpdate(depth, r))
              && TreeValue(depth, value, r) == TreeValue(depth - 1, value + 2, LeftUpdate(depth, r))
    ensures depth > 0 && !GoesLeft(depth, value, r) ==>
              && TreeSteps(depth, value, r) == 11 + TreeSteps(depth - 1, value + 1, RightUpdate(depth, r))
              && TreeValue(depth, value, r) == TreeValue(depth - 1, value + 1, RightUpdate(depth, r))
  {}

  lemma EmptyTree(p: Program, arg: int32, at: nat, r: int32, t: int32)
    ensures Width(0) == 0 && Run(p, arg, Running(at, Nil, [r, t]), 0) == Running(at, Nil, [r, t])
  {}

  // Wherever the tree's code sits in a program, running it from its first instruction reaches the
  // instruction after it, with an empty stack and the tree's value in the result.
  lemma {:induction false} RunTree(p: Program, arg: int32, at: nat, depth: nat, value: int, r: int32, t: int32)
    requires HasBlock(p, at, TreeCode(at, depth, value))
    ensures Run(p, arg, Running(at, Nil, [r, t]), TreeSteps(depth, value, r))
         == Running(at + Width(depth), Nil, [TreeValue(depth, value, r), t])
    decreases depth
  {
    hide *;
    TreeUnfold(depth, value, r);
    if depth == 0 {
      EmptyTree(p, arg, at, r, t);
    } else {
      NodeBlocks(p, at, depth, value);
      if GoesLeft(depth, value, r) {
        var x := LeftUpdate(depth, r);
        RunTree(p, arg, at + 15 + Width(depth - 1), depth - 1, value + 2, x, t);
        RunLeftWay(p, arg, at, depth, value, r, t,
                   TreeSteps(depth - 1, value + 2, x), TreeValue(depth - 1, value + 2, x));
      } else {
        var x := RightUpdate(depth, r);
        RunTree(p, arg, at + 10, depth - 1, value + 1, x, t);
        RunRightWay(p, arg, at, depth, value, r, t,
                    TreeSteps(depth - 1, value + 1, x), TreeValue(depth - 1, value + 1, x));
      }
    }
  }

  lemma CodeBlocks(complexity: nat)
    ensures var p, w := BranchingProgram(complexity), Width(complexity + 1);
            && HasBlock(p, 0, PROLOGUE) && HasBlock(p, 2, TreeCode(2, complexity + 1, 0))
            && HasBlock(p, 2 + w, EPILOGUE) && |p.code| == w + 4 && p.regions == [] && p.locals == 2
  {
    var p, tree := BranchingProgram(complexity), TreeCode(2, complexity + 1, 0);
    assert HasBlock(p, 0, p.code) && p.code == PROLOGUE + (tree + EPILOGUE);
    assert |p.code| == Width(complexity + 1) + 4;
    hide HasBlock, TreeCode, BranchingProgram, Width;
    SubBlock(p, 0, PROLOGUE, tree + EPILOGUE);
    SubBlock(p, 2, tree, EPILOGUE);
  }

  // The code, instruction by instruction: around the tree, and of each of its nodes.
  lemma BranchingListing(complexity: nat)
    ensures var p, end := BranchingProgram(complexity), 2 + 15 * (Pow2(complexity + 1) - 1);
            && p.locals == 2 && p.regions == [] && |p.code| == end + 2
            && HasBlock(p, 0, [Ldarg0, Stloc(0)]) && HasBlock(p, 2, TreeCode(2, complexity + 1, 0))
            && HasBlock(p, end, [Ldloc(0), Ret])
  {
    hide HasBlock, BranchingProgram, TreeCode, Width;
    CodeBlocks(complexity);
    WidthClosed(complexity + 1);
  }

  lemma NodeListing(p: Program, at: nat, depth: nat, value: int)
    requires depth > 0 && HasBlock(p, at, TreeCode(at, depth, value))
    ensures var w := 15 * (Pow2(depth - 1) - 1);
            && HasBlock(p, at, [Ldloc(0), LdcI4(value + depth), BitAnd, Brfalse(at + 11 + w)])
            && HasBlock(p, at + 4, [Ldloc(0), LdcI4(7 * depth), Mul, LdcI4(13), Add, Stloc(0)])
            && HasBlock(p, at + 10, TreeCode(at + 10, depth - 1, value + 1))
            && HasBlock(p, at + 10 + w, [Br(at + 15 + 2 * w)])
            && HasBlock(p, at + 11 + w, [Ldloc(0), LdcI4(depth), Add, Stloc(0)])
            && HasBlock(p, at + 15 + w, TreeCode(at + 15 + w, depth - 1, value + 2))
  {
    hide *;
    var w := Width(depth - 1);
    WidthClosed(depth - 1);
    NodeBlocks(p, at, depth, value);
    NodeText(depth, value, at + 11 + w);
    assert at + Width(depth) == at + 15 + 2 * w;
  }

  lemma NodeText(depth: nat, value: int, left: int)
    ensures Test(value + depth, left) == [Ldloc(0), LdcI4(value + depth), BitAnd, Brfalse(left)]
    ensures Right(depth) == [Ldloc(0), LdcI4(7 * depth), Mul, LdcI4(13), Add, Stloc(0)]
    ensures Left(depth) == [Ldloc(0), LdcI4(depth), Add, Stloc(0)]
  {}

  lemma RunPrologue(p: Program, arg: int32)
    requires HasBlock(p, 0, PROLOGUE) && p.locals == 2
    ensures Run(p, arg, Initial(p), 2) == Running(2, Nil, [arg, 0])
  {
    assert Initial(p).locals == [0, 0];
    assert ExecBlock(PROLOGUE, arg, Nil, [0, 0], 2) == Frame(Nil, [arg, 0]);
    hide Run, Step, Exec, ExecBlock, HasBlock;
    RunBlock(p, arg, 0, PROLOGUE, Nil, [0, 0], 2);
  }

  // Main result: for every complexity and argument the method returns the value of a tree of depth
  // complexity + 1, after at least 8 and at most 11 instructions per level and 4 more.
  lemma BranchingCorrect(complexity: nat, arg: int32)
    ensures var p, depth := BranchingProgram(complexity), complexity + 1;
            var steps := TreeSteps(depth, 0, arg) + 4;
            && Run(p, arg, Initial(p), steps) == Returned(TreeValue(depth, 0, arg))
            && 8 * depth + 4 <= steps <= 11 * depth + 4
            && |p.code| == 15 * (Pow2(depth) - 1) + 4
  {
    hide Run, Step, HasBlock, TreeCode, Width, TreeSteps, TreeValue, BranchingProgram, Initial;
    var p, depth := BranchingProgram(complexity), complexity + 1;
    var n, v := TreeSteps(depth, 0, arg), TreeValue(depth, 0, arg);
    CodeBlocks(complexity);
    RunPrologue(p, arg);
    RunTree(p, arg, 2, depth, 0, arg, 0);
    RunAdd(p, arg, Initial(p), 2, n);
    RunReturn(p, arg, 2 + Width(depth), RESULT, [v, 0]);
    RunAdd(p, arg, Initial(p), 2 + n, 2);
    WidthClosed(depth);
  }

  // The branching method's one outcome is the tree's recursive meaning.
  lemma BranchingReturns(complexity: nat, arg: int32) returns (v: int32)
    ensures Finishes(BranchingProgram(complexity), arg, Returned(v))
    ensures v == TreeValue(complexity + 1, 0, arg)
  {
    hide Run, BranchingProgram, Initial, TreeValue, TreeSteps;
    BranchingCorrect(complexity, arg);
    v := TreeValue(complexity + 1, 0, arg);
  }

  // The test goes left exactly when the result has no bit in common with the mask.
  lemma TestLaw(p: Program, arg: int32, at: nat, mask: int, left: nat, r: int32, t: int32)
    requires HasBlock(p, at, [Ldloc(0), LdcI4(mask), BitAnd, Brfalse(left)])
    ensures var next := if exists k | 0 <= k < 32 :: Bit(r, k) == 1 && Bit(mask, k) == 1 then at + 4 else left;
            Run(p, arg, Running(at, Nil, [r, t]), 4) == Running(next, Nil, [r, t])
  {
    assert Test(mask, left) == [Ldloc(0), LdcI4(mask), BitAnd, Brfalse(left)];
    hide Run, And, Test, Bit, Wrap;
    MaskLaw(r, mask);
    RunTest(p, arg, at, mask, left, r, t);
  }

  lemma MaskLaw(r: int32, mask: int)
    ensures And(r, Wrap(mask)) == 0 <==> !exists k | 0 <= k < 32 :: Bit(r, k) == 1 && Bit(mask, k) == 1
  {
    AndLaw(r, Wrap(mask));
    hide And, Bit, Wrap;
    forall k | 0 <= k < 32 ensures Bit(Wrap(mask), k) == Bit(mask, k) {
      WrapBits(mask, k);
    }
  }

  // The tree's value, level by level.
  lemma TreeLaw(depth: nat, value: int, r: int32)
    ensures depth == 0 ==> TreeValue(depth, value, r) == r
    ensures depth > 0 && (forall k | 0 <= k < 32 :: !(Bit(r, k) == 1 && Bit(value + depth, k) == 1)) ==>
              TreeValue(depth, value, r) == TreeValue(depth - 1, value + 2, Wrap(r + depth))
    ensures depth > 0 && (exists k | 0 <= k < 32 :: Bit(r, k) == 1 && Bit(value + depth, k) == 1) ==>
              TreeValue(depth, value, r) == TreeValue(depth - 1, value + 1, Wrap(r * (7 * depth) + 13))
  {
    hide Bit;
    MaskLaw(r, value + depth);
  }

  // The smallest method in closed form: odd arguments go right, even ones left; 1 gives 20.
  lemma SmallestTree(arg: int32) returns (v: int32)
    ensures Finishes(BranchingProgram(0), arg, Returned(v))
    ensures v == if arg % 2 == 1 then Wrap(arg * 7 + 13) else Wrap(arg + 1)
    ensures arg == 1 ==> v == 20
  {
    hide Finishes, BranchingProgram, TreeValue;
    SmallestValue(arg);
    v := BranchingReturns(0, arg);
  }

  lemma SmallestValue(arg: int32)
    ensures TreeValue(1, 0, arg) == if arg % 2 == 1 then Wrap(arg * 7 + 13) else Wrap(arg + 1)
  {
    var x := if arg % 2 == 1 then Wrap(arg * 7 + 13) else Wrap(arg + 1);
    assert TreeValue(0, 1, x) == x == TreeValue(0, 2, x);
    TreeLaw(1, 0, arg);
    BitsOfOne();
    hide TreeValue, Wrap;
    LowestOf(arg);
  }

  lemma BitsOfOne()
    ensures Bit(1, 0) == 1 && forall k | 0 < k < 32 :: Bit(1, k) == 0
  {
    forall k | 0 < k < 32 ensures Bit(1, k) == 0 {
      assert Pow2(k) == 2 * Pow2(k - 1);
      hide Pow2;
      BelowDivisor(Pow2(k));
    }
  }

  lemma BelowDivisor(p: nat)
    requires p > 1
    ensures 1 / p == 0
  {}

  lemma LowestOf(x: int)
    ensures Bit(x, 0) == x % 2
  {
    assert Pow2(0) == 1;
  }

  // Every branch of a tree goes forward and stays in it or goes just behind it.
  lemma {:induction false} TreeForward(at: nat, depth: nat, value: int, i: nat)
    requires i < Width(depth) && HasLabel(TreeCode(at, depth, value)[i])
    ensures at + i < TreeCode(at, depth, value)[i].target <= at + Width(depth)
    decreases depth
  {
    hide Width, TreeCode, Head, Middle;
    if depth == 0 {
      LeafWidth();
    } else {
      var w := Width(depth - 1);
      NodeParts(at, depth, value);
      NodeTargets(depth, value, at + 11 + w, at + Width(depth));
      FourParts(Head(depth, value, at + 11 + w), TreeCode(at + 10, depth - 1, value + 1),
                Middle(depth, at + Width(depth)), TreeCode(at + 15 + w, depth - 1, value + 2), i);
      if 10 <= i < 10 + w {
        TreeForward(at + 10, depth - 1, value + 1, i - 10);
      } else if 15 + w <= i {
        TreeForward(at + 15 + w, depth - 1, value + 2, i - 15 - w);
      }
    }
  }

  lemma NodeTargets(depth: nat, value: int, left: int, end: int)
    ensures forall j :: 0 <= j < 10 && HasLabel(Head(depth, value, left)[j]) ==>
              Head(depth, value, left)[j].target == left
    ensures forall j :: 0 <= j < 5 && HasLabel(Middle(depth, end)[j]) ==> j == 0 && Middle(depth, end)[j].target == end
  {}

  lemma LeafWidth()
    ensures Width(0) == 0
  {}

  lemma FourParts(a: seq<Instr>, b: seq<Instr>, c: seq<Instr>, d: seq<Instr>, i: nat)
    requires i < |a| + |b| + |c| + |d|
    ensures (a + b + (c + d))[i] ==
      if i < |a| then a[i] else if i < |a| + |b| then b[i - |a|]
      else if i < |a| + |b| + |c| then c[i - |a| - |b|] else d[i - |a| - |b| - |c|]
  {}

  // ----- It is well formed -----

  lemma TestPlain(mask: int, left: int)
    ensures |Test(mask, left)| == 4 && PlainBlock(Test(mask, left), 2, left)
  {}

  lemma RightPlain(depth: nat, target: int)
    ensures |Right(depth)| == 6 && PlainBlock(Right(depth), 2, target)
  {}

  lemma LeftPlain(depth: nat, target: int)
    ensures |Left(depth)| == 4 && PlainBlock(Left(depth), 2, target)
  {}

  lemma BrPlain(end: int)
    ensures PlainBlock([Br(end)], 2, end)
  {}

  // The stack is empty between the parts of a node.
  lemma NodeTypes(p: Program, at: nat, depth: nat, value: int)
    requires p.regions == [] && p.locals == 2 && EmptyAt(p, at)
    requires depth > 0 && HasBlock(p, at, TreeCode(at, depth, value))
    ensures var w := Width(depth - 1);
            && EmptyAt(p, at + 4) && EmptyAt(p, at + 10)
            && (EmptyAt(p, at + 10 + w) ==> EmptyAt(p, at + 11 + w) && EmptyAt(p, at + 15 + w))
  {
    hide *;
    var w, end := Width(depth - 1), at + Width(depth);
    NodeBlocks(p, at, depth, value);
    TestPlain(value + depth, at + 11 + w);
    RightPlain(depth, at);
    BrPlain(end);
    LeftPlain(depth, at);
    PlainBlockTypes(p, at, Test(value + depth, at + 11 + w), at + 11 + w);
    PlainBlockTypes(p, at + 4, Right(depth), at);
    if EmptyAt(p, at + 10 + w) {
      PlainBlockTypes(p, at + 10 + w, [Br(end)], end);
      PlainBlockTypes(p, at + 11 + w, Left(depth), at);
    }
  }

  lemma NodeChecked(p: Program, at: nat, depth: nat, value: int)
    requires p.regions == [] && p.locals == 2 && EmptyAt(p, at)
    requires depth > 0 && HasBlock(p, at, TreeCode(at, depth, value)) && at + Width(depth) < |p.code|
    requires EmptyAt(p, at + 10 + Width(depth - 1)) && EmptyAt(p, at + Width(depth))
    ensures CheckedRange(p, at, at + 10) && CheckedRange(p, at + 10 + Width(depth - 1), at + 15 + Width(depth - 1))
  {
    hide *;
    var w, end := Width(depth - 1), at + Width(depth);
    NodeBlocks(p, at, depth, value);
    NodeTypes(p, at, depth, value);
    TestPlain(value + depth, at + 11 + w);
    RightPlain(depth, at);
    BrPlain(end);
    LeftPlain(depth, at);
    PlainBlockChecked(p, at, Test(value + depth, at + 11 + w), at + 11 + w);
    PlainBlockChecked(p, at + 4, Right(depth), at);
    PlainBlockChecked(p, at + 10 + w, [Br(end)], end);
    PlainBlockChecked(p, at + 11 + w, Left(depth), at);
    JoinRanges(p, at, at + 4, at + 10);
    JoinRanges(p, at + 10 + w, at + 11 + w, at + 15 + w);
  }

  lemma LeafTyped(p: Program, at: nat)
    requires EmptyAt(p, at)
    ensures Width(0) == 0 && CheckedRange(p, at, at)
  {}

  lemma {:induction false} TreeTyped(p: Program, at: nat, depth: nat, value: int)
    requires p.regions == [] && p.locals == 2 && EmptyAt(p, at)
    requires HasBlock(p, at, TreeCode(at, depth, value)) && at + Width(depth) < |p.code|
    ensures EmptyAt(p, at + Width(depth)) && CheckedRange(p, at, at + Width(depth))
    decreases depth
  {
    hide *;
    if depth == 0 {
      LeafTyped(p, at);
    } else {
      var w := Width(depth - 1);
      NodeBlocks(p, at, depth, value);
      NodeTypes(p, at, depth, value);
      TreeTyped(p, at + 10, depth - 1, value + 1);
      NodeTypes(p, at, depth, value);
      TreeTyped(p, at + 15 + w, depth - 1, value + 2);
      NodeChecked(p, at, depth, value);
      JoinRanges(p, at, at + 10, at + 10 + w);
      JoinRanges(p, at, at + 10 + w, at + 15 + w);
      JoinRanges(p, at, at + 15 + w, at + Width(depth));
    }
  }

  lemma EndsPlain(target: int)
    ensures PlainBlock(PROLOGUE, 2, target) && PlainBlock(EPILOGUE, 2, target)
  {}

  // For every complexity the emitted method is well formed.
  lemma BranchingVerified(complexity: nat)
    ensures Verified(BranchingProgram(complexity))
  {
    hide EmptyAt, TypeAt, PlainBlock, Checked, CheckedRange, TreeCode, BranchingProgram, HasBlock, Width;
    var p, end := BranchingProgram(complexity), 2 + Width(complexity + 1);
    CodeBlocks(complexity);
    EndsPlain(0);
    StartsEmpty(p);
    PlainBlockTypes(p, 0, PROLOGUE, 0);
    PlainBlockChecked(p, 0, PROLOGUE, 0);
    TreeTyped(p, 2, complexity + 1, 0);
    PlainBlockChecked(p, end, EPILOGUE, 0);
    JoinRanges(p, 0, 2, end);
    JoinRanges(p, 0, end, |p.code|);
  }
}
