// CreateComplexArithmeticMethod: an unrolled chain that cycles through complexity + 5 locals.
module Arithmetic {
  import opened Int32
  import opened IL
  import opened ILTyping
  import opened ILGenerator

  // ----- The emitted code -----

  const PROLOGUE: seq<Instr> := [Ldarg0, Stloc(0)]
  const EPILOGUE: seq<Instr> := [Ldloc(0), Ret]

  function Locals(complexity: nat): nat {
    complexity + 5
  }

  function LoadCode(from: nat, i: nat): (r: seq<Instr>)
    ensures |r| == 5
  {
    [Ldloc(from), Nop, Nop, LdcI4(i + 1), Add]
  }

  const SCALE: seq<Instr> := [LdcI4(7), Mul, LdcI4(3), Rem]

  function StoreCode(to: nat): (r: seq<Instr>)
    ensures |r| == 3
  {
    [Stloc(to), Nop, Nop]
  }

  function StepCode(from: nat, to: nat, i: nat): (r: seq<Instr>)
    ensures |r| == 12
  {
    LoadCode(from, i) + SCALE + StoreCode(to)
  }

  // The locals that step i reads and writes.
  function From(i: nat, locals: nat): (r: nat)
    requires locals > 0
    ensures r < locals
  {
    i % locals
  }

  function To(i: nat, locals: nat): (r: nat)
    requires locals > 0
    ensures r < locals
  {
    (i % locals + 1) % locals
  }

  function Body(complexity: nat): nat -> seq<Instr> {
    (i: nat) => StepCode(From(i, Locals(complexity)), To(i, Locals(complexity)), i)
  }

  function Emitted(complexity: nat, k: nat): seq<Instr> {
    PROLOGUE + Repeat(Body(complexity), k)
  }

  function ArithmeticProgram(complexity: nat): Program {
    Program(Emitted(complexity, complexity * 10) + EPILOGUE, [], Locals(complexity))
  }

  // ----- Emission -----

  lemma EmittedNext(complexity: nat, k: nat)
    ensures |Emitted(complexity, k)| == 2 + 12 * k
    ensures var l := Locals(complexity);
            Emitted(complexity, k + 1) == Emitted(complexity, k) + StepCode(From(k, l), To(k, l), k)
  {
    RepeatLength(Body(complexity), k, 12);
  }

  method EmitStep(il: Generator, from: nat, to: nat, i: nat)
    requires from < 0x1_0000 && to < 0x1_0000
    modifies il`code
    ensures il.code == old(il.code) + StepCode(from, to, i)
  {
    il.EmitWide(Ldloc(from));
    il.Emit(LdcI4(i + 1));
    il.Emit(Add);
    assert il.code == old(il.code) + LoadCode(from, i);
    il.Emit(LdcI4(7));
    il.Emit(Mul);
    il.Emit(LdcI4(3));
    il.Emit(Rem);
    assert il.code == old(il.code) + (LoadCode(from, i) + SCALE);
    il.EmitWide(Stloc(to));
  }

  // A local index must fit the 16-bit operand of ldloc and stloc.
  method CreateComplexArithmeticMethod(complexity: nat) returns (m: Program)
    requires complexity + 5 <= 0x1_0000
    ensures m == ArithmeticProgram(complexity) && m.locals == complexity + 5
  {
    var il := new Generator();
    var count := complexity + 5;
    for i := 0 to count
      invariant il.locals == i && il.code == [] && il.labels == [] && il.regions == [] && il.open == []
    {
      var local := il.DeclareLocal();
    }
    il.Emit(Ldarg0);
    il.Emit(Stloc(0));
    assert il.code == Emitted(complexity, 0);
    for i := 0 to complexity * 10
      invariant il.code == Emitted(complexity, i)
      invariant il.locals == count && il.labels == [] && il.regions == [] && il.open == []
    {
      EmittedNext(complexity, i);
      var localIdx := i % count;
      EmitStep(il, localIdx, (localIdx + 1) % count, i);
    }
    il.Emit(Ldloc(0));
    il.Emit(Ret);
    assert il.code == ArithmeticProgram(complexity).code;
    RepeatPlain(complexity, complexity * 10);
    hide Baked, AllLinked;
    BakedPlain(il.code, il.labels);
    BakedUnique(il.code, il.labels, il.code);
    m := il.CreateDelegate();
  }

  lemma {:induction false} RepeatPlain(complexity: nat, k: nat)
    ensures forall i :: 0 <= i < |Repeat(Body(complexity), k)| ==> !HasLabel(Repeat(Body(complexity), k)[i])
  {
    if k > 0 {
      RepeatPlain(complexity, k - 1);
    }
  }

  // ----- What it computes -----

  // One link of the chain: ((x + i + 1) * 7) rem 3 in int32.
  function Link(x: int32, i: nat): int32 {
    TruncRem(Wrap((x + (i + 1)) * 7), 3)
  }

  // The scalar chain that the cycling locals carry.
  function Scalar(arg: int32, n: nat): int32 {
    if n == 0 then arg else Link(Scalar(arg, n - 1), n - 1)
  }

  // The largest multiple of the number of locals that is at most n.
  function LastReturn(n: nat, locals: nat): nat
    requires locals > 0
  {
    n - n % locals
  }

  lemma ModUnique(n: nat, d: nat, q: nat, r: nat)
    requires r < d && n == d * q + r
    ensures n % d == r
  {
    var p, m := n / d, n % d;
    Difference(d, p, q);
    if p > q {
      AtLeast(d, p - q);
    } else if p < q {
      AtLeast(d, q - p);
    }
  }

  lemma Difference(d: int, p: int, q: int)
    ensures d * p - d * q == d * (p - q) == -(d * (q - p))
  {}

  lemma AtLeast(d: nat, k: nat)
    requires k >= 1
    ensures d * k >= d
  {}

  // The next index in the cycle.
  lemma NextIndex(i: nat, d: nat)
    requires d > 1
    ensures From(i + 1, d) == To(i, d) == if From(i, d) + 1 == d then 0 else From(i, d) + 1
    ensures LastReturn(i + 1, d) == if From(i, d) + 1 == d then i + 1 else LastReturn(i, d)
  {
    var q, r := i / d, i % d;
    assert i == d * q + r;
    if r + 1 == d {
      Carry(i, d, q);
      ModUnique(d, d, 1, 0);
    } else {
      ModUnique(i + 1, d, q, r + 1);
      ModUnique(r + 1, d, 0, r + 1);
    }
  }

  lemma Carry(i: nat, d: nat, q: nat)
    requires d > 0 && i + 1 == d * q + d
    ensures (i + 1) % d == 0
  {
    assert i + 1 == d * (q + 1);
    ModUnique(i + 1, d, q + 1, 0);
  }

  lemma LoadEffect(arg: int32, from: nat, i: nat, locals: seq<int32>)
    requires from < |locals|
    ensures ExecBlock(LoadCode(from, i), arg, Nil, locals, 5)
         == Frame(Cons(Num(Wrap(locals[from] + (i + 1))), Nil), locals)
  {
    assert ExecBlock(LoadCode(from, i), arg, Nil, locals, 3) == Frame(Cons(Num(locals[from]), Nil), locals);
    WrapAdd(locals[from], i + 1);
  }

  lemma ScaleEffect(arg: int32, x: int, locals: seq<int32>)
    ensures ExecBlock(SCALE, arg, Cons(Num(Wrap(x)), Nil), locals, 4)
         == Frame(Cons(Num(TruncRem(Wrap(x * 7), 3)), Nil), locals)
  {
    var stack := Cons(Num(Wrap(x)), Nil);
    assert ExecBlock(SCALE, arg, stack, locals, 2) == Frame(Cons(Num(Wrap(Wrap(x) * 7)), Nil), locals);
    WrapMul(x, 7);
    var v := Wrap(x * 7);
    assert Wrap(3) == 3;
    hide ExecBlock, Wrap;
    ExecNext(SCALE, arg, stack, locals, 2, Cons(Num(v), Nil), locals);
    ExecNext(SCALE, arg, stack, locals, 3, Cons(Num(3), Cons(Num(v), Nil)), locals);
  }

  lemma StoreEffect(arg: int32, to: nat, v: int32, locals: seq<int32>)
    requires to < |locals|
    ensures ExecBlock(StoreCode(to), arg, Cons(Num(v), Nil), locals, 3) == Frame(Nil, locals[to := v])
  {}

  lemma RunStep(p: Program, arg: int32, at: nat, from: nat, to: nat, i: nat, locals: seq<int32>)
    requires HasBlock(p, at, StepCode(from, to, i)) && from < |locals| && to < |locals|
    ensures Run(p, arg, Running(at, Nil, locals), 12) == Running(at + 12, Nil, locals[to := Link(locals[from], i)])
  {
    hide Run, Step, HasBlock, ExecBlock, Wrap, TruncRem, LoadCode, SCALE, StoreCode;
    var s, x := Running(at, Nil, locals), locals[from] + (i + 1);
    var v := TruncRem(Wrap(x * 7), 3);
    Lengths(from, to, i);
    SubBlock(p, at, LoadCode(from, i) + SCALE, StoreCode(to));
    SubBlock(p, at, LoadCode(from, i), SCALE);
    LoadEffect(arg, from, i, locals);
    RunBlock(p, arg, at, LoadCode(from, i), Nil, locals, 5);
    ScaleEffect(arg, x, locals);
    RunBlock(p, arg, at + 5, SCALE, Cons(Num(Wrap(x)), Nil), locals, 4);
    RunAdd(p, arg, s, 5, 4);
    StoreEffect(arg, to, v, locals);
    RunBlock(p, arg, at + 9, StoreCode(to), Cons(Num(v), Nil), locals, 3);
    RunAdd(p, arg, s, 9, 3);
  }

  lemma Lengths(from: nat, to: nat, i: nat)
    ensures |LoadCode(from, i)| == 5 && |SCALE| == 4 && |StoreCode(to)| == 3
  {}

  lemma CodeBlocks(complexity: nat)
    ensures var p, n := ArithmeticProgram(complexity), complexity * 10;
            && HasBlock(p, 0, PROLOGUE) && HasBlock(p, 2, Repeat(Body(complexity), n))
            && HasBlock(p, 2 + 12 * n, EPILOGUE) && |p.code| == 4 + 12 * n
            && p.regions == [] && p.locals == Locals(complexity)
  {
    hide HasBlock, Repeat, PROLOGUE, EPILOGUE;
    var p, n := ArithmeticProgram(complexity), complexity * 10;
    EndLengths();
    EmittedNext(complexity, n);
    WholeBlock(p, Emitted(complexity, n) + EPILOGUE);
    SubBlock(p, 0, Emitted(complexity, n), EPILOGUE);
    SubBlock(p, 0, PROLOGUE, Repeat(Body(complexity), n));
  }

  lemma EndLengths()
    ensures |PROLOGUE| == 2 && |EPILOGUE| == 2
  {}

  lemma StepAt(complexity: nat, i: nat)
    requires i < complexity * 10
    ensures var l := Locals(complexity);
            HasBlock(ArithmeticProgram(complexity), 2 + 12 * i, StepCode(From(i, l), To(i, l), i))
  {
    CodeBlocks(complexity);
    hide HasBlock, ArithmeticProgram, StepCode;
    RepeatBlock(ArithmeticProgram(complexity), 2, Body(complexity), complexity * 10, 12, i);
  }

  // The code, instruction by instruction.
  lemma ArithmeticListing(complexity: nat, i: nat)
    ensures var p := ArithmeticProgram(complexity);
            && p.locals == complexity + 5 && p.regions == [] && |p.code| == 4 + 120 * complexity
            && HasBlock(p, 0, [Ldarg0, Stloc(0)]) && HasBlock(p, 2 + 120 * complexity, [Ldloc(0), Ret])
    ensures i < 10 * complexity ==>
              var l := i % (complexity + 5);
              HasBlock(ArithmeticProgram(complexity), 2 + 12 * i,
                       [Ldloc(l), Nop, Nop, LdcI4(i + 1), Add, LdcI4(7), Mul, LdcI4(3), Rem,
                        Stloc((l + 1) % (complexity + 5)), Nop, Nop])
  {
    hide *;
    CodeBlocks(complexity);
    EndsListing(complexity);
    if i < 10 * complexity {
      StepAt(complexity, i);
      StepListing(complexity, i);
    }
  }

  lemma EndsListing(complexity: nat)
    ensures PROLOGUE == [Ldarg0, Stloc(0)] && EPILOGUE == [Ldloc(0), Ret] && Locals(complexity) == complexity + 5
    ensures 12 * (complexity * 10) == 120 * complexity
  {}

  lemma StepListing(complexity: nat, i: nat)
    ensures var l, n := i % (complexity + 5), Locals(complexity);
            StepCode(From(i, n), To(i, n), i)
            == [Ldloc(l), Nop, Nop, LdcI4(i + 1), Add, LdcI4(7), Mul, LdcI4(3), Rem,
                Stloc((l + 1) % (complexity + 5)), Nop, Nop]
  {}

  // After i steps the local that step i reads holds the i-th scalar, and local 0 the last scalar
  // whose index is a multiple of the number of locals.
  ghost predicate Carries(arg: int32, locals: seq<int32>, i: nat) {
    && |locals| > 0
    && locals[From(i, |locals|)] == Scalar(arg, i)
    && locals[0] == Scalar(arg, LastReturn(i, |locals|))
  }

  lemma CarriesNext(arg: int32, locals: seq<int32>, i: nat)
    requires |locals| > 1 && Carries(arg, locals, i)
    ensures var l := |locals|;
            Carries(arg, locals[To(i, l) := Link(locals[From(i, l)], i)], i + 1)
  {
    NextIndex(i, |locals|);
    hide Link, From, To, LastReturn;
  }

  lemma {:induction false} RunSteps(p: Program, arg: int32, complexity: nat, i: nat) returns (locals: seq<int32>)
    requires p == ArithmeticProgram(complexity) && i <= complexity * 10
    ensures |locals| == Locals(complexity) && Carries(arg, locals, i)
    ensures Run(p, arg, Initial(p), 2 + 12 * i) == Running(2 + 12 * i, Nil, locals)
  {
    hide HasBlock, ArithmeticProgram, Run, Step, Carries, Link, StepCode, Initial, From, To;
    if i == 0 {
      locals := RunPrologue(p, arg, complexity);
    } else {
      var l := Locals(complexity);
      var from, to, at := From(i - 1, l), To(i - 1, l), 2 + 12 * (i - 1);
      var before := RunSteps(p, arg, complexity, i - 1);
      StepAt(complexity, i - 1);
      RunStep(p, arg, at, from, to, i - 1, before);
      RunAdd(p, arg, Initial(p), at, 12);
      CarriesNext(arg, before, i - 1);
      locals := before[to := Link(before[from], i - 1)];
    }
  }

  lemma RunPrologue(p: Program, arg: int32, complexity: nat) returns (locals: seq<int32>)
    requires p == ArithmeticProgram(complexity)
    ensures |locals| == Locals(complexity) && Carries(arg, locals, 0)
    ensures Run(p, arg, Initial(p), 2) == Running(2, Nil, locals)
  {
    CodeBlocks(complexity);
    var zero := Initial(p).locals;
    locals := zero[0 := arg];
    assert ExecBlock(PROLOGUE, arg, Nil, zero, 2) == Frame(Nil, locals);
    hide HasBlock, ArithmeticProgram, Step, Exec, ExecBlock;
    RunBlock(p, arg, 0, PROLOGUE, Nil, zero, 2);
  }

  // The index of the scalar the method returns.
  function Returns(complexity: nat): nat {
    LastReturn(complexity * 10, Locals(complexity))
  }

  // Main result: the method returns the scalar chain's value at the largest multiple of c + 5 that
  // is at most 10c, after 120c + 4 steps.
  lemma ArithmeticCorrect(complexity: nat, arg: int32)
    ensures var p := ArithmeticProgram(complexity);
            Run(p, arg, Initial(p), 120 * complexity + 4)
            == Returned(Scalar(arg, 10 * complexity - 10 * complexity % (complexity + 5)))
  {
    ReturnsIs(complexity);
    hide *;
    var p, n := ArithmeticProgram(complexity), complexity * 10;
    CodeBlocks(complexity);
    var locals := RunSteps(p, arg, complexity, n);
    LocalReturned(complexity, arg, locals);
    EpilogueIs();
    RunReturn(p, arg, 2 + 12 * n, 0, locals);
    RunAdd(p, arg, Initial(p), 2 + 12 * n, 2);
  }

  lemma EpilogueIs()
    ensures EPILOGUE == [Ldloc(0), Ret]
  {}

  lemma LocalReturned(complexity: nat, arg: int32, locals: seq<int32>)
    requires |locals| == Locals(complexity) && Carries(arg, locals, complexity * 10)
    ensures |locals| > 0 && locals[0] == Scalar(arg, Returns(complexity))
  {
    hide Scalar;
  }

  lemma ReturnsIs(complexity: nat)
    ensures Returns(complexity) == 10 * complexity - 10 * complexity % (complexity + 5)
  {}

  // The scalar chain, link by link.
  lemma ScalarLaw(arg: int32, i: nat)
    ensures Scalar(arg, 0) == arg
    ensures Scalar(arg, i + 1) == TruncRem(Wrap((Scalar(arg, i) + i + 1) * 7), 3)
  {
    assert Scalar(arg, i + 1) == Link(Scalar(arg, i), i);
    hide Scalar, Wrap, TruncRem;
  }

  function Triangle(n: nat): nat {
    if n == 0 then 0 else Triangle(n - 1) + n
  }

  lemma {:induction false} TriangleClosed(n: nat)
    ensures 2 * Triangle(n) == n * (n + 1)
  {
    if n > 0 {
      TriangleClosed(n - 1);
    }
  }

  // From the second link on nothing overflows or is negative, so a link adds i + 1 modulo 3.
  lemma LinkSmall(x: int32, i: nat)
    requires -2 <= x <= 2 && i >= 1 && 7 * (i + 3) <= MAX
    ensures Link(x, i) == (x + i + 1) % 3
  {
    var y := x + (i + 1);
    assert Wrap(y * 7) == y * 7;
    hide Wrap;
    assert y * 7 == y + 3 * (2 * y);
  }

  lemma ModThree(a: int, b: int)
    ensures (a % 3 + b) % 3 == (a + b) % 3
  {}

  lemma {:induction false} ScalarClosed(arg: int32, n: nat)
    requires n >= 2 && 7 * (n + 2) <= MAX
    ensures Scalar(arg, n) == (Scalar(arg, 1) + Triangle(n) - 1) % 3
  {
    FirstScalar(arg);
    var first, prev := Scalar(arg, 1), Scalar(arg, n - 1);
    assert Scalar(arg, n) == Link(prev, n - 1) && Triangle(n) == Triangle(n - 1) + n;
    if n == 2 {
      assert Triangle(1) == 1;
      hide Link, Scalar, Triangle;
      LinkSmall(first, 1);
    } else {
      hide Link, Scalar, Triangle;
      ScalarClosed(arg, n - 1);
      LinkSmall(prev, n - 1);
      ModThree(first + Triangle(n - 1) - 1, n);
    }
  }

  lemma FirstScalar(arg: int32)
    ensures Scalar(arg, 1) == Link(arg, 0) && -2 <= Scalar(arg, 1) <= 2
  {
    assert Scalar(arg, 1) == Link(Scalar(arg, 0), 0);
    hide Wrap;
  }

  // The closed form: from the first link and the number of links.
  function Half(k: nat): int {
    k * (k + 1) / 2
  }

  function Residue(first: int, k: nat): int {
    (first + Half(k) - 1) % 3
  }

  lemma ScalarResidue(arg: int32, k: nat)
    requires k >= 2 && 7 * (k + 2) <= MAX
    ensures Scalar(arg, k) == Residue(Link(arg, 0), k)
  {
    hide Link, Half, Scalar, Triangle;
    FirstScalar(arg);
    HalfTriangle(k);
    ScalarClosed(arg, k);
  }

  // With at least one link the result is 0, 1 or 2, in closed form; with none it is the argument.
  lemma ArithmeticClosed(complexity: nat, arg: int32)
    requires 7 * (10 * complexity + 2) <= MAX
    ensures complexity == 0 ==> Scalar(arg, Returns(complexity)) == arg
    ensures complexity >= 1 ==> Scalar(arg, Returns(complexity)) == Residue(Link(arg, 0), Returns(complexity))
    ensures complexity >= 1 ==> 0 <= Scalar(arg, Returns(complexity)) <= 2
  {
    ReturnsMultiple(10 * complexity, complexity + 5);
    if complexity >= 1 {
      hide Scalar, Link, LastReturn;
      ScalarResidue(arg, Returns(complexity));
      ResidueRange(Link(arg, 0), Returns(complexity));
    }
  }

  lemma ResidueRange(first: int, k: nat)
    ensures 0 <= Residue(first, k) <= 2
  {
    hide Half;
  }

  lemma HalfTriangle(k: nat)
    ensures Half(k) == Triangle(k)
  {
    TriangleClosed(k);
  }

  // LastReturn(n, d) is the largest multiple of d that is at most n.
  lemma ReturnsMultiple(n: nat, d: nat)
    requires d > 0
    ensures LastReturn(n, d) % d == 0 && n - LastReturn(n, d) < d && (n >= d ==> LastReturn(n, d) >= d)
    ensures n < d ==> LastReturn(n, d) == 0
  {
    var q := n / d;
    assert n - n % d == d * q;
    ModUnique(d * q, d, q, 0);
    if n < d {
      ModUnique(n, d, 0, n);
    }
  }

  // The arithmetic method has c + 5 locals and one outcome: the argument itself for complexity 0, else a
  // residue modulo 3; complexity 1 on argument 0 gives 0.
  lemma ArithmeticReturns(complexity: nat, arg: int32) returns (v: int32)
    requires 7 * (10 * complexity + 2) <= MAX
    ensures ArithmeticProgram(complexity).locals == complexity + 5
    ensures Finishes(ArithmeticProgram(complexity), arg, Returned(v))
    ensures complexity == 0 ==> v == arg
    ensures complexity >= 1 ==>
              var k := 10 * complexity - 10 * complexity % (complexity + 5);
              v == (TruncRem(Wrap((arg + 1) * 7), 3) + k * (k + 1) / 2 - 1) % 3
    ensures complexity == 1 && arg == 0 ==> v == 0
  {
    LocalsOf(complexity);
    ResidueOf(arg, Returns(complexity));
    hide Run, ArithmeticProgram, Initial, Scalar, Residue, Link, TruncRem, Wrap;
    ArithmeticCorrect(complexity, arg);
    ArithmeticClosed(complexity, arg);
    v := Scalar(arg, Returns(complexity));
    if complexity == 1 && arg == 0 {
      FirstExample();
    }
  }

  lemma LocalsOf(complexity: nat)
    ensures ArithmeticProgram(complexity).locals == complexity + 5
  {}

  lemma ResidueOf(arg: int32, k: nat)
    ensures Residue(Link(arg, 0), k) == (TruncRem(Wrap((arg + 1) * 7), 3) + k * (k + 1) / 2 - 1) % 3
  {
    hide TruncRem, Wrap;
  }

  lemma FirstExample()
    ensures (TruncRem(Wrap((0 + 1) * 7), 3) + 6 * (6 + 1) / 2 - 1) % 3 == 0
  {}

  // ----- It is well formed -----

  lemma StepTyped(locals: nat, from: nat, to: nat, i: nat)
    requires from < locals && to < locals
    ensures InferBlock(StepCode(from, to, i), locals, 9) == Typed(Cons(IntTy, Nil))
    ensures BlockTyped(StepCode(from, to, i), locals, 9)
  {
    var block := StepCode(from, to, i);
    LoadTyped(locals, from, to, i);
    assert InferBlock(block, locals, 7) == Typed(Cons(IntTy, Nil)) && BlockTyped(block, locals, 7);
  }

  lemma LoadTyped(locals: nat, from: nat, to: nat, i: nat)
    requires from < locals && to < locals
    ensures var block := StepCode(from, to, i);
            InferBlock(block, locals, 5) == Typed(Cons(IntTy, Nil)) && BlockTyped(block, locals, 5)
  {
    var block := StepCode(from, to, i);
    assert InferBlock(block, locals, 3) == Typed(Cons(IntTy, Nil)) && BlockTyped(block, locals, 3);
  }

  lemma StepPlain(locals: nat, from: nat, to: nat, i: nat, target: int)
    requires from < locals && to < locals
    ensures PlainBlock(StepCode(from, to, i), locals, target)
  {
    var block := StepCode(from, to, i);
    StepTyped(locals, from, to, i);
    assert InferBlock(block, locals, 12) == Typed(Nil) && BlockTyped(block, locals, 12);
  }

  lemma EndsPlain(locals: nat, target: int)
    requires locals > 0
    ensures PlainBlock(PROLOGUE, locals, target) && PlainBlock(EPILOGUE, locals, target)
  {
    assert InferBlock(PROLOGUE, locals, 2) == Typed(Nil) && BlockTyped(PROLOGUE, locals, 2);
    assert InferBlock(EPILOGUE, locals, 2) == Typed(Nil) && BlockTyped(EPILOGUE, locals, 2);
  }

  lemma {:induction false} StepsChecked(complexity: nat, k: nat)
    requires k <= complexity * 10
    ensures var p := ArithmeticProgram(complexity);
            EmptyAt(p, 2 + 12 * k) && CheckedRange(p, 0, 2 + 12 * k)
  {
    hide HasBlock, EmptyAt, TypeAt, PlainBlock, Checked, CheckedRange, ArithmeticProgram, StepCode, From, To;
    var p, l := ArithmeticProgram(complexity), Locals(complexity);
    CodeBlocks(complexity);
    if k == 0 {
      StartsEmpty(p);
      EndsPlain(l, 0);
      PlainBlockTypes(p, 0, PROLOGUE, 0);
      PlainBlockChecked(p, 0, PROLOGUE, 0);
    } else {
      var at, i := 2 + 12 * (k - 1), k - 1;
      StepsChecked(complexity, i);
      StepAt(complexity, i);
      StepPlain(l, From(i, l), To(i, l), i, at);
      PlainBlockTypes(p, at, StepCode(From(i, l), To(i, l), i), at);
      PlainBlockChecked(p, at, StepCode(From(i, l), To(i, l), i), at);
      JoinRanges(p, 0, at, 2 + 12 * k);
    }
  }

  // For every complexity the emitted method is well formed.
  lemma ArithmeticVerified(complexity: nat)
    ensures Verified(ArithmeticProgram(complexity))
  {
    hide HasBlock, EmptyAt, TypeAt, PlainBlock, Checked, CheckedRange, ArithmeticProgram;
    var p, end := ArithmeticProgram(complexity), 2 + 12 * (complexity * 10);
    StepsChecked(complexity, complexity * 10);
    CodeBlocks(complexity);
    EndsPlain(Locals(complexity), 0);
    StartsEmpty(p);
    PlainBlockChecked(p, end, EPILOGUE, 0);
    JoinRanges(p, 0, end, |p.code|);
  }
}
