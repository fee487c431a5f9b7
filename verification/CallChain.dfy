// CreateCallChainMethod: complexity + 5 pairs of calls, to Math.Abs and to StaticComplexWork.
module CallChain {
  import opened Int32
  import opened Words
  import opened StaticWork
  import opened IL
  import opened ILTyping
  import opened ILGenerator

  const RESULT: nat := 0

  // ----- The emitted code -----

  const PROLOGUE: seq<Instr> := [Ldarg0, Stloc(RESULT)]
  const EPILOGUE: seq<Instr> := [Ldloc(RESULT), Ret]

  function AbsCode(i: nat): (r: seq<Instr>)
    ensures |r| == 5
  {
    [Ldloc(RESULT), LdcI4(i * 17 - 100), Mul, Call(MathAbs), Stloc(RESULT)]
  }

  function WorkCode(i: nat): (r: seq<Instr>)
    ensures |r| == 4
  {
    [Ldloc(RESULT), LdcI4(i), Call(StaticComplexWork), Stloc(RESULT)]
  }

  function Body(i: nat): (r: seq<Instr>)
    ensures |r| == 9
  {
    AbsCode(i) + WorkCode(i)
  }

  function Emitted(k: nat): seq<Instr> {
    PROLOGUE + Repeat(Body, k)
  }

  function CallChainProgram(complexity: nat): Program {
    Program(Emitted(complexity + 5) + EPILOGUE, [], 1)
  }

  // ----- Emission -----

  lemma EmittedNext(k: nat)
    ensures |Emitted(k)| == 2 + 9 * k
    ensures Emitted(k + 1) == Emitted(k) + Body(k)
  {
    RepeatLength(Body, k, 9);
  }

  method EmitPair(il: Generator, result: nat, i: nat)
    requires result == RESULT
    modifies il`code
    ensures il.code == old(il.code) + Body(i)
  {
    il.Emit(Ldloc(result));
    il.Emit(LdcI4(i * 17 - 100));
    il.Emit(Mul);
    il.Emit(Call(MathAbs));
    il.Emit(Stloc(result));
    assert il.code == old(il.code) + AbsCode(i);

    il.Emit(Ldloc(result));
    il.Emit(LdcI4(i));
    il.Emit(Call(StaticComplexWork));
    il.Emit(Stloc(result));
  }

  method CreateCallChainMethod(complexity: nat) returns (m: Program)
    ensures m == CallChainProgram(complexity)
  {
    var il := new Generator();
    var result := il.DeclareLocal();
    il.Emit(Ldarg0);
    il.Emit(Stloc(result));
    assert il.code == Emitted(0);
    for i := 0 to complexity + 5
      invariant il.code == Emitted(i) && il.labels == [] && il.locals == 1 && il.regions == [] && il.open == []
    {
      EmittedNext(i);
      EmitPair(il, result, i);
    }
    il.Emit(Ldloc(result));
    il.Emit(Ret);
    assert il.code == CallChainProgram(complexity).code;
    NoBranches(complexity);
    hide Baked, AllLinked, HasLabel;
    BakedPlain(il.code, il.labels);
    BakedUnique(il.code, il.labels, il.code);
    m := il.CreateDelegate();
  }

  lemma NoBranches(complexity: nat)
    ensures forall i :: 0 <= i < |CallChainProgram(complexity).code| ==> !HasLabel(CallChainProgram(complexity).code[i])
  {
    RepeatPlain(complexity + 5);
  }

  lemma {:induction false} RepeatPlain(k: nat)
    ensures forall i :: 0 <= i < |Repeat(Body, k)| ==> !HasLabel(Repeat(Body, k)[i])
  {
    if k > 0 {
      RepeatPlain(k - 1);
    }
  }

  // ----- What it computes -----

  // The product whose absolute value is taken; MIN has none in int32.
  function Product(i: nat, r: int32): int32 {
    Wrap(r * (i * 17 - 100))
  }

  function Next(i: nat, r: int32): int32
    requires i <= MAX && Product(i, r) != MIN
  {
    Work(if Product(i, r) < 0 then -Product(i, r) else Product(i, r), i)
  }

  // The outcome of pairs i, i + 1, ..., n - 1 from result r.
  function Chain(i: nat, n: nat, r: int32): State
    requires i <= n <= MAX
    decreases n - i
  {
    if i == n then Returned(r)
    else if Product(i, r) == MIN then Escaped(Overflow)
    else Chain(i + 1, n, Next(i, r))
  }

  // If 2^n divides r * k and r is below 2^a, then k supplies at least n - a + 1 of the factors 2.
  lemma {:induction false} FactorsOfTwo(r: nat, k: int, a: nat, n: nat, m: int) returns (q: int)
    requires 0 < r < Pow2(a) && n + 1 >= a && r * k == m * Pow2(n)
    ensures k == q * Pow2(n + 1 - a)
    decreases a + n
  {
    if n + 1 == a {
      q := k;
    } else {
      var h := m * Pow2(n - 1);
      Doubled(m, Pow2(n - 1));
      if r % 2 == 0 {
        HalfProduct(r, k, h);
        q := FactorsOfTwo(r / 2, k, a - 1, n - 1, m);
      } else {
        OddTimes(r, k, h);
        HalfProduct(k, r, h);
        q := FactorsOfTwo(r, k / 2, a, n - 1, m);
        Doubled(q, Pow2(n - a));
      }
    }
  }

  lemma Doubled(x: int, y: int)
    ensures x * (2 * y) == 2 * (x * y)
  {
  }

  lemma HalfProduct(x: int, y: int, z: int)
    requires x % 2 == 0 && x * y == 2 * z
    ensures x / 2 * y == z == y * (x / 2)
  {
    var h := x / 2;
    assert x == 2 * h;
    assert x * y == 2 * (h * y);
  }

  lemma OddTimes(r: int, k: int, z: int)
    requires r % 2 == 1 && r * k == 2 * z
    ensures k % 2 == 0
  {
    var h := r / 2;
    assert r == 2 * h + 1;
    assert r * k == 2 * (h * k) + k;
  }

  // A result below 1000000 has at most 19 factors 2, so its product with 17 * i - 100 can only be congruent
  // to 2^31 when 4096 divides 17 * i - 100; 241 inverts 17 modulo 4096.
  lemma LaterOverflow(i: nat, r: int32)
    requires 0 <= r < BOUND && Product(i, r) == MIN
    ensures i % 4096 == 3620
  {
    var k := i * 17 - 100;
    var m := OddOf31(r * k);
    PowersOfTwo();
    hide Pow2, Product;
    assert r != 0;
    var q := FactorsOfTwo(r, k, 20, 31, m);
    InverseOf17(i, q);
  }

  lemma OddOf31(x: int) returns (m: int)
    requires Wrap(x) == MIN
    ensures x == m * Pow2(31) && x != 0
  {
    PowersOfTwo();
    hide Pow2;
    var w := WrapWitness(x);
    m := -1 - 2 * w;
  }

  lemma InverseOf17(i: nat, q: int)
    requires i * 17 - 100 == q * 4096
    ensures i % 4096 == 3620
  {
    assert i - 3620 == 4096 * (241 * q - (i - 5));
  }

  lemma PowersOfTwo()
    ensures Pow2(12) == 4096 && Pow2(20) == 0x10_0000 && Pow2(31) == 0x8000_0000
  {
    assert Pow2(4) == 16;
    assert Pow2(8) == 16 * Pow2(4);
    assert Pow2(12) == 16 * Pow2(8);
    assert Pow2(16) == 16 * Pow2(12);
    assert Pow2(20) == 16 * Pow2(16);
    assert Pow2(24) == 16 * Pow2(20);
    assert Pow2(28) == 16 * Pow2(24);
    assert Pow2(31) == 8 * Pow2(28);
  }

  // Up to pair 3620 a bounded result stays bounded and no product overflows.
  lemma {:induction false} ChainBounded(i: nat, n: nat, r: int32)
    requires i <= n <= 3620 && 0 <= r < BOUND
    ensures Chain(i, n, r).Returned? && 0 <= Chain(i, n, r).v < BOUND
    decreases n - i
  {
    if i < n {
      if Product(i, r) == MIN {
        LaterOverflow(i, r);
      }
      WorkRange(if Product(i, r) < 0 then -Product(i, r) else Product(i, r), i);
      hide Work, Product;
      ChainBounded(i + 1, n, Next(i, r));
    }
  }

  // -100 * arg is congruent to -2^31 exactly when arg is an odd multiple of 2^29.
  lemma FirstOverflow(arg: int32)
    ensures Product(0, arg) == MIN <==> arg % 0x4000_0000 == 0x2000_0000
  {
    var q := arg / 0x4000_0000;
    var a := arg % 0x4000_0000;
    assert Product(0, arg) == Wrap(-100 * a - (25 * q) * MODULUS);
    WrapShift(-100 * a, -(25 * q));
    OddMultiple(a);
  }

  lemma OddMultiple(a: int)
    requires 0 <= a < 0x4000_0000
    ensures Wrap(-100 * a) == MIN <==> a == 0x2000_0000
  {
    if Wrap(-100 * a) == MIN {
      var k := WrapWitness(-100 * a);
      assert 25 * a == 0x2000_0000 * (1 + 2 * k);
      // 25 * 42949673 == 1 + 2 * 2^29, so 2^29 divides a.
      assert a == 0x2000_0000 * (42949673 * (1 + 2 * k) - 2 * a);
    }
  }

  lemma AbsEffect(i: nat, arg: int32, r: int32)
    ensures ExecBlock(AbsCode(i), arg, Nil, [r], 3) == Frame(Cons(Num(Product(i, r)), Nil), [r])
  {
    assert ExecBlock(AbsCode(i), arg, Nil, [r], 3) == Frame(Cons(Num(Wrap(r * Wrap(i * 17 - 100))), Nil), [r]);
    WrapMul(r, i * 17 - 100);
  }

  lemma WorkEffect(i: nat, arg: int32, x: int32)
    requires i <= MAX
    ensures ExecBlock(WorkCode(i), arg, Nil, [x], 4) == Frame(Nil, [Work(x, i)])
  {
    hide Work;
    assert ExecBlock(WorkCode(i), arg, Nil, [x], 3) == Frame(Cons(Num(Work(x, i)), Nil), [x]);
  }

  // One pair: it raises when the product has no absolute value, otherwise it stores the next result.
  lemma RunPair(p: Program, arg: int32, at: nat, i: nat, r: int32)
    requires p.regions == [] && i <= MAX && HasBlock(p, at, Body(i))
    ensures Product(i, r) == MIN ==> Run(p, arg, Running(at, Nil, [r]), 4) == Escaped(Overflow)
    ensures Product(i, r) != MIN ==> Run(p, arg, Running(at, Nil, [r]), 9) == Running(at + 9, Nil, [Next(i, r)])
  {
    hide Run, Step, HasBlock, ExecBlock, Product, AbsCode, WorkCode, Work;
    var v := Product(i, r);
    SubBlock(p, at, AbsCode(i), WorkCode(i));
    AbsEffect(i, arg, r);
    AbsTail(i);
    if v == MIN {
      RunEscape(p, arg, at, AbsCode(i), Nil, [r], 3, Overflow);
    } else {
      var a := if v < 0 then -v else v;
      ExecNext(AbsCode(i), arg, Nil, [r], 3, Cons(Num(v), Nil), [r]);
      ExecNext(AbsCode(i), arg, Nil, [r], 4, Cons(Num(a), Nil), [r]);
      assert ExecBlock(AbsCode(i), arg, Nil, [r], 5) == Frame(Nil, [a]);
      RunBlock(p, arg, at, AbsCode(i), Nil, [r], 5);
      WorkEffect(i, arg, a);
      WorkLength(i);
      RunBlock(p, arg, at + 5, WorkCode(i), Nil, [a], 4);
      RunAdd(p, arg, Running(at, Nil, [r]), 5, 4);
      assert Next(i, r) == Work(a, i);
    }
  }

  lemma AbsTail(i: nat)
    ensures |AbsCode(i)| == 5 && AbsCode(i)[3] == Call(MathAbs) && AbsCode(i)[4] == Stloc(RESULT)
  {}

  lemma WorkLength(i: nat)
    ensures |WorkCode(i)| == 4
  {}

  lemma CodeBlocks(complexity: nat)
    ensures var p := CallChainProgram(complexity);
            && HasBlock(p, 0, PROLOGUE) && HasBlock(p, 2, Repeat(Body, complexity + 5))
            && HasBlock(p, 2 + 9 * (complexity + 5), EPILOGUE) && |p.code| == 4 + 9 * (complexity + 5)
            && p.regions == [] && p.locals == 1
  {
    hide HasBlock, Repeat, PROLOGUE, EPILOGUE;
    var p := CallChainProgram(complexity);
    EndLengths();
    EmittedNext(complexity + 5);
    WholeBlock(p, Emitted(complexity + 5) + EPILOGUE);
    SubBlock(p, 0, Emitted(complexity + 5), EPILOGUE);
    SubBlock(p, 0, PROLOGUE, Repeat(Body, complexity + 5));
  }

  lemma EndLengths()
    ensures |PROLOGUE| == 2 && |EPILOGUE| == 2
  {}

  lemma PairAt(complexity: nat, i: nat)
    requires i < complexity + 5
    ensures HasBlock(CallChainProgram(complexity), 2 + 9 * i, Body(i))
  {
    CodeBlocks(complexity);
    hide HasBlock, CallChainProgram;
    RepeatBlock(CallChainProgram(complexity), 2, Body, complexity + 5, 9, i);
  }

  // The code, instruction by instruction.
  lemma CallChainListing(complexity: nat, i: nat)
    ensures var p := CallChainProgram(complexity);
            && p.locals == 1 && p.regions == [] && |p.code| == 49 + 9 * complexity
            && HasBlock(p, 0, [Ldarg0, Stloc(0)]) && HasBlock(p, 47 + 9 * complexity, [Ldloc(0), Ret])
    ensures i < complexity + 5 ==>
              HasBlock(CallChainProgram(complexity), 2 + 9 * i,
                       [Ldloc(0), LdcI4(17 * i - 100), Mul, Call(MathAbs), Stloc(0),
                        Ldloc(0), LdcI4(i), Call(StaticComplexWork), Stloc(0)])
  {
    CodeBlocks(complexity);
    if i < complexity + 5 {
      PairAt(complexity, i);
      PairListing(i);
    }
    hide HasBlock, CallChainProgram, Body, Repeat;
  }

  lemma PairListing(i: nat)
    ensures Body(i) == [Ldloc(0), LdcI4(17 * i - 100), Mul, Call(MathAbs), Stloc(0),
                        Ldloc(0), LdcI4(i), Call(StaticComplexWork), Stloc(0)]
  {}

  // From pair i on, the program has the outcome of the chain.
  lemma {:induction false} RunPairs(p: Program, arg: int32, complexity: nat, i: nat, r: int32) returns (n: nat)
    requires p == CallChainProgram(complexity) && i <= complexity + 5 <= MAX
    ensures Run(p, arg, Running(2 + 9 * i, Nil, [r]), n) == Chain(i, complexity + 5, r)
    decreases complexity + 5 - i
  {
    hide HasBlock, CallChainProgram, Run, Step, Product, Next, Body;
    if i == complexity + 5 {
      CodeBlocks(complexity);
      RunReturn(p, arg, 2 + 9 * i, RESULT, [r]);
      n := 2;
    } else {
      PairAt(complexity, i);
      PairLocals(complexity);
      RunPair(p, arg, 2 + 9 * i, i, r);
      if Product(i, r) == MIN {
        n := 4;
      } else {
        var m := RunPairs(p, arg, complexity, i + 1, Next(i, r));
        n := 9 + m;
        RunAdd(p, arg, Running(2 + 9 * i, Nil, [r]), 9, m);
      }
    }
  }

  lemma PairLocals(complexity: nat)
    ensures CallChainProgram(complexity).regions == []
  {}

  lemma RunPrologue(p: Program, arg: int32)
    requires HasBlock(p, 0, PROLOGUE) && p.locals == 1
    ensures Run(p, arg, Initial(p), 2) == Running(2, Nil, [arg])
  {
    assert Initial(p).locals == [0];
    assert ExecBlock(PROLOGUE, arg, Nil, [0], 2) == Frame(Nil, [arg]);
    hide Run, Step, Exec, ExecBlock, HasBlock;
    RunBlock(p, arg, 0, PROLOGUE, Nil, [0], 2);
  }

  lemma {:induction false} ChainHalts(i: nat, n: nat, r: int32)
    requires i <= n <= MAX
    ensures !Chain(i, n, r).Running?
    decreases n - i
  {
    hide Product, Next;
    if i < n && Product(i, r) != MIN {
      ChainHalts(i + 1, n, Next(i, r));
    }
  }

  // Main result: the method's outcome is that of the chain of calls, for every complexity and argument.
  lemma CallChainCorrect(complexity: nat, arg: int32)
    requires complexity + 5 <= MAX
    ensures Finishes(CallChainProgram(complexity), arg, Chain(0, complexity + 5, arg))
  {
    hide HasBlock, CallChainProgram, Run, Step, Chain, Initial;
    var p := CallChainProgram(complexity);
    CodeBlocks(complexity);
    RunPrologue(p, arg);
    var n := RunPairs(p, arg, complexity, 0, arg);
    RunAdd(p, arg, Initial(p), 2, n);
    ChainHalts(0, complexity + 5, arg);
  }

  // For complexity at most 3615 the overflow of Math.Abs escapes exactly when arg is an odd multiple
  // of 2^29, that is for 4 of the 2^32 arguments; otherwise the result lies in [0, 999999].
  lemma CallChainOverflow(complexity: nat, arg: int32)
    requires complexity <= 3615
    ensures arg % 0x4000_0000 == 0x2000_0000 <==> Finishes(CallChainProgram(complexity), arg, Escaped(Overflow))
    ensures arg % 0x4000_0000 != 0x2000_0000 ==>
              exists v: int32 :: 0 <= v < BOUND && Finishes(CallChainProgram(complexity), arg, Returned(v))
  {
    var p, outcome := CallChainProgram(complexity), Chain(0, complexity + 5, arg);
    CallChainCorrect(complexity, arg);
    FirstOverflow(arg);
    assert outcome == if Product(0, arg) == MIN then Escaped(Overflow) else Chain(1, complexity + 5, Next(0, arg));
    if Product(0, arg) != MIN {
      WorkRange(if Product(0, arg) < 0 then -Product(0, arg) else Product(0, arg), 0);
      hide Product, Work, Chain;
      ChainBounded(1, complexity + 5, Next(0, arg));
    }
    hide Product, Next, Finishes, Chain;
    if Finishes(p, arg, Escaped(Overflow)) {
      FinishesUnique(p, arg, outcome, Escaped(Overflow));
    }
  }

  // ----- Round by round -----

  // The results before each of the rounds i, i + 1, ... that the chain enters.
  lemma {:induction false} ChainTrace(i: nat, n: nat, r: int32) returns (t: seq<int32>)
    requires i <= n <= MAX
    ensures 1 <= |t| <= n - i + 1 && t[0] == r
    ensures forall j | 0 <= j < |t| - 1 :: Product(i + j, t[j]) != MIN && t[j + 1] == Next(i + j, t[j])
    ensures Chain(i, n, r) == if |t| == n - i + 1 then Returned(t[n - i]) else Escaped(Overflow)
    ensures |t| < n - i + 1 ==> Product(i + |t| - 1, t[|t| - 1]) == MIN
    decreases n - i
  {
    hide Product, Next;
    if i == n || Product(i, r) == MIN {
      t := [r];
    } else {
      var rest := ChainTrace(i + 1, n, Next(i, r));
      t := [r] + rest;
      forall j | 0 <= j < |t| - 1 ensures Product(i + j, t[j]) != MIN && t[j + 1] == Next(i + j, t[j]) {
        if j > 0 {
          assert t[j] == rest[j - 1] && t[j + 1] == rest[j] && i + j == i + 1 + (j - 1);
        }
      }
      assert t[|t| - 1] == rest[|rest| - 1] && i + |t| - 1 == i + 1 + |rest| - 1;
    }
  }

  lemma RoundOf(i: nat, r: int32)
    ensures Product(i, r) == Wrap(r * (17 * i - 100))
    ensures i <= MAX && Product(i, r) != MIN ==>
              var x := Product(i, r); Next(i, r) == Work(if x >= 0 then x else -x, i)
  {
    hide Work, Wrap;
    assert i * 17 - 100 == 17 * i - 100;
  }

  // The rounds of any call: r[i] is the result before round i.  All c + 5 rounds are made and the last result is
  // returned, unless the product of some round has no absolute value in int32.
  lemma CallChainTrace(complexity: nat, arg: int32) returns (r: seq<int32>)
    requires complexity + 5 <= MAX
    ensures 1 <= |r| <= complexity + 6 && r[0] == arg
    ensures forall i | 0 <= i < |r| - 1 ::
              var x := Wrap(r[i] * (17 * i - 100));
              x != -0x8000_0000 && r[i + 1] == Work(if x >= 0 then x else -x, i)
    ensures |r| == complexity + 6 ==> Finishes(CallChainProgram(complexity), arg, Returned(r[complexity + 5]))
    ensures |r| <= complexity + 5 ==>
              && Wrap(r[|r| - 1] * (17 * (|r| - 1) - 100)) == -0x8000_0000
              && Finishes(CallChainProgram(complexity), arg, Escaped(Overflow))
  {
    hide Finishes, Product, Next, Chain, Work, CallChainProgram, Wrap;
    CallChainCorrect(complexity, arg);
    r := ChainTrace(0, complexity + 5, arg);
    forall i | 0 <= i < |r| ensures Product(i, r[i]) == Wrap(r[i] * (17 * i - 100)) {
      RoundOf(i, r[i]);
    }
    forall i | 0 <= i < |r| - 1
      ensures var x := Wrap(r[i] * (17 * i - 100));
              x != -0x8000_0000 && r[i + 1] == Work(if x >= 0 then x else -x, i)
    {
      RoundOf(i, r[i]);
      assert Product(0 + i, r[i]) != MIN && r[i + 1] == Next(0 + i, r[i]);
    }
  }

  lemma {:induction false} ChainOneMore(i: nat, n: nat, r: int32)
    requires i <= n < MAX
    ensures !Chain(i, n, r).Stuck? && !Chain(i, n, r).Running?
    ensures Chain(i, n, r).Escaped? ==> Chain(i, n + 1, r) == Chain(i, n, r)
    ensures Chain(i, n, r).Returned? ==> Chain(i, n + 1, r) == Chain(n, n + 1, Chain(i, n, r).v)
    decreases n - i
  {
    hide Product, Next;
    if i < n && Product(i, r) != MIN {
      ChainOneMore(i + 1, n, Next(i, r));
    }
  }

  lemma LastRound(n: nat, u: int32)
    requires n < MAX
    ensures Chain(n, n + 1, u) == if Product(n, u) == MIN then Escaped(Overflow) else Returned(Next(n, u))
  {
    hide Product, Next;
  }

  // A round more, in numbers, while nothing overflows.
  lemma RoundLaw(complexity: nat, arg: int32, u: int32)
    requires Finishes(CallChainProgram(complexity), arg, Returned(u)) && 0 <= u <= 999999
    requires var i := complexity + 5;
             var x := if u * (17 * i - 100) >= 0 then u * (17 * i - 100) else -(u * (17 * i - 100));
             3 * x + i <= 0x7fff_ffff && 2999997 + i <= 0x7fff_ffff
    ensures var i := complexity + 5;
            var x := if u * (17 * i - 100) >= 0 then u * (17 * i - 100) else -(u * (17 * i - 100));
            Finishes(CallChainProgram(complexity + 1), arg, Returned((59049 * x + 29524 * i) % 1000000))
  {
    var i := complexity + 5;
    hide Finishes, Product, Next, Chain, CallChainProgram;
    CallChainCorrect(complexity, arg);
    CallChainCorrect(complexity + 1, arg);
    ChainOneMore(0, i, arg);
    FinishesUnique(CallChainProgram(complexity), arg, Chain(0, i, arg), Returned(u));
    LastRound(i, u);
    SmallRound(i, u, u * (17 * i - 100));
  }

  // A round without overflow, whose product is y.
  lemma SmallRound(i: nat, u: int32, y: int)
    requires y == u * (17 * i - 100) && -MAX <= y <= MAX && 2999997 + i <= MAX
    requires 3 * y + i <= MAX && -3 * y + i <= MAX
    ensures Product(i, u) != MIN && Next(i, u) == (59049 * (if y >= 0 then y else -y) + 29524 * i) % 1000000
  {
    RoundOf(i, u);
    Unwrapped(y);
    hide Wrap, Product, Next, Work;
    WorkClosedForm(if y >= 0 then y else -y, i);
  }

  lemma Unwrapped(y: int)
    requires MIN <= y <= MAX
    ensures Wrap(y) == y
  {}

  // The first rounds take a small nonnegative result to one below 1000000.
  lemma EarlyRound(i: nat, u: int32, k: int)
    requires 1 <= i <= 4 && k == 100 - 17 * i && 0 <= u <= 999999
    ensures Product(i, u) != MIN && Next(i, u) == (59049 * (k * u) + 29524 * i) % 1000000
    ensures 0 <= Next(i, u) <= 999999
  {
    assert u * (17 * i - 100) == -(k * u);
    assert 0 <= k * u <= 83 * 999999;
    hide Product, Next;
    SmallRound(i, u, -(k * u));
  }

  // The five rounds of complexity 0, in numbers; argument 1 gives 414544.
  lemma FiveRounds(arg: int32) returns (r1: int32, r2: int32, r3: int32, r4: int32, v: int32)
    requires -7158278 <= arg <= 7158278
    ensures r1 == 59049 * (100 * if arg >= 0 then arg else -arg) % 1000000
    ensures r2 == (59049 * (83 * r1) + 29524 * 1) % 1000000
    ensures r3 == (59049 * (66 * r2) + 29524 * 2) % 1000000
    ensures r4 == (59049 * (49 * r3) + 29524 * 3) % 1000000
    ensures v == (59049 * (32 * r4) + 29524 * 4) % 1000000
    ensures Finishes(CallChainProgram(0), arg, Returned(v))
  {
    hide Finishes, Product, Next, Chain, CallChainProgram;
    CallChainCorrect(0, arg);
    SmallRound(0, arg, -100 * arg);
    r1 := Next(0, arg);
    EarlyRound(1, r1, 83);
    r2 := Next(1, r1);
    EarlyRound(2, r2, 66);
    r3 := Next(2, r2);
    EarlyRound(3, r3, 49);
    r4 := Next(3, r3);
    EarlyRound(4, r4, 32);
    v := Next(4, r4);
    ChainOfFive(arg, r1, r2, r3, r4, v);
  }

  lemma CallChainExample()
    ensures Finishes(CallChainProgram(0), 1, Returned(414544))
  {
    hide Finishes, CallChainProgram;
    var r1, r2, r3, r4, v := FiveRounds(1);
    Remainder(59049 * 100, 5, 904900);
    assert r1 == 904900;
    Remainder(4434975557824, 4434975, 557824);
    assert r2 == 557824;
    Remainder(2173970717864, 2173970, 717864);
    assert r3 == 717864;
    Remainder(2077068504036, 2077068, 504036);
    assert r4 == 504036;
    Remainder(952410414544, 952410, 414544);
    assert v == 414544;
  }

  lemma Remainder(x: nat, q: nat, r: nat)
    requires x == 1000000 * q + r && r < 1000000
    ensures x % 1000000 == r
  {}

  lemma ChainOfFive(r0: int32, r1: int32, r2: int32, r3: int32, r4: int32, r5: int32)
    requires Product(0, r0) != MIN && Next(0, r0) == r1 && Product(1, r1) != MIN && Next(1, r1) == r2
    requires Product(2, r2) != MIN && Next(2, r2) == r3 && Product(3, r3) != MIN && Next(3, r3) == r4
    requires Product(4, r4) != MIN && Next(4, r4) == r5
    ensures Chain(0, 5, r0) == Returned(r5)
  {
    hide Product, Next;
    assert Chain(4, 5, r4) == Returned(r5) by { LastRound(4, r4); }
    assert Chain(3, 5, r3) == Chain(4, 5, r4);
    assert Chain(2, 5, r2) == Chain(3, 5, r3);
    assert Chain(1, 5, r1) == Chain(2, 5, r2);
  }

  // ----- It is well formed -----

  lemma AbsPlain(i: nat, target: int)
    ensures PlainBlock(AbsCode(i), 1, target)
  {}

  lemma WorkPlain(i: nat, target: int)
    ensures PlainBlock(WorkCode(i), 1, target)
  {}

  lemma EndsPlain(target: int)
    ensures PlainBlock(PROLOGUE, 1, target) && PlainBlock(EPILOGUE, 1, target)
  {}

  lemma PairChecked(p: Program, at: nat, i: nat)
    requires p.regions == [] && p.locals == 1 && HasBlock(p, at, Body(i)) && EmptyAt(p, at) && at + 9 < |p.code|
    ensures EmptyAt(p, at + 9) && CheckedRange(p, at, at + 9)
  {
    hide HasBlock, EmptyAt, PlainBlock, CheckedRange, AbsCode, WorkCode;
    SubBlock(p, at, AbsCode(i), WorkCode(i));
    AbsPlain(i, at);
    WorkPlain(i, at);
    PlainBlockTypes(p, at, AbsCode(i), at);
    PlainBlockChecked(p, at, AbsCode(i), at);
    PlainBlockTypes(p, at + 5, WorkCode(i), at);
    PlainBlockChecked(p, at + 5, WorkCode(i), at);
    JoinRanges(p, at, at + 5, at + 9);
  }

  lemma {:induction false} PairsChecked(complexity: nat, k: nat)
    requires k <= complexity + 5
    ensures var p := CallChainProgram(complexity);
            EmptyAt(p, 2 + 9 * k) && CheckedRange(p, 0, 2 + 9 * k)
  {
    hide HasBlock, EmptyAt, TypeAt, PlainBlock, Checked, CheckedRange, CallChainProgram, Body;
    var p := CallChainProgram(complexity);
    CodeBlocks(complexity);
    if k == 0 {
      StartsEmpty(p);
      EndsPlain(0);
      PlainBlockTypes(p, 0, PROLOGUE, 0);
      PlainBlockChecked(p, 0, PROLOGUE, 0);
    } else {
      PairsChecked(complexity, k - 1);
      PairAt(complexity, k - 1);
      PairChecked(p, 2 + 9 * (k - 1), k - 1);
      JoinRanges(p, 0, 2 + 9 * (k - 1), 2 + 9 * k);
    }
  }

  // For every complexity the emitted method is well formed.
  lemma CallChainVerified(complexity: nat)
    ensures Verified(CallChainProgram(complexity))
  {
    hide HasBlock, EmptyAt, TypeAt, PlainBlock, Checked, CheckedRange, CallChainProgram;
    var p, end := CallChainProgram(complexity), 2 + 9 * (complexity + 5);
    PairsChecked(complexity, complexity + 5);
    CodeBlocks(complexity);
    EndsPlain(0);
    StartsEmpty(p);
    PlainBlockChecked(p, end, EPILOGUE, 0);
    JoinRanges(p, 0, end, |p.code|);
  }
}
