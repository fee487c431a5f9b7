// GenerateDynamicMethods and the calls that workers make: the five emitters together.
module DynamicMethods {
  import opened Int32
  import opened IL
  import opened ILTyping
  import Arithmetic
  import ExceptionHandling
  import Looping
  import Branching
  import CallChain

  function Complexity(i: nat): (c: nat)
    ensures c <= 10
  {
    if i / 100 < 10 then i / 100 else 10
  }

  // The i-th entry of the method list.
  function MethodAt(i: nat): Program {
    match i % 5
    case 0 => Arithmetic.ArithmeticProgram(Complexity(i))
    case 1 => ExceptionHandling.ExceptionProgram(Complexity(i))
    case 2 => Looping.LoopingProgram(Complexity(i))
    case 3 => Branching.BranchingProgram(Complexity(i))
    case _ => CallChain.CallChainProgram(Complexity(i))
  }

  // Entry by entry: the kind goes by the index modulo 5, the complexity up by one every 100 entries until it is 10.
  lemma MethodLaw(i: nat)
    ensures var c := if i >= 1000 then 10 else i / 100;
            && (i % 5 == 0 ==> MethodAt(i) == Arithmetic.ArithmeticProgram(c))
            && (i % 5 == 1 ==> MethodAt(i) == ExceptionHandling.ExceptionProgram(c))
            && (i % 5 == 2 ==> MethodAt(i) == Looping.LoopingProgram(c))
            && (i % 5 == 3 ==> MethodAt(i) == Branching.BranchingProgram(c))
            && (i % 5 == 4 ==> MethodAt(i) == CallChain.CallChainProgram(c))
  {
    hide Arithmetic.ArithmeticProgram, ExceptionHandling.ExceptionProgram,
         Looping.LoopingProgram, Branching.BranchingProgram, CallChain.CallChainProgram;
  }

  // The switch of the generating loop.
  method CreateMethod(i: nat) returns (m: Program)
    ensures m == MethodAt(i)
  {
    hide Arithmetic.ArithmeticProgram, ExceptionHandling.ExceptionProgram,
         Looping.LoopingProgram, Branching.BranchingProgram, CallChain.CallChainProgram;
    var complexity := if i / 100 < 10 then i / 100 else 10;
    match i % 5 {
      case 0 => m := Arithmetic.CreateComplexArithmeticMethod(complexity);
      case 1 => m := ExceptionHandling.CreateExceptionHandlingMethod(complexity);
      case 2 => m := Looping.CreateLoopingMethod(complexity);
      case 3 => m := Branching.CreateBranchingMethod(complexity);
      case _ => m := CallChain.CreateCallChainMethod(complexity);
    }
  }

  class MethodList {
    var dynamicMethods: seq<Program>

    constructor ()
      ensures dynamicMethods == []
    {
      dynamicMethods := [];
    }

    // Appends max(count, 0) methods; those already in the list stay.
    method GenerateDynamicMethods(count: int)
      modifies this`dynamicMethods
      ensures |dynamicMethods| == |old(dynamicMethods)| + if count > 0 then count else 0
      ensures old(dynamicMethods) <= dynamicMethods
      ensures forall i :: 0 <= i < count ==> dynamicMethods[|old(dynamicMethods)| + i] == MethodAt(i)
    {
      hide MethodAt;
      var i := 0;
      while i < count
        invariant 0 <= i && (i <= count || i == 0)
        invariant |dynamicMethods| == |old(dynamicMethods)| + i && old(dynamicMethods) <= dynamicMethods
        invariant forall j :: 0 <= j < i ==> dynamicMethods[|old(dynamicMethods)| + j] == MethodAt(j)
      {
        var m := CreateMethod(i);
        dynamicMethods := dynamicMethods + [m];
        i := i + 1;
      }
    }
  }

  // What calling the i-th method with arg is meant to do.
  function Outcome(i: nat, arg: int32): State {
    var c := Complexity(i);
    match i % 5
    case 0 => Returned(Arithmetic.Scalar(arg, 10 * c - 10 * c % (c + 5)))
    case 1 => Returned(TruncRem(Wrap(arg * (c + 1)), 100))
    case 2 => Returned(Wrap(arg + Looping.Added(c)))
    case 3 => Returned(Branching.TreeValue(c + 1, 0, arg))
    case _ => CallChain.Chain(0, c + 5, arg)
  }

  // Every generated method is well formed and, on every argument, halts with its outcome.
  lemma MethodCorrect(i: nat, arg: int32)
    ensures Verified(MethodAt(i))
    ensures Finishes(MethodAt(i), arg, Outcome(i, arg))
  {
    var c := Complexity(i);
    hide Verified, Run, Initial, Arithmetic.ArithmeticProgram, ExceptionHandling.ExceptionProgram,
         Looping.LoopingProgram, Branching.BranchingProgram, CallChain.CallChainProgram;
    match i % 5 {
      case 0 =>
        Arithmetic.ArithmeticVerified(c);
        Arithmetic.ArithmeticCorrect(c, arg);
      case 1 =>
        ExceptionHandling.ExceptionVerified(c);
        ExceptionHandling.ExceptionCorrect(c, arg);
      case 2 =>
        Looping.LoopingVerified(c);
        Looping.LoopingCorrect(c, arg);
      case 3 =>
        Branching.BranchingVerified(c);
        Branching.BranchingCorrect(c, arg);
      case _ =>
        CallChain.CallChainVerified(c);
        CallChain.CallChainCorrect(c, arg);
    }
  }

  // Every entry of the list runs to exactly one outcome.
  lemma MethodFinishes(i: nat, arg: int32) returns (s: State)
    ensures Finishes(MethodAt(i), arg, s) && s == Outcome(i, arg)
    ensures forall t :: Finishes(MethodAt(i), arg, t) ==> t == s
  {
    MethodCorrect(i, arg);
    s := Outcome(i, arg);
    hide Finishes, MethodAt, Outcome;
    forall t | Finishes(MethodAt(i), arg, t) ensures t == s {
      FinishesUnique(MethodAt(i), arg, s, t);
    }
  }

  // Three of the five kinds in closed form, from the index alone.
  lemma OutcomeLaw(i: nat, arg: int32) returns (v: int32)
    requires i % 5 <= 2
    ensures Finishes(MethodAt(i), arg, Returned(v))
    ensures var c := if i >= 1000 then 10 else i / 100;
            && (i % 5 == 0 ==> if c == 0 then v == arg else
                  var k := 10 * c - 10 * c % (c + 5);
                  v == (TruncRem(Wrap((arg + 1) * 7), 3) + k * (k + 1) / 2 - 1) % 3)
            && (i % 5 == 1 ==> v == TruncRem(Wrap(arg * (c + 1)), 100))
            && (i % 5 == 2 ==> var m := 50 + 5 * c; v == Wrap(arg + 3 * m * (m - 1)))
  {
    hide Finishes, MethodAt, TruncRem, Wrap, Arithmetic.ArithmeticProgram, ExceptionHandling.ExceptionProgram,
         Looping.LoopingProgram;
    MethodLaw(i);
    var c := if i >= 1000 then 10 else i / 100;
    if i % 5 == 0 {
      v := Arithmetic.ArithmeticReturns(c, arg);
    } else if i % 5 == 1 {
      v := ExceptionHandling.ExceptionReturns(c, arg);
    } else {
      v := Looping.LoopingReturns(c, arg);
    }
  }

  // The argument a worker passes on its k-th iteration.
  function WorkerInput(k: int32, workerId: int32): (r: int32)
    ensures -10000 < r < 10000
  {
    TruncRem(Wrap(k * workerId), 10000)
  }

  // An exception escapes exactly from a call chain called with an odd multiple of 2^29.
  lemma EscapesIff(i: nat, arg: int32)
    ensures Outcome(i, arg).Returned? || Outcome(i, arg) == Escaped(Overflow)
    ensures Outcome(i, arg) == Escaped(Overflow) <==> i % 5 == 4 && arg % 0x4000_0000 == 0x2000_0000
  {
    var c := Complexity(i);
    if i % 5 == 4 {
      var p := CallChain.CallChainProgram(c);
      MethodCorrect(i, arg);
      CallChain.CallChainOverflow(c, arg);
      var outcome := Outcome(i, arg);
      hide Finishes, CallChain.CallChainProgram, CallChain.Chain, Outcome;
      if arg % 0x4000_0000 == 0x2000_0000 {
        FinishesUnique(p, arg, outcome, Escaped(Overflow));
      } else {
        var v: int32 :| Finishes(p, arg, Returned(v));
        FinishesUnique(p, arg, outcome, Returned(v));
      }
    }
  }

  // So no call with a worker's own input raises.
  lemma WorkerCallReturns(i: nat, k: int32, workerId: int32)
    ensures exists v: int32 :: Finishes(MethodAt(i), TruncRem(Wrap(k * workerId), 10000), Returned(v))
  {
    var arg := WorkerInput(k, workerId);
    MethodCorrect(i, arg);
    EscapesIff(i, arg);
    hide Outcome, Finishes, MethodAt, TruncRem, Wrap;
    assert Finishes(MethodAt(i), arg, Returned(Outcome(i, arg).v));
  }
}
