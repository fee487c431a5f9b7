/** The remaining stress drivers: the five-function call cycle of extreme_complexity.c and the simplified library. */
module BoundedStress {
  import opened Int32
  import opened Words
  import opened Sums
  import opened RecursionShape

  const LIMIT: int := 1_000_000

  // ------------------------------------------------------------------ shapes

  function Levels(depth: int): nat {
    if depth > 0 then depth else 0
  }

  function NextFunction(which: nat): nat {
    if which == 5 then 1 else which + 1
  }

  /** How often function `which` of the cycle is to mark and clear its thread. */
  function OwnMarks(which: nat): nat {
    if which == 2 then 10 else if which == 3 || which == 4 then 1 else 0
  }

  function CycleMarks(which: nat, depth: int): nat
    decreases Levels(depth)
  {
    if depth <= 0 then 0 else OwnMarks(which) + CycleMarks(NextFunction(which), depth - 1)
  }

  /** Every five levels go once round the cycle. */
  lemma FiveLevels(which: nat, depth: nat)
    requires 1 <= which <= 5
    ensures CycleMarks(which, depth + 5) == CycleMarks(which, depth) + 12
    decreases depth
  {
    if depth > 0 {
      FiveLevels(NextFunction(which), depth - 1);
    } else {
      var w1 := NextFunction(which);
      var w2 := NextFunction(w1);
      var w3 := NextFunction(w2);
      var w4 := NextFunction(w3);
      assert CycleMarks(w4, 1) == OwnMarks(w4);
      assert CycleMarks(w2, 3) == OwnMarks(w2) + OwnMarks(w3) + OwnMarks(w4);
    }
  }

  lemma {:induction false} WholeCycles(which: nat, n: nat)
    requires 1 <= which <= 5
    ensures CycleMarks(which, 5 * n) == 12 * n
    decreases n
  {
    if n > 0 {
      WholeCycles(which, n - 1);
      FiveLevels(which, 5 * (n - 1));
    }
  }

  /** Marks made round the cycle: 12 for every five levels, and what the first functions of an unfinished round make. */
  lemma {:induction false} CycleTable(which: nat, depth: int)
    requires 1 <= which <= 5
    ensures depth <= 0 ==> Levels(depth) == 0 && CycleMarks(which, depth) == 0
    ensures depth > 0 ==>
              && Levels(depth) == depth
              && CycleMarks(which, depth) == 12 * (depth / 5) +
                 match which
                 case 1 => [0, 0, 10, 11, 12][depth % 5]
                 case 2 => [0, 10, 11, 12, 12][depth % 5]
                 case 3 => [0, 1, 2, 2, 2][depth % 5]
                 case 4 => [0, 1, 1, 1, 11][depth % 5]
                 case _ => [0, 0, 0, 10, 11][depth % 5]
    decreases Levels(depth)
  {
    if depth > 0 {
      var next := NextFunction(which);
      CycleTable(next, depth - 1);
      assert CycleMarks(which, depth) == OwnMarks(which) + CycleMarks(next, depth - 1);
      hide CycleMarks;
      DepthDown(depth);
    }
  }

  lemma DepthDown(depth: int)
    requires depth > 0
    ensures if depth % 5 == 0 then (depth - 1) % 5 == 4 && (depth - 1) / 5 == depth / 5 - 1
            else (depth - 1) % 5 == depth % 5 - 1 && (depth - 1) / 5 == depth / 5
  {
  }

  lemma {:induction false} XorBelow(a: nat, b: nat, k: nat)
    requires a < Pow2(k) && b < Pow2(k)
    ensures Xor(a, b) < Pow2(k)
    decreases k
  {
    if k > 0 {
      XorBelow(a / 2, b / 2, k - 1);
    }
  }

  lemma Twenty()
    ensures Pow2(20) == 0x10_0000
  {
    assert Pow2(4) == 16;
    assert Pow2(8) == 16 * Pow2(4);
    assert Pow2(12) == 16 * Pow2(8);
    assert Pow2(16) == 16 * Pow2(12);
    assert Pow2(20) == 16 * Pow2(16);
  }

  /** Frames of `simple_register_chain_c`: one recursive call per level, below the depth limit. */
  function SimpleFrames(depth: int): nat {
    if 1 < depth <= 5 then depth else 1
  }

  /** Frames over that many rounds of 3, 4, 5, 3, 4, 5, ... */
  function SimpleRounds(rounds: nat): nat {
    4 * rounds - if rounds % 3 == 0 then 0 else 1
  }

  /** One round: it adds its first result, mixes in its second, triples and adds its third, reducing each time. */
  function AfterRound(total: nat, r: (nat, nat, nat)): int {
    (Xor((total + r.0) % 1000000, r.1) % 1000000 * 3 + r.2) % 1000000
  }

  predicate Follows(totals: seq<nat>, results: seq<(nat, nat, nat)>) {
    |totals| == |results| + 1 && forall i | 0 <= i < |results| :: totals[i + 1] == AfterRound(totals[i], results[i])
  }

  lemma FollowsLaw(totals: seq<nat>, results: seq<(nat, nat, nat)>)
    requires Follows(totals, results)
    ensures |totals| == |results| + 1
    ensures forall i | 0 <= i < |results| ::
              var (a, b, c) := results[i];
              totals[i + 1] == (Xor((totals[i] + a) % 1000000, b) % 1000000 * 3 + c) % 1000000
  {
    hide Xor;
  }

  lemma NoRounds()
    ensures Follows([0], [])
  {
  }

  lemma NextRound(totals: seq<nat>, results: seq<(nat, nat, nat)>, r: (nat, nat, nat), total: nat)
    requires Follows(totals, results) && total == AfterRound(totals[|results|], r)
    ensures Follows(totals + [total], results + [r])
  {
    hide AfterRound;
  }

  lemma SumReduced(parts: seq<int>, more: int)
    ensures Sum(parts + [more]) % 1000000 == (Sum(parts) % 1000000 + more) % 1000000
  {
    SumNext(parts, more);
    hide Sum;
  }

  /** Activations of the first `n` rounds of the simplified library's signal stress. */
  function SignalFrames(n: nat): nat {
    104 * (n / 6) + [0, 7, 19, 34, 53, 77][n % 6]
  }

  lemma SignalFramesNext(n: nat)
    ensures SignalFrames(0) == 0 && SignalFrames(n + 1) == SignalFrames(n) + SimpleRounds(n % 6 + 2)
  {
  }

  /** Of its extreme stress, and how many totals that adds up. */
  function ExtremeFrames(n: nat): nat {
    if n == 0 then 0
    else ExtremeFrames(n - 1) + SimpleRounds((n - 1) % 8 + 5)
         + if (n - 1) % 3 == 0 then SimpleRounds((n - 1) % 5 + 3) else 0
  }

  function ExtremeParts(n: nat): nat {
    n + (n + 2) / 3
  }

  lemma ExtremeNext(n: nat)
    ensures ExtremeFrames(0) == ExtremeParts(0) == 0
    ensures ExtremeFrames(n + 1)
         == ExtremeFrames(n) + SimpleRounds(n % 8 + 5) + if n % 3 == 0 then SimpleRounds(n % 5 + 3) else 0
    ensures ExtremeParts(n + 1) == ExtremeParts(n) + if n % 3 == 0 then 2 else 1
  {
    hide SimpleRounds;
  }

  lemma ExtremeLow(n: nat)
    requires n <= 10
    ensures ExtremeFrames(n) == [0, 31, 55, 82, 137, 173, 212, 270, 318, 337, 388][n]
  {
    hide ExtremeFrames, ExtremeParts;
    ExtremeNext(0);
    assert ExtremeFrames(1) == 31;
    ExtremeNext(1);
    assert ExtremeFrames(2) == 55;
    ExtremeNext(2);
    assert ExtremeFrames(3) == 82;
    ExtremeNext(3);
    assert ExtremeFrames(4) == 137;
    ExtremeNext(4);
    assert ExtremeFrames(5) == 173;
    ExtremeNext(5);
    assert ExtremeFrames(6) == 212;
    ExtremeNext(6);
    assert ExtremeFrames(7) == 270;
    ExtremeNext(7);
    assert ExtremeFrames(8) == 318;
    ExtremeNext(8);
    assert ExtremeFrames(9) == 337;
    ExtremeNext(9);
    assert ExtremeFrames(10) == 388;
  }

  lemma ExtremeMiddle(n: nat)
    requires 10 <= n <= 15
    ensures ExtremeFrames(n) == [388, 415, 446, 501, 540, 583][n - 10]
  {
    hide ExtremeFrames, ExtremeParts;
    ExtremeLow(10);
    ExtremeNext(10);
    assert ExtremeFrames(11) == 415;
    ExtremeNext(11);
    assert ExtremeFrames(12) == 446;
    ExtremeNext(12);
    assert ExtremeFrames(13) == 501;
    ExtremeNext(13);
    assert ExtremeFrames(14) == 540;
    ExtremeNext(14);
    assert ExtremeFrames(15) == 583;
  }

  lemma ExtremeHigh(n: nat)
    requires 15 <= n <= 20
    ensures ExtremeFrames(n) == [583, 643, 662, 686, 737, 768][n - 15]
  {
    hide ExtremeFrames, ExtremeParts;
    ExtremeMiddle(15);
    ExtremeNext(15);
    assert ExtremeFrames(16) == 643;
    ExtremeNext(16);
    assert ExtremeFrames(17) == 662;
    ExtremeNext(17);
    assert ExtremeFrames(18) == 686;
    ExtremeNext(18);
    assert ExtremeFrames(19) == 737;
    ExtremeNext(19);
    assert ExtremeFrames(20) == 768;
  }

  lemma ExtremeTable(n: nat)
    requires n <= 20
    ensures ExtremeFrames(n) == [0, 31, 55, 82, 137, 173, 212, 270, 318, 337, 388,
                                 415, 446, 501, 540, 583, 643, 662, 686, 737, 768][n]
    ensures ExtremeParts(n) == n + (n + 2) / 3
  {
    hide ExtremeFrames;
    if n <= 10 {
      ExtremeLow(n);
    } else if n <= 15 {
      ExtremeMiddle(n);
    } else {
      ExtremeHigh(n);
    }
  }

  // ------------------------------------------------------------------ the code

  class Stress {
    const tally: Tally

    constructor (t: Tally)
      ensures tally == t
    {
      tally := t;
    }

    /** What every call of the cycle does to the tally. */
    twostate predicate Ran(which: nat, depth: int)
      reads tally
    {
      && tally.activations == old(tally.activations) + Levels(depth) + 1
      && tally.live == old(tally.live)
      && tally.peak == Max(old(tally.peak), old(tally.live) + Levels(depth) + 1)
      && tally.marks == old(tally.marks) + CycleMarks(which, depth)
      && tally.clears == old(tally.clears) + CycleMarks(which, depth)
    }

    /** `extreme_depth_call_1`.  Wherever a function's work folds stack addresses into `base`, the word it passes on
      * is arbitrary. */
    method ExtremeDepthCall1(base: nat, depth: int) returns (r: int32)
      modifies tally
      ensures Ran(1, depth) && 0 <= r <= 0xFFFF && (depth <= 0 ==> r == base % 65536)
      ensures tally.activations == old(tally.activations) + if depth > 0 then depth + 1 else 1
      ensures tally.marks - old(tally.marks) == tally.clears - old(tally.clears)
           == if depth > 0 then 12 * (depth / 5) + [0, 0, 10, 11, 12][depth % 5] else 0
      decreases Levels(depth)
    {
      CycleTable(1, depth);
      tally.Enter();
      if depth <= 0 {
        tally.Leave();
        return base % 0x1_0000;
      }
      var computation: nat := *;
      r := ExtremeDepthCall2(computation, depth - 1);
      tally.Leave();
    }

    /** `extreme_depth_call_2` marks and clears at every hundredth of its 1000 units of work. */
    method ExtremeDepthCall2(base: nat, depth: int) returns (r: int32)
      modifies tally
      ensures Ran(2, depth) && 0 <= r <= 0xFFFF && (depth <= 0 ==> r == base % 65536)
      ensures tally.activations == old(tally.activations) + if depth > 0 then depth + 1 else 1
      ensures tally.marks - old(tally.marks) == tally.clears - old(tally.clears)
           == if depth > 0 then 12 * (depth / 5) + [0, 10, 11, 12, 12][depth % 5] else 0
      decreases Levels(depth)
    {
      CycleTable(2, depth);
      hide Xor;
      tally.Enter();
      if depth <= 0 {
        tally.Leave();
        return base % 0x1_0000;
      }
      var word := base;
      for j := 0 to 1000
        invariant tally.marks == old(tally.marks) + (j + 99) / 100
        invariant tally.clears == old(tally.clears) + (j + 99) / 100
        invariant tally.activations == old(tally.activations) + 1 && tally.live == old(tally.live) + 1
        invariant tally.peak == Max(old(tally.peak), old(tally.live) + 1)
      {
        if j % 100 == 0 {
          tally.Mark();
          var temp: nat := *;
          tally.Clear();
          word := Xor(word, temp);
        }
      }
      r := ExtremeDepthCall3(word, depth - 1);
      tally.Leave();
    }

    /** `extreme_depth_call_3` marks once around its 10 layers of work. */
    method ExtremeDepthCall3(base: nat, depth: int) returns (r: int32)
      modifies tally
      ensures Ran(3, depth) && 0 <= r <= 0xFFFF && (depth <= 0 ==> r == base % 65536)
      ensures tally.activations == old(tally.activations) + if depth > 0 then depth + 1 else 1
      ensures tally.marks - old(tally.marks) == tally.clears - old(tally.clears)
           == if depth > 0 then 12 * (depth / 5) + [0, 1, 2, 2, 2][depth % 5] else 0
      decreases Levels(depth)
    {
      CycleTable(3, depth);
      tally.Enter();
      if depth <= 0 {
        tally.Leave();
        return base % 0x1_0000;
      }
      tally.Mark();
      var nested: nat := *;
      tally.Clear();
      r := ExtremeDepthCall4(nested, depth - 1);
      tally.Leave();
    }

    /** `extreme_depth_call_4` marks once around its 20 layers of 1000 units of work. */
    method ExtremeDepthCall4(base: nat, depth: int) returns (r: int32)
      modifies tally
      ensures Ran(4, depth) && 0 <= r <= 0xFFFF && (depth <= 0 ==> r == base % 65536)
      ensures tally.activations == old(tally.activations) + if depth > 0 then depth + 1 else 1
      ensures tally.marks - old(tally.marks) == tally.clears - old(tally.clears)
           == if depth > 0 then 12 * (depth / 5) + [0, 1, 1, 1, 11][depth % 5] else 0
      decreases Levels(depth)
    {
      CycleTable(4, depth);
      hide Xor;
      tally.Enter();
      if depth <= 0 {
        tally.Leave();
        return base % 0x1_0000;
      }
      tally.Mark();
      var word := base;
      for layer := 0 to 20 {
        for work := 0 to 1000 {
          if work % 100 == 0 {
            var complexity: nat := *;
            word := Xor(word, complexity);
          }
        }
      }
      tally.Clear();
      r := ExtremeDepthCall5(word, depth - 1);
      tally.Leave();
    }

    /** `extreme_depth_call_5` closes the cycle. */
    method ExtremeDepthCall5(base: nat, depth: int) returns (r: int32)
      modifies tally
      ensures Ran(5, depth) && 0 <= r <= 0xFFFF && (depth <= 0 ==> r == base % 65536)
      ensures tally.activations == old(tally.activations) + if depth > 0 then depth + 1 else 1
      ensures tally.marks - old(tally.marks) == tally.clears - old(tally.clears)
           == if depth > 0 then 12 * (depth / 5) + [0, 0, 0, 10, 11][depth % 5] else 0
      decreases Levels(depth)
    {
      CycleTable(5, depth);
      hide Xor;
      tally.Enter();
      if depth <= 0 {
        tally.Leave();
        return base % 0x1_0000;
      }
      var frame: nat := *;
      r := ExtremeDepthCall1(Xor(base, frame), depth - 1);
      tally.Leave();
    }

    /** `create_extreme_signal_analysis_stress`: every intermediate value fits an int, the total stays below
      * 1000000, and each round marks and clears exactly 144 times.  `results` are what the three calls of each round
      * returned, `totals` the total before each round and at the end. */
    method CreateExtremeSignalAnalysisStress(iterations: int)
      returns (total: int32, ghost results: seq<(nat, nat, nat)>, ghost totals: seq<nat>)
      modifies tally
      ensures 0 <= total < 1000000
      ensures |results| == (if iterations > 0 then iterations else 0) && |totals| == |results| + 1
      ensures totals[0] == 0 && total == totals[|results|]
      ensures forall i | 0 <= i < |results| ::
                var (a, b, c) := results[i];
                && a <= 65535 && b <= 65535 && c <= 65535
                && totals[i + 1] == (Xor((totals[i] + a) % 1000000, b) % 1000000 * 3 + c) % 1000000
      ensures tally.live == old(tally.live)
      ensures iterations > 0 ==>
                && tally.marks == old(tally.marks) + 144 * iterations
                && tally.clears == old(tally.clears) + 144 * iterations
                && tally.activations == old(tally.activations) + 63 * iterations
                && tally.peak == Max(old(tally.peak), old(tally.live) + 26)
    {
      hide Xor, CycleMarks, Pow2, Follows;
      total, results, totals := 0, [], [0];
      Twenty();
      WholeCycles(1, 5);
      WholeCycles(3, 4);
      WholeCycles(4, 3);
      NoRounds();
      for round := 0 to Levels(iterations)
        invariant 0 <= total < LIMIT && tally.live == old(tally.live)
        invariant tally.marks == old(tally.marks) + 144 * round && tally.clears == old(tally.clears) + 144 * round
        invariant tally.activations == old(tally.activations) + 63 * round
        invariant round > 0 ==> tally.peak == Max(old(tally.peak), old(tally.live) + 26)
        invariant round == 0 ==> tally.peak == old(tally.peak)
        invariant |results| == round && |totals| == round + 1 && totals[0] == 0 && totals[round] == total
        invariant Follows(totals, results)
        invariant forall i | 0 <= i < round ::
                    results[i].0 <= 65535 && results[i].1 <= 65535 && results[i].2 <= 65535
      {
        var base: nat := *;
        var first := ExtremeDepthCall1(base, 25);
        var sum: int32 := total + first;
        total := sum % LIMIT;
        base := *;
        var second := ExtremeDepthCall3(base, 20);
        XorBelow(total, second, 20);
        var mixed: int32 := Xor(total, second);
        total := mixed % LIMIT;
        base := *;
        var third := ExtremeDepthCall4(base, 15);
        var tripled: int32 := total * 3;
        sum := tripled + third;
        total := sum % LIMIT;
        NextRound(totals, results, (first, second, third), total);
        results, totals := results + [(first, second, third)], totals + [total];
      }
      FollowsLaw(totals, results);
    }

    /** `simple_register_chain_c` */
    method SimpleRegisterChain(ctx: nat, depth: int32, data: nat) returns (r: int32)
      modifies tally
      ensures tally.activations == old(tally.activations) + if 2 <= depth <= 5 then depth else 1
      ensures tally.activations == old(tally.activations) + SimpleFrames(depth)
      ensures tally.live == old(tally.live)
      ensures tally.peak == Max(old(tally.peak), old(tally.live) + SimpleFrames(depth))
      ensures tally.marks == old(tally.marks) && tally.clears == old(tally.clears)
      ensures 0 <= r < 1000000 && (depth <= 0 ==> r == data % 65536)
      decreases Levels(depth)
    {
      hide Xor;
      tally.Enter();
      if depth <= 0 {
        tally.Leave();
        return data % 0x1_0000;
      }
      var frame: nat := *;
      var registers := new nat[6];
      for i := 0 to 6
        modifies registers
      {
        registers[i] := Seed(ctx, depth, data, i);
      }
      var computation: nat := 0;
      for work := 0 to depth * 5
        invariant tally.live == old(tally.live) + 1
        invariant tally.marks == old(tally.marks) && tally.clears == old(tally.clears)
        invariant tally.activations == old(tally.activations) + if work == 0 then 1 else SimpleFrames(depth)
        invariant tally.peak == Max(old(tally.peak), old(tally.live) + if work == 0 then 1 else SimpleFrames(depth))
      {
        computation := Xor(computation, (frame + work % 512) % WORD);
        computation := Xor(computation * 2 % WORD, registers[work % 6]);
        if work % 50 == 0 && depth > 1 && depth <= 5 {
          var sub := SimpleRegisterChain(ctx, depth - 1, Xor(computation, data));
          computation := (computation + sub) % WORD;
        }
      }
      tally.Leave();
      r := computation % LIMIT;
    }

    /** `create_simplified_atypical_stress`: every chain it starts is 3 to 5 frames deep, 4 on average over every three
      * rounds, and its total is the sum of what they returned, modulo 1000000. */
    method CreateSimplifiedAtypicalStress(complexity: int) returns (total: int32, ghost results: seq<int>)
      modifies tally
      ensures |results| == (if complexity > 0 then complexity else 0) && total == Sum(results) % 1000000
      ensures forall i | 0 <= i < |results| :: 0 <= results[i] < 1000000
      ensures 0 <= total < 1000000 && tally.live == old(tally.live)
      ensures tally.peak <= Max(old(tally.peak), old(tally.live) + 5)
      ensures tally.activations == old(tally.activations) + SimpleRounds(Levels(complexity))
      ensures complexity > 0 ==>
                tally.activations
                == old(tally.activations) + 4 * complexity - if complexity % 3 == 0 then 0 else 1
    {
      hide Sum;
      total, results := 0, [];
      SumNone();
      for round := 0 to Levels(complexity)
        invariant 0 <= total < LIMIT && tally.live == old(tally.live)
        invariant tally.peak <= Max(old(tally.peak), old(tally.live) + 5)
        invariant tally.activations == old(tally.activations) + SimpleRounds(round)
        invariant |results| == round && total == Sum(results) % 1000000
        invariant forall i | 0 <= i < round :: 0 <= results[i] < 1000000
      {
        var context: nat := *;
        var result := SimpleRegisterChain(context, round % 3 + 3, context);
        var sum: int32 := total + result;
        total := sum % LIMIT;
        SumReduced(results, result);
        results := results + [result];
      }
    }

    /** `create_signal_stress_scenario` of the simplified library: at most 100 rounds, whose totals it adds up. */
    method CreateSignalStressScenario(iterations: int) returns (r: int32, ghost parts: seq<int>)
      modifies tally
      ensures 0 <= r < 1000000 && r == Sum(parts) % 1000000
      ensures tally.live == old(tally.live) && tally.peak <= Max(old(tally.peak), old(tally.live) + 5)
      ensures |parts| == if iterations <= 0 then 0 else if iterations <= 100 then iterations else 100
      ensures forall i | 0 <= i < |parts| :: 0 <= parts[i] < 1000000
      ensures var n := |parts|;
              tally.activations == old(tally.activations) + 104 * (n / 6) + [0, 7, 19, 34, 53, 77][n % 6]
    {
      hide Sum, SimpleRounds;
      var total: int32 := 0;
      var i: int32 := 0;
      parts := [];
      SumNone();
      SignalFramesNext(0);
      while i < iterations && i < 100
        invariant 0 <= i <= 100 && 0 <= total <= i * (LIMIT - 1) && (i == 0 || i <= iterations)
        invariant |parts| == i && total == Sum(parts)
        invariant tally.live == old(tally.live) && tally.peak <= Max(old(tally.peak), old(tally.live) + 5)
        invariant forall j | 0 <= j < i :: 0 <= parts[j] < 1000000
        invariant tally.activations == old(tally.activations) + SignalFrames(i)
      {
        SignalFramesNext(i);
        var more, results := CreateSimplifiedAtypicalStress(i % 6 + 2);
        total := total + more;
        SumNext(parts, more);
        parts := parts + [more];
        i := i + 1;
      }
      r := total % LIMIT;
    }

    /** `create_extreme_signal_analysis_stress` of the simplified library: at most 20 rounds, every third of them twice
      * as long. */
    method CreateSimplifiedExtremeStress(iterations: int) returns (r: int32, ghost parts: seq<int>)
      modifies tally
      ensures 0 <= r < 1000000 && r == Sum(parts) % 1000000
      ensures tally.live == old(tally.live) && tally.peak <= Max(old(tally.peak), old(tally.live) + 5)
      ensures var n := if iterations <= 0 then 0 else if iterations <= 20 then iterations else 20;
              && |parts| == n + (n + 2) / 3
              && tally.activations == old(tally.activations) +
                 [0, 31, 55, 82, 137, 173, 212, 270, 318, 337, 388,
                  415, 446, 501, 540, 583, 643, 662, 686, 737, 768][n]
      ensures forall i | 0 <= i < |parts| :: 0 <= parts[i] < 1000000
    {
      hide Sum, SimpleRounds, ExtremeFrames, ExtremeParts;
      var total: int32 := 0;
      var round: int32 := 0;
      parts := [];
      SumNone();
      ExtremeNext(0);
      while round < iterations && round < 20
        invariant 0 <= round <= 20 && 0 <= total <= 2 * round * (LIMIT - 1) && (round == 0 || round <= iterations)
        invariant |parts| == ExtremeParts(round) && total == Sum(parts)
        invariant tally.live == old(tally.live) && tally.peak <= Max(old(tally.peak), old(tally.live) + 5)
        invariant forall j | 0 <= j < |parts| :: 0 <= parts[j] < 1000000
        invariant tally.activations == old(tally.activations) + ExtremeFrames(round)
      {
        ExtremeNext(round);
        var more, results := CreateSimplifiedAtypicalStress(round % 8 + 5);
        total := total + more;
        SumNext(parts, more);
        parts := parts + [more];
        if round % 3 == 0 {
          more, results := CreateSimplifiedAtypicalStress(round % 5 + 3);
          total := total + more;
          SumNext(parts, more);
          parts := parts + [more];
        }
        round := round + 1;
      }
      ExtremeTable(round);
      r := total % LIMIT;
    }
  }
}
