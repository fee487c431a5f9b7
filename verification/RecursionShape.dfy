/** The two bounded recursions of atypical_c_functions.c, with the calls they make counted. */
module RecursionShape {
  import opened Words

  function Max(a: int, b: int): int {
    if a < b then b else a
  }

  function Xor(a: nat, b: nat): nat
    decreases a + b
  {
    if a == 0 && b == 0 then 0 else (if a % 2 == b % 2 then 0 else 1) + 2 * Xor(a / 2, b / 2)
  }

  lemma XorStep(a: nat, b: nat)
    ensures Xor(a, b) % 2 == (if a % 2 == b % 2 then 0 else 1) && Xor(a, b) / 2 == Xor(a / 2, b / 2)
  {
  }

  /** A bit of the exclusive or is set if and only if exactly one of the operands has it. */
  lemma {:induction false} XorLaw(a: nat, b: nat, k: nat)
    ensures Xor(a, b) / Pow2(k) % 2 == 1 <==> a / Pow2(k) % 2 != b / Pow2(k) % 2
    decreases k
  {
    XorStep(a, b);
    hide Xor;
    if k > 0 {
      XorLaw(a / 2, b / 2, k - 1);
      HalfFirst(Xor(a, b), Pow2(k - 1));
      HalfFirst(a, Pow2(k - 1));
      HalfFirst(b, Pow2(k - 1));
    } else {
      assert Pow2(0) == 1;
    }
  }

  /** Initial content of the simulated registers. */
  function Seed(ctx: nat, depth: int, data: nat, i: nat): nat {
    (data + ctx + i * depth) % WORD
  }

  /** A register between two layers. */
  function Scramble(register: nat, nested: nat): nat {
    Xor(register * 7 % WORD, nested)
  }

  // ------------------------------------------------------------------ complex_register_manipulation_chain_c

  /** How many activations a call at this depth causes, itself included. */
  function Activations(depth: int): nat
    decreases if depth > 0 then depth else 0
  {
    if depth < 2 || depth > 10 then 1 else Activations(depth - 1) + 3 * Activations(depth - 2)
  }

  /** How many of them get past the depth test, and so mark and clear the thread. */
  function Marks(depth: int): nat
    decreases if depth > 0 then depth else 0
  {
    if depth <= 0 then 0
    else if depth == 1 || depth > 10 then 1
    else Marks(depth - 1) + 3 * Marks(depth - 2)
  }

  /** The deepest stack of live activations. */
  function Frames(depth: int): nat {
    if depth <= 0 || depth > 10 then 1 else depth / 2 + 1
  }

  // ------------------------------------------------------------------ create_complex_unwind_metadata_scenario

  function Capped(level: int): int {
    if level < 9 then level else 9
  }

  function Scenarios(complexity: int): nat {
    if complexity < 1 then 1 else Pow2(Capped(complexity) - 1)
  }

  function ScenarioMarks(complexity: int): nat {
    if complexity < 1 then 0 else Pow2(Capped(complexity)) - 1 + (complexity - Capped(complexity))
  }

  function ScenarioFrames(complexity: int): nat {
    if complexity < 1 then 1 else Capped(complexity)
  }

  /** The counts of the first recursion, depth by depth.  A call marks as often as a call one level below it makes
    * activations. */
  lemma ChainTable(depth: int)
    ensures Activations(depth)
         == if 0 <= depth <= 10 then [1, 1, 4, 7, 19, 40, 97, 217, 508, 1159, 2683][depth] else 1
    ensures Marks(depth)
         == if 0 <= depth <= 10 then [0, 1, 1, 4, 7, 19, 40, 97, 217, 508, 1159][depth]
            else if depth < 0 then 0 else 1
    ensures Frames(depth) == if 0 <= depth <= 10 then [1, 1, 2, 2, 3, 3, 4, 4, 5, 5, 6][depth] else 1
  {
    assert Activations(3) == 7 && Activations(4) == 19;
    assert Activations(5) == 40 && Activations(6) == 97;
    assert Activations(7) == 217 && Activations(8) == 508;
    assert Activations(9) == 1159 && Activations(10) == 2683;
    assert Marks(3) == 4 && Marks(4) == 7;
    assert Marks(5) == 19 && Marks(6) == 40;
    assert Marks(7) == 97 && Marks(8) == 217;
    assert Marks(9) == 508 && Marks(10) == 1159;
    hide Activations, Marks;
  }

  /** And of the second. */
  lemma ScenarioTable(complexity: int)
    ensures Scenarios(complexity)
         == if complexity <= 0 then 1 else if complexity <= 9 then [1, 1, 2, 4, 8, 16, 32, 64, 128, 256][complexity]
            else 256
    ensures ScenarioMarks(complexity)
         == if complexity <= 0 then 0
            else if complexity <= 9 then [0, 1, 3, 7, 15, 31, 63, 127, 255, 511][complexity]
            else 511 + (complexity - 9)
    ensures ScenarioFrames(complexity) == if complexity <= 1 then 1 else if complexity <= 9 then complexity else 9
  {
    PowersTo9();
    hide Pow2;
  }

  lemma PowersTo9()
    ensures Pow2(0) == 1 && Pow2(1) == 2 && Pow2(2) == 4 && Pow2(3) == 8 && Pow2(4) == 16
    ensures Pow2(5) == 32 && Pow2(6) == 64 && Pow2(7) == 128 && Pow2(8) == 256 && Pow2(9) == 512
  {
    assert Pow2(4) == 2 * Pow2(3) && Pow2(5) == 2 * Pow2(4) && Pow2(6) == 2 * Pow2(5);
    assert Pow2(7) == 2 * Pow2(6) && Pow2(8) == 2 * Pow2(7) && Pow2(9) == 2 * Pow2(8);
  }

  // ------------------------------------------------------------------ counting inside the loops

  /** Calls of `Chain` made so far in one layer: one at work 0, 20 and 40. */
  function CallsMade(depth: int, layer: nat, work: nat): nat {
    if layer > 0 && depth <= 10 then (work + 19) / 20 else 0
  }

  function Copies(n: nat, each: nat): nat {
    n * each
  }

  /** The depth a call would need to have done what a call at `depth` has done before `layer`. */
  function Progress(depth: int, layer: nat): nat {
    if depth > 10 || layer == 0 then 1 else layer
  }

  function PeakSoFar(depth: int, layer: nat, work: nat): nat {
    if CallsMade(depth, layer, work) > 0 then Frames(layer + 1) else Frames(Progress(depth, layer))
  }

  /** Three more calls complete a layer. */
  lemma LayerDone(depth: int, layer: nat)
    requires 0 < depth && layer < depth && layer < 15
    ensures var n := CallsMade(depth, layer, 50);
            && Activations(Progress(depth, layer)) + Copies(n, Activations(layer - 1))
               == Activations(Progress(depth, layer + 1))
            && Marks(Progress(depth, layer)) + Copies(n, Marks(layer - 1)) == Marks(Progress(depth, layer + 1))
    ensures PeakSoFar(depth, layer, 50) == Frames(Progress(depth, layer + 1))
    ensures PeakSoFar(depth, layer, 0) == Frames(Progress(depth, layer)) <= PeakSoFar(depth, layer, 50)
  {
    if layer > 0 && depth <= 10 {
      assert CallsMade(depth, layer, 50) == 3;
      NextShape(layer + 1);
    } else {
      assert CallsMade(depth, layer, 50) == 0;
    }
    hide Activations, Marks;
  }

  /** The recurrences themselves. */
  lemma NextShape(depth: int)
    requires 2 <= depth <= 10
    ensures Activations(depth) == Activations(depth - 1) + 3 * Activations(depth - 2)
    ensures Marks(depth) == Marks(depth - 1) + 3 * Marks(depth - 2)
    ensures Frames(depth) == Max(Frames(depth - 1), 1 + Frames(depth - 2))
  {
  }

  lemma NoWork(depth: int, layer: nat)
    requires layer < depth
    ensures var n := CallsMade(depth, layer, 0);
            Copies(n, Activations(layer - 1)) == 0 && Copies(n, Marks(layer - 1)) == 0
  {
    hide Activations, Marks;
  }

  lemma Work(depth: int, layer: nat, work: nat)
    requires 0 < depth && layer < depth
    ensures var n := CallsMade(depth, layer, work);
            var more := work % 20 == 0 && layer > 0 && depth <= 10;
            && CallsMade(depth, layer, work + 1) == (if more then n + 1 else n)
            && PeakSoFar(depth, layer, work + 1)
               == (if more then Max(PeakSoFar(depth, layer, work), 1 + Frames(layer - 1))
                   else PeakSoFar(depth, layer, work))
            && Copies(n + 1, Activations(layer - 1)) == Copies(n, Activations(layer - 1)) + Activations(layer - 1)
            && Copies(n + 1, Marks(layer - 1)) == Copies(n, Marks(layer - 1)) + Marks(layer - 1)
  {
    hide Activations, Marks;
  }

  lemma NoDepth(depth: int)
    requires depth <= 0
    ensures Activations(depth) == 1 && Marks(depth) == 0 && Frames(depth) == 1
  {
  }

  lemma MaxMax(p: int, a: int, b: int)
    requires a <= b
    ensures Max(Max(p, a), b) == Max(p, b) && Max(p, a) >= a
  {
  }

  lemma LayersDone(depth: int)
    requires depth > 0
    ensures var last := Progress(depth, if depth < 15 then depth else 15);
            Activations(last) == Activations(depth) && Marks(last) == Marks(depth) && Frames(last) == Frames(depth)
    ensures var first := Progress(depth, 0); Activations(first) == Marks(first) == Frames(first) == 1
  {
  }

  /** Recursive calls `Scenario(complexity)` has made before `level`. */
  function NestedCalls(complexity: int, level: nat): nat {
    if complexity < 1 then 0
    else if level < complexity - 1 && level < 8 then level
    else if complexity - 1 < 8 then complexity - 1
    else 8
  }

  lemma NextLevel(complexity: int, level: nat)
    requires level < complexity
    ensures var n := NestedCalls(complexity, level);
            if level < complexity - 1 && level < 8 then
              && n == level && NestedCalls(complexity, level + 1) == level + 1
              && Scenarios(level + 1) == Pow2(level) && Pow2(level) > 0
              && ScenarioMarks(level + 1) == 2 * Pow2(level) - 1 && Pow2(level + 1) == 2 * Pow2(level)
              && ScenarioFrames(level + 1) == level + 1
            else NestedCalls(complexity, level + 1) == n
  {
  }

  lemma LevelsDone(complexity: int)
    ensures var n := NestedCalls(complexity, if complexity < 0 then 0 else complexity);
            && Pow2(n) == Scenarios(complexity) && n + 1 == ScenarioFrames(complexity)
            && (complexity >= 0 ==> complexity + 2 * Pow2(n) - 2 - n == ScenarioMarks(complexity))
    ensures NestedCalls(complexity, 0) == 0 && Pow2(0) == 1
  {
  }

  // ------------------------------------------------------------------ the code

  /** Everything the two functions do to the world outside their own frames. */
  class Tally {
    var activations: nat
    var live: nat
    var peak: nat
    var marks: nat
    var clears: nat

    constructor ()
      ensures activations == live == peak == marks == clears == 0
    {
      activations, live, peak, marks, clears := 0, 0, 0, 0, 0;
    }

    method Enter()
      modifies this`activations, this`live, this`peak
      ensures activations == old(activations) + 1 && live == old(live) + 1 && peak == Max(old(peak), old(live) + 1)
    {
      activations, live := activations + 1, live + 1;
      if peak < live {
        peak := live;
      }
    }

    /** `mark_thread_vulnerable` on an array that is not a thread context. */
    method Mark()
      modifies this`marks
      ensures marks == old(marks) + 1
    {
      marks := marks + 1;
    }

    method Clear()
      modifies this`clears
      ensures clears == old(clears) + 1
    {
      clears := clears + 1;
    }

    method Leave()
      requires live > 0
      modifies this`live
      ensures live == old(live) - 1
    {
      live := live - 1;
    }

    /** `complex_register_manipulation_chain_c`.  `frame` stands for the address of a local array, which is an
      * arbitrary word in every activation. */
    method Chain(ctx: nat, depth: int, data: nat) returns (r: nat)
      modifies this
      ensures activations == old(activations) + Activations(depth)
      ensures live == old(live) && peak == Max(old(peak), old(live) + Frames(depth))
      ensures marks == old(marks) + Marks(depth) && clears == old(clears) + Marks(depth)
      ensures if depth <= 0 then r == data % 65536 else r < 1000000
      ensures activations - old(activations)
           == if 0 <= depth <= 10 then [1, 1, 4, 7, 19, 40, 97, 217, 508, 1159, 2683][depth] else 1
      ensures marks - old(marks) == clears - old(clears)
      ensures marks - old(marks)
           == if 0 <= depth <= 10 then [0, 1, 1, 4, 7, 19, 40, 97, 217, 508, 1159][depth]
              else if depth < 0 then 0 else 1
      decreases if depth > 0 then depth else 0, 1
    {
      hide *;
      ChainTable(depth);
      Enter();
      if depth <= 0 {
        NoDepth(depth);
        Leave();
        return data % 0x1_0000;
      }
      Mark();
      var frame: nat := *;
      var registers := new nat[16];
      for i := 0 to 16
        modifies registers
      {
        registers[i] := Seed(ctx, depth, data, i);
      }
      var nested: nat := 0;
      LayersDone(depth);
      for layer := 0 to if depth < 15 then depth else 15
        invariant live == old(live) + 1
        invariant activations == old(activations) + Activations(Progress(depth, layer))
        invariant marks == old(marks) + Marks(Progress(depth, layer))
        invariant clears == old(clears) + Marks(Progress(depth, layer)) - 1
        invariant peak == Max(old(peak), old(live) + Frames(Progress(depth, layer)))
      {
        LayerDone(depth, layer);
        MaxMax(old(peak), old(live) + PeakSoFar(depth, layer, 0), old(live) + PeakSoFar(depth, layer, 50));
        nested := WorkInLayer(ctx, depth, data, layer, frame, registers, nested);
        for reg := 0 to 16
          modifies registers
        {
          registers[reg] := Scramble(registers[reg], nested);
        }
      }
      Clear();
      Leave();
      r := nested % 1_000_000;
    }

    /** The 50 units of work of one layer; every twentieth makes a recursive call. */
    method WorkInLayer(ctx: nat, depth: int, data: nat, layer: nat, frame: nat, registers: array<nat>, start: nat)
      returns (nested: nat)
      requires layer < depth && registers.Length == 16
      requires live > 0 && peak >= live - 1 + PeakSoFar(depth, layer, 0)
      modifies this
      ensures live == old(live) && peak == Max(old(peak), live - 1 + PeakSoFar(depth, layer, 50))
      ensures activations == old(activations) + Copies(CallsMade(depth, layer, 50), Activations(layer - 1))
      ensures marks == old(marks) + Copies(CallsMade(depth, layer, 50), Marks(layer - 1))
      ensures clears == old(clears) + Copies(CallsMade(depth, layer, 50), Marks(layer - 1))
      decreases depth, 0
    {
      hide Activations, Marks, Frames, Xor, CallsMade, PeakSoFar, Progress, Copies;
      nested := start;
      NoWork(depth, layer);
      for work := 0 to 50
        invariant live == old(live) && peak == Max(old(peak), live - 1 + PeakSoFar(depth, layer, work))
        invariant activations == old(activations) + Copies(CallsMade(depth, layer, work), Activations(layer - 1))
        invariant marks == old(marks) + Copies(CallsMade(depth, layer, work), Marks(layer - 1))
        invariant clears == old(clears) + Copies(CallsMade(depth, layer, work), Marks(layer - 1))
      {
        Work(depth, layer, work);
        nested := Xor(nested, (frame + work % 1024) % WORD);
        nested := Xor(nested * 4 % WORD, registers[work % 16]);
        if work % 20 == 0 && layer > 0 && depth <= 10 {
          var sub := Chain(ctx, layer - 1, Xor(nested, data));
          nested := (nested + sub) % WORD;
        }
      }
    }

    /** `create_complex_unwind_metadata_scenario` */
    method Scenario(complexity: int)
      modifies this
      ensures activations == old(activations) + Scenarios(complexity)
      ensures live == old(live) && peak == Max(old(peak), old(live) + ScenarioFrames(complexity))
      ensures marks == old(marks) + ScenarioMarks(complexity) && clears == old(clears) + ScenarioMarks(complexity)
      ensures activations - old(activations)
           == if complexity <= 0 then 1 else if complexity <= 9 then [1, 1, 2, 4, 8, 16, 32, 64, 128, 256][complexity]
              else 256
      ensures marks - old(marks) == clears - old(clears)
      ensures marks - old(marks)
           == if complexity <= 0 then 0
              else if complexity <= 9 then [0, 1, 3, 7, 15, 31, 63, 127, 255, 511][complexity]
              else 511 + (complexity - 9)
      decreases if complexity > 0 then complexity else 0
    {
      Enter();
      var trigger := complexity;
      var levels := if complexity < 0 then 0 else complexity;
      LevelsDone(complexity);
      ScenarioTable(complexity);
      for level := 0 to levels
        invariant live == old(live) + 1 && trigger == complexity - level
        invariant activations == old(activations) + Pow2(NestedCalls(complexity, level))
        invariant peak == Max(old(peak), old(live) + 1 + NestedCalls(complexity, level))
        invariant marks - old(marks) == clears - old(clears)
        invariant var n := NestedCalls(complexity, level); marks == old(marks) + level + 2 * Pow2(n) - 2 - n
      {
        NextLevel(complexity, level);
        Mark();
        assert trigger > 0;
        if trigger > 0 {
          trigger := trigger - 1;
        }
        Clear();
        if level < complexity - 1 && level < 8 {
          Scenario(level + 1);
        }
      }
      Leave();
    }
  }

  // ------------------------------------------------------------------ what follows for every depth

  lemma ActivationValues()
    ensures Activations(10) == 2683 && Marks(10) == 1159
  {
    assert Activations(4) == 19 && Activations(3) == 7;
    assert Activations(6) == 97 && Activations(5) == 40;
    assert Activations(8) == 508 && Activations(7) == 217;
    assert Marks(4) == 7 && Marks(3) == 4;
    assert Marks(6) == 40 && Marks(5) == 19;
    assert Marks(8) == 217 && Marks(7) == 97;
  }

  lemma {:induction false} BelowTen(depth: int)
    requires 0 <= depth <= 10
    ensures Activations(depth) <= Activations(10) && Marks(depth) <= Marks(10)
    decreases 10 - depth
  {
    if depth < 10 {
      BelowTen(depth + 1);
    }
  }

  /** Whatever depth is asked for, one call never causes more than 2683 activations, 6 of them live at once. */
  lemma ChainBounded(depth: int)
    ensures Activations(depth) <= 2683 && Marks(depth) <= 1159 && Frames(depth) <= 6
  {
    ActivationValues();
    if 0 <= depth <= 10 {
      BelowTen(depth);
    }
  }

  /** Nor the other more than 256, 9 of them live. */
  lemma {:induction false} ScenarioBounded(complexity: int)
    ensures Scenarios(complexity) <= 256 && ScenarioFrames(complexity) <= 9
    decreases if complexity < 9 then 9 - complexity else 0
  {
    if complexity < 1 {
    } else if complexity < 9 {
      ScenarioBounded(complexity + 1);
      assert Scenarios(complexity + 1) == 2 * Pow2(complexity - 1);
    } else {
      assert Pow2(4) == 16;
      assert Pow2(6) == 64;
      assert Pow2(8) == 256;
    }
  }
}
