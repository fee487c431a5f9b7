// Program.StaticComplexWork, the C# helper that generated code calls.
module StaticWork {
  import opened Int32

  const BOUND: int := 1_000_000

  // One iteration: an unchecked multiply-add, a truncated remainder, a sign flip.
  function WorkStep(result: int32, modifier: int32): (r: int32)
    ensures 0 <= r < BOUND
  {
    var x := TruncRem(Wrap(result * 3 + modifier), BOUND);
    if x < 0 then -x else x
  }

  function WorkIter(result: int32, modifier: int32, n: nat): int32 {
    if n == 0 then result else WorkStep(WorkIter(result, modifier, n - 1), modifier)
  }

  // Specification of StaticComplexWork: ten iterations.
  function Work(input: int32, modifier: int32): int32 {
    WorkIter(input, modifier, 10)
  }

  method StaticComplexWork(input: int32, modifier: int32) returns (result: int32)
    ensures result == Work(input, modifier)
    ensures 0 <= result < BOUND
  {
    result := input;
    for i := 0 to 10
      invariant result == WorkIter(input, modifier, i)
      invariant i > 0 ==> 0 <= result < BOUND
    {
      result := TruncRem(Wrap(result * 3 + modifier), BOUND);
      if result < 0 {
        result := -result;
      }
    }
  }

  // For every pair of arguments the result lies in [0, 999999].
  lemma WorkRange(input: int32, modifier: int32)
    ensures 0 <= Work(input, modifier) < BOUND
  {
    assert Work(input, modifier) == WorkStep(WorkIter(input, modifier, 9), modifier);
  }

  // One iteration on any int32 values.
  lemma StepLaw(result: int32, modifier: int32)
    ensures var x := TruncRem(Wrap(result * 3 + modifier), 1000000);
            WorkStep(result, modifier) == if x >= 0 then x else -x
  {
    hide TruncRem, Wrap;
  }

  // The ten iterations of any call, wrapped or not, are these values one after the other.
  lemma WorkTrace(input: int32, modifier: int32) returns (r: seq<int32>)
    ensures |r| == 11 && r[0] == input && r[10] == Work(input, modifier)
    ensures forall i | 0 <= i < 10 ::
              var x := TruncRem(Wrap(r[i] * 3 + modifier), 1000000); r[i + 1] == if x >= 0 then x else -x
  {
    r := seq(11, i requires 0 <= i => WorkIter(input, modifier, i));
    assert WorkIter(input, modifier, 0) == input;
    forall i | 0 <= i < 10
      ensures var x := TruncRem(Wrap(r[i] * 3 + modifier), 1000000); r[i + 1] == if x >= 0 then x else -x
    {
      assert WorkIter(input, modifier, i + 1) == WorkStep(WorkIter(input, modifier, i), modifier);
      hide WorkIter, TruncRem, Wrap;
      StepLaw(r[i], modifier);
    }
  }

  // The recurrence without reduction, over unbounded integers.
  function Exact(input: int, modifier: int, n: nat): (r: int)
    ensures input >= 0 && modifier >= 0 ==> r >= 0
    decreases n
  {
    if n == 0 then input else 3 * Exact(input, modifier, n - 1) + modifier
  }

  // While no intermediate value overflows, reducing at every step is reducing once at the end.
  lemma {:induction false} WorkIterReduces(input: int32, modifier: int32, n: nat)
    requires n > 0
    requires input >= 0 && modifier >= 0
    requires 3 * input + modifier <= MAX && 3 * (BOUND - 1) + modifier <= MAX
    ensures WorkIter(input, modifier, n) == Exact(input, modifier, n) % BOUND
  {
    hide WorkStep, Wrap;
    if n > 1 {
      WorkIterReduces(input, modifier, n - 1);
      StepExact(WorkIter(input, modifier, n - 1), modifier);
      ModStep(Exact(input, modifier, n - 1), modifier);
    } else {
      assert WorkIter(input, modifier, 0) == input;
      StepExact(input, modifier);
    }
  }

  lemma StepExact(result: int32, modifier: int32)
    requires 0 <= 3 * result + modifier <= MAX
    ensures WorkStep(result, modifier) == (3 * result + modifier) % BOUND
  {}

  lemma ModStep(y: int, modifier: int)
    ensures (3 * (y % BOUND) + modifier) % BOUND == (3 * y + modifier) % BOUND
  {}

  lemma WorkClosedForm(input: int32, modifier: int32)
    requires input >= 0 && modifier >= 0
    requires 3 * input + modifier <= MAX && 3 * (BOUND - 1) + modifier <= MAX
    ensures Work(input, modifier) == (59049 * input + 29524 * modifier) % BOUND
  {
    hide WorkStep, WorkIter;
    WorkIterReduces(input, modifier, 10);
    ExactTen(input, modifier);
  }

  lemma ExactTen(input: int, modifier: int)
    ensures Exact(input, modifier, 10) == 59049 * input + 29524 * modifier
  {}
}
