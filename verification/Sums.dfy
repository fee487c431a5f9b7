/** Sums of integer sequences. */
module Sums {
  function Sum(parts: seq<int>): int {
    if parts == [] then 0 else Sum(parts[..|parts| - 1]) + parts[|parts| - 1]
  }

  lemma SumNext(parts: seq<int>, more: int)
    ensures Sum(parts + [more]) == Sum(parts) + more
  {
    assert (parts + [more])[..|parts|] == parts;
  }

  lemma SumNone()
    ensures Sum([]) == 0
  {
  }
}
