/** Instants that keep a distance from each other, and how many of them a window can hold. */
module Spacing {
  import opened Times

  /** At least `gap` between neighbours. */
  ghost predicate Spaced(times: seq<Time>, gap: Time) {
    forall i :: 0 < i < |times| ==> times[i - 1] + gap <= times[i]
  }

  lemma {:induction false} SpacedPairs(times: seq<Time>, gap: Time, i: nat, j: nat)
    requires Spaced(times, gap) && i <= j < |times|
    ensures (j - i) * gap <= times[j] - times[i]
  {
    if i < j {
      SpacedPairs(times, gap, i, j - 1);
      assert (j - i) * gap == (j - 1 - i) * gap + gap;
    }
  }

  lemma ProductMonotone(a: int, b: int, k: int)
    requires a <= b && 0 <= k
    ensures a * k <= b * k
  {
  }

  lemma QuotientAtLeast(n: nat, gap: Time, length: Time)
    requires 0 < gap && n * gap <= length
    ensures n <= length / gap
  {
    var q := length / gap;
    assert length == q * gap + length % gap && (q + 1) * gap == q * gap + gap;
    if q + 1 <= n {
      ProductMonotone(q + 1, n, gap);
    }
  }

  /** A window of length `length` holds at most length / gap + 1 of them. */
  lemma WindowHolds(times: seq<Time>, gap: Time, length: Time, i: nat, j: nat)
    requires Spaced(times, gap) && 0 < gap && i <= j < |times| && times[j] - times[i] <= length
    ensures j - i + 1 <= length / gap + 1
  {
    SpacedPairs(times, gap, i, j);
    QuotientAtLeast(j - i, gap, length);
  }
}
