/** The worker's poll interval: doubling on empty or failed polls, with the 64-bit arithmetic of durations. */
module Polling {
  import opened Times

  const TWO_62: int := 0x4000_0000_0000_0000
  const TWO_63: int := 0x8000_0000_0000_0000
  const TWO_64: int := 0x1_0000_0000_0000_0000

  predicate IsDuration(x: int) {
    -TWO_63 <= x < TWO_63
  }

  /** What is left of a sum or product in a signed 64-bit duration. */
  function Wrapped(x: int): (w: int)
    ensures IsDuration(w) && (IsDuration(x) ==> w == x)
  {
    (x + TWO_63) % TWO_64 - TWO_63
  }

  /** `jobs` is the number of jobs received, negative when there was no room to ask for any. */
  datatype Poll = Poll(jobs: int, failed: bool)
  {
    predicate Resets() {
      jobs < 0 || (!failed && jobs > 0)
    }
  }

  predicate Bounds(base: Time, max: Time) {
    0 < base <= max < TWO_63
  }

  function NextInterval(base: Time, max: Time, current: Time, poll: Poll): Time {
    var start := if current < base then base else current;
    if poll.Resets() then base
    else
      var next := Wrapped(start * 2);
      var raised := if next < base then base else next;
      if raised > max then max else raised
  }

  /** The interval after a sequence of polls; the loop starts at the base. */
  function IntervalAfter(base: Time, max: Time, polls: seq<Poll>): Time {
    if polls == [] then base
    else NextInterval(base, max, IntervalAfter(base, max, polls[..|polls| - 1]), polls[|polls| - 1])
  }

  /** From any interval, overflown or not, one poll leads back into the bounds. */
  lemma NextWithin(base: Time, max: Time, current: Time, poll: Poll)
    requires Bounds(base, max) && IsDuration(current)
    ensures base <= NextInterval(base, max, current, poll) <= max
    ensures poll.Resets() ==> NextInterval(base, max, current, poll) == base
  {
  }

  function Power(k: nat): nat {
    if k == 0 then 1 else 2 * Power(k - 1)
  }

  function Least(a: int, b: int): int {
    if a < b then a else b
  }

  /** Empty or failed polls since the last one that reset the interval. */
  function Misses(polls: seq<Poll>): nat {
    if polls == [] || polls[|polls| - 1].Resets() then 0 else Misses(polls[..|polls| - 1]) + 1
  }

  ghost predicate ClosedForm(base: Time, max: Time) {
    forall polls :: IntervalAfter(base, max, polls) == Least(base * Power(Misses(polls)), max)
  }

  lemma ProductGrows(base: Time, k: nat)
    requires base > 0
    ensures base * Power(k) >= base && base * Power(k + 1) == 2 * (base * Power(k))
  {
    var p := Power(k);
    PowerPositive(k);
    assert base * p >= base by {
      assert base * (p - 1) >= 0;
    }
    assert base * (2 * p) == 2 * (base * p);
  }

  lemma {:induction false} PowerPositive(k: nat)
    ensures Power(k) >= 1
  {
    if k > 0 {
      PowerPositive(k - 1);
    }
  }

  lemma {:induction false} DoublesUpToMax(base: Time, max: Time, polls: seq<Poll>)
    requires Bounds(base, max) && (max < TWO_62 || base == max)
    ensures IntervalAfter(base, max, polls) == Least(base * Power(Misses(polls)), max)
  {
    if polls != [] {
      var n := |polls| - 1;
      DoublesUpToMax(base, max, polls[..n]);
      ProductGrows(base, Misses(polls[..n]));
    }
  }

  const EMPTY: Poll := Poll(0, false)

  function EmptyPolls(k: nat): (polls: seq<Poll>)
    ensures |polls| == k && forall i :: 0 <= i < k ==> polls[i] == EMPTY
  {
    seq(k, i => EMPTY)
  }

  lemma {:induction false} AllMiss(k: nat)
    ensures Misses(EmptyPolls(k)) == k
  {
    if k > 0 {
      AllMiss(k - 1);
      assert EmptyPolls(k)[..k - 1] == EmptyPolls(k - 1);
    }
  }

  /** The last power of two times the base that is below 2^63. */
  lemma LastDoubling(base: Time) returns (k: nat)
    requires 0 < base < TWO_63
    ensures TWO_62 <= base * Power(k) < TWO_63
  {
    k := 0;
    while base * Power(k) < TWO_62
      invariant base * Power(k) < TWO_63
      decreases TWO_62 - base * Power(k)
    {
      ProductGrows(base, k);
      k := k + 1;
    }
  }

  /** With a large maximum the doubling overflows before it gets there, and the interval falls back to the base. */
  lemma {:induction false} FollowsUntilOverflow(base: Time, max: Time, k: nat)
    requires Bounds(base, max) && base * Power(k) < TWO_63
    ensures IntervalAfter(base, max, EmptyPolls(k)) == Least(base * Power(k), max)
  {
    if k > 0 {
      ProductGrows(base, k - 1);
      FollowsUntilOverflow(base, max, k - 1);
      assert EmptyPolls(k)[..k - 1] == EmptyPolls(k - 1);
    }
  }

  lemma DoublingWraps(base: Time, max: Time, current: Time)
    requires Bounds(base, max) && TWO_62 <= current < TWO_63
    ensures NextInterval(base, max, current, EMPTY) == base
  {
    assert Wrapped(current * 2) == current * 2 - TWO_64;
  }

  lemma OverflowFallsBack(base: Time, max: Time) returns (polls: seq<Poll>)
    requires Bounds(base, max) && TWO_62 <= max
    ensures IntervalAfter(base, max, polls) == base && Least(base * Power(Misses(polls)), max) == max
  {
    var k := LastDoubling(base);
    polls := EmptyPolls(k + 1);
    FollowsUntilOverflow(base, max, k);
    assert polls[..k] == EmptyPolls(k);
    DoublingWraps(base, max, Least(base * Power(k), max));
    AllMiss(k + 1);
    ProductGrows(base, k);
  }

  /** After k misses the interval is the smaller of base * 2^k and the maximum, over every history of polls, exactly when
      twice the maximum fits a duration (or there is nothing to double). */
  lemma ClosedFormIff(base: Time, max: Time)
    requires Bounds(base, max)
    ensures ClosedForm(base, max) <==> max < TWO_62 || base == max
  {
    if max < TWO_62 || base == max {
      forall polls ensures IntervalAfter(base, max, polls) == Least(base * Power(Misses(polls)), max) {
        DoublesUpToMax(base, max, polls);
      }
    } else {
      var polls := OverflowFallsBack(base, max);
      assert IntervalAfter(base, max, polls) != Least(base * Power(Misses(polls)), max);
    }
  }
}
