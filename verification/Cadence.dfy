/** The scheduler's time arithmetic: jitter, duplicate window and start time, in int64 nanoseconds. */
module Cadence {
  import opened Wrappers
  import opened Times

  const INT64_MAX: int := 0x7FFF_FFFF_FFFF_FFFF
  const UINT32_LIMIT: int := 0x1_0000_0000
  const LOOK_AHEAD: Time := 5 * SECOND

  /** Any int32 number of milliseconds, as the interval column holds it. */
  predicate Int32(x: int) {
    -0x8000_0000 <= x < 0x8000_0000
  }

  /** A number of milliseconds in units of the clock. */
  function Interval(ms: int): Time {
    ms * MILLISECOND
  }

  function JitterPercent(interval: Time): int {
    if interval <= 30 * SECOND then 1 else 10
  }

  function JitterRange(interval: Time): Time {
    interval * JitterPercent(interval) / 100
  }

  /** The interval, shifted by an amount and a direction that the monitor's 32-bit hash decides. */
  function ApplyJitter(interval: Time, hash: nat): Time {
    if interval <= 10 * SECOND then interval
    else if JitterRange(interval) == 0 then interval
    else if hash % 2 == 0 then interval + hash % JitterRange(interval)
    else interval - hash % JitterRange(interval)
  }

  /** Go's halving truncates toward zero; below zero the lower bound hides the difference. */
  function DedupWindow(interval: Time): Time {
    if interval / 2 < 500 * MILLISECOND then 500 * MILLISECOND
    else if interval / 2 > 1 * MINUTE then 1 * MINUTE
    else interval / 2
  }

  /** The instant a due monitor's jobs are scheduled for. */
  function StartTime(nextDue: Option<Time>, now: Time): (at: Time)
    ensures now <= at
    ensures nextDue.Some? && nextDue.value <= now + LOOK_AHEAD ==> nextDue.value <= at <= now + LOOK_AHEAD
    ensures nextDue.None? ==> at == now
  {
    if nextDue.Some? && nextDue.value > now then nextDue.value else now
  }

  lemma RemainderBound(h: nat, m: int)
    requires 0 < m
    ensures 0 <= h % m < m && h % m <= h
  {
    if h < m {
      assert h % m == h;
    }
  }

  /** The shift of an interval above ten seconds: within its range, and no larger than the hash. */
  lemma JitterShift(i: Time, hash: nat)
    requires 10 * SECOND < i
    ensures 0 < JitterRange(i) && 100 * JitterRange(i) <= i * JitterPercent(i)
    ensures var shift := ApplyJitter(i, hash) - i;
            && -JitterRange(i) < shift < JitterRange(i) && shift <= hash && -shift <= hash
            && (if hash % 2 == 0 then shift >= 0 else shift <= 0)
  {
    if i <= 30 * SECOND {
      assert JitterRange(i) == i / 100;
    } else {
      assert JitterRange(i) == i * 10 / 100;
    }
    RemainderBound(hash, JitterRange(i));
  }

  /** The size of the shift is what the hash leaves over when divided by a hundredth of the interval, by a tenth above thirty
      seconds; an even hash lengthens the interval and an odd one shortens it. */
  lemma JitterSize(i: Time, hash: nat)
    requires 10 * SECOND < i
    ensures var range := if i <= 30 * SECOND then i / 100 else i / 10;
            var shift := ApplyJitter(i, hash) - i;
            && 0 < range
            && (hash % 2 == 0 ==> shift >= 0 && shift < range && (hash - shift) % range == 0)
            && (hash % 2 != 0 ==> shift <= 0 && -shift < range && (hash + shift) % range == 0)
  {
    var range := if i <= 30 * SECOND then i / 100 else i / 10;
    RangeOf(i);
    RemainderBound(hash, range);
    WholeQuotient(hash, range);
  }

  lemma RangeOf(i: Time)
    requires 10 * SECOND < i
    ensures JitterRange(i) == (if i <= 30 * SECOND then i / 100 else i / 10) && 0 < JitterRange(i)
  {
  }

  lemma WholeQuotient(h: nat, m: int)
    requires 0 < m
    ensures (h - h % m) % m == 0
  {
    assert h - h % m == (h / m) * m;
    WholeMultiple(h / m, m);
  }

  /** No product or sum of the jitter computation leaves int64, and the shift stays below its percentage, below
      2^32 nanoseconds, and at zero up to ten seconds. */
  lemma JitterBounds(ms: int, hash: nat)
    requires Int32(ms) && hash < UINT32_LIMIT
    ensures var i := Interval(ms); var d := ApplyJitter(i, hash);
            && -INT64_MAX <= i && i * 10 <= INT64_MAX && -INT64_MAX <= d <= INT64_MAX
            && -UINT32_LIMIT < d - i < UINT32_LIMIT
            && (i <= 10 * SECOND ==> d == i)
            && (10 * SECOND < i <= 30 * SECOND ==> -i < 100 * (d - i) < i)
            && (30 * SECOND < i ==> -i < 10 * (d - i) < i)
            && (if hash % 2 == 0 then d >= i else d <= i)
  {
    var i := Interval(ms);
    if i > 10 * SECOND {
      JitterShift(i, hash);
    }
  }

  lemma HalfOfInterval(ms: int)
    ensures Interval(ms) / 2 == ms * 500_000
    ensures Interval(ms) % MICROSECOND == 0 && (ms * 500_000) % MICROSECOND == 0
  {
    MultipleOf(ms * 500);
    MultipleOf(ms * 1000);
  }

  lemma MultipleOf(k: int)
    ensures (k * MICROSECOND) % MICROSECOND == 0
  {
  }

  /** The window is half the interval from one second to two minutes, 500 ms below and one minute above; it never shrinks
      when the interval grows. */
  lemma DedupBounds(ms: int)
    ensures var w := DedupWindow(Interval(ms));
            && 500 * MILLISECOND <= w <= MINUTE && w % MICROSECOND == 0
            && (1000 <= ms <= 120_000 <==> 2 * w == Interval(ms))
            && (ms <= 1000 ==> w == 500 * MILLISECOND)
            && (120_000 <= ms ==> w == 60 * SECOND)
  {
    HalfOfInterval(ms);
    assert Interval(ms) == 2 * (ms * 500_000);
  }

  lemma DedupMonotone(ms: int, ms2: int)
    requires ms <= ms2
    ensures DedupWindow(Interval(ms)) <= DedupWindow(Interval(ms2))
  {
    HalfOfInterval(ms);
    HalfOfInterval(ms2);
  }

  /** What makes a fixed cadence safe: from one second up, the distance to the next run, as its column holds it, is
      larger than the duplicate window and at least a second. */
  lemma CadenceOutrunsWindow(ms: int, hash: nat)
    requires 1000 <= ms
    ensures var i := Interval(ms);
            Stored(ApplyJitter(i, hash)) > DedupWindow(i) && Stored(ApplyJitter(i, hash)) >= SECOND
  {
    var i := Interval(ms);
    HalfOfInterval(ms);
    if i > 10 * SECOND {
      JitterShift(i, hash);
    }
  }
}
