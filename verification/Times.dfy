/** Instants and durations. The process clock counts nanoseconds; a timestamp column keeps microseconds,
    and the driver cuts off what does not fit. */
module Times {

  type Time = int

  const MICROSECOND: Time := 1_000
  const MILLISECOND: Time := 1_000_000
  const SECOND: Time := 1_000_000_000
  const MINUTE: Time := 60 * SECOND
  const HOUR: Time := 60 * MINUTE

  /** What a timestamp column holds after the instant `t` was written to it. Also what NOW() shows at `t`. */
  function Stored(t: Time): Time {
    t - t % MICROSECOND
  }

  /** The whole second an instant falls in. */
  function WholeSecond(t: Time): int {
    t / SECOND
  }

  lemma StoredMonotone(a: Time, b: Time)
    requires a <= b
    ensures Stored(a) <= Stored(b)
  {
  }

  lemma StoredKeepsSecond(t: Time)
    ensures WholeSecond(Stored(t)) == WholeSecond(t)
  {
    var k, m := t / SECOND, t % SECOND;
    var q := m / MICROSECOND;
    ModOfSum(k * 1_000_000, m);
    assert Stored(t) == k * SECOND + q * MICROSECOND;
    QuotientOf(k, q * MICROSECOND);
  }

  lemma StoredTwice(t: Time)
    ensures Stored(Stored(t)) == Stored(t)
  {
  }

  /** Whole microseconds at or before an instant are at or before what is stored of it. */
  lemma StoredNotBefore(whole: Time, t: Time)
    requires whole % MICROSECOND == 0 && whole <= t
    ensures whole <= Stored(t)
  {
    StoredMonotone(whole, t);
  }

  lemma WholeSum(a: Time, b: Time, d: Time)
    requires a % MICROSECOND == 0 && b % MICROSECOND == 0 && d % MICROSECOND == 0
    ensures (a + b - d) % MICROSECOND == 0
  {
  }

  /** A column holds the last whole microsecond at or before the instant. */
  lemma StoredIsWhole(t: Time)
    ensures Stored(t) % 1_000 == 0 && t - 1_000 < Stored(t) <= t
  {
  }

  lemma ModOfSum(k: int, m: int)
    ensures (k * MICROSECOND + m) % MICROSECOND == m % MICROSECOND
  {
  }

  lemma QuotientOf(k: int, rest: int)
    requires 0 <= rest < SECOND
    ensures (k * SECOND + rest) / SECOND == k
  {
  }

  /** A stored instant plus a duration loses less than a microsecond on the way to its column. */
  lemma StoredSum(a: Time, b: Time)
    ensures Stored(a) + Stored(b) <= Stored(a + b) <= Stored(a) + Stored(b) + MICROSECOND
    ensures a % MICROSECOND == 0 || b % MICROSECOND == 0 ==> Stored(a + b) == Stored(a) + Stored(b)
  {
  }

  lemma SecondMonotone(a: Time, b: Time)
    requires a <= b
    ensures WholeSecond(a) <= WholeSecond(b)
  {
  }

  lemma SecondStep(a: Time, b: Time)
    requires a + SECOND <= b
    ensures WholeSecond(a) + 1 <= WholeSecond(b)
  {
    SecondMonotone(a + SECOND, b);
  }

  lemma SignOfProduct(m: int, width: Time)
    requires width > 0
    ensures m >= 1 ==> m * width >= width
    ensures m <= -1 ==> m * width <= -width
  {
    if m >= 1 {
      assert (m - 1) * width >= 0;
    } else if m <= -1 {
      assert (-1 - m) * width >= 0;
    }
  }

  lemma WholeMultiple(q: int, width: Time)
    requires width > 0
    ensures (q * width) % width == 0
  {
    var k := (q * width) / width;
    assert q * width == k * width + (q * width) % width;
    assert (q - k) * width == (q * width) % width;
    SignOfProduct(q - k, width);
  }
}
