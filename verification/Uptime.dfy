/** The uptime queries and the service's fallback chain, against direct counts over the raw results. */
module Uptime {
  import opened Wrappers
  import opened Times
  import opened Results
  import opened Sums
  import opened RollUp

  // ---------------------------------------------------------------------------------------------------------------
  // Totals

  /** An hourly or daily total over refreshed aggregates counts the raw rows from the first bucket boundary at or after the
      cutoff. */
  lemma TotalIsRaw(width: Time, results: ResultTable, monitor: string, from: Time)
    requires width > 0
    ensures var agg := Aggregated(width, results);
            Totals(agg, Selected(agg, monitor, from)) == CountsOf(results, Raw(results, monitor, Ceiling(width, from)))
  {
    var agg := Aggregated(width, results);
    var groups := Selected(agg, monitor, from);
    GroupsCount(width, results, groups);
    forall k | k in results
      ensures k in RowsOf(width, results, groups) <==> k in Raw(results, monitor, Ceiling(width, from))
    {
      BucketAfterCutoff(width, k.1, from);
      assert GroupOf(width, results, k) in Groups(width, results);
    }
    assert RowsOf(width, results, groups) == Raw(results, monitor, Ceiling(width, from));
  }

  predicate Whole(c: Counts) {
    c.total == c.ok + c.failed
  }

  lemma CountsWhole(results: ResultTable, keys: set<Key>)
    requires keys <= results.Keys
    ensures Whole(CountsOf(results, keys))
  {
    assert keys == OkOf(results, keys) + FailedOf(results, keys);
  }

  lemma {:induction false} SumsWhole(agg: Aggregate, groups: set<Group>)
    requires forall g :: g in groups ==> g in agg && Whole(agg[g])
    ensures Whole(Totals(agg, groups))
  {
    if groups != {} {
      var g :| g in groups;
      SumRemove(groups, TotalIn(agg), g);
      SumRemove(groups, OkIn(agg), g);
      SumRemove(groups, FailedIn(agg), g);
      SumsWhole(agg, groups - {g});
    }
  }

  // ---------------------------------------------------------------------------------------------------------------
  // Percentages

  /** 100 * ok / total, rounded to the nearest whole number and to an even one in the middle; 0 when nothing was counted. */
  function Percent(ok: nat, total: nat): int {
    if total == 0 then 0
    else
      var q, r := 100 * ok / total, 100 * ok % total;
      if 2 * r < total || (2 * r == total && q % 2 == 0) then q else q + 1
  }

  lemma NearestIs(ok: nat, total: nat, p: int)
    requires total > 0
    ensures Percent(ok, total) <= p <==> 200 * ok < (2 * p + 1) * total || (200 * ok == (2 * p + 1) * total && p % 2 == 0)
  {
    var q, r := 100 * ok / total, 100 * ok % total;
    assert 100 * ok == q * total + r;
    assert (2 * p + 1) * total - 200 * ok == (2 * (p - q) + 1) * total - 2 * r;
    var d := p - q;
    assert (2 * d + 1) * total == 2 * (d * total) + total;
    SignOfProduct(d, total);
    assert d <= -2 ==> d * total <= -2 * total by {
      SignOfProduct(d + 1, total);
      assert (d + 1) * total == d * total + total;
    }
  }

  /** The percentage of a whole count lies in 0..100, grows with the successes, and shows 100 from 99.5 percent and 0 up to
      0.5 percent. */
  lemma PercentRange(ok: nat, total: nat)
    requires ok <= total
    ensures 0 <= Percent(ok, total) <= 100
    ensures total > 0 ==> (Percent(ok, total) == 100 <==> 200 * ok >= 199 * total)
    ensures Percent(ok, total) == 0 <==> 200 * ok <= total
    ensures ok < total ==> Percent(ok, total) <= Percent(ok + 1, total)
  {
    if total > 0 {
      NearestIs(ok, total, -1);
      NearestIs(ok, total, 0);
      NearestIs(ok, total, 99);
      NearestIs(ok, total, 100);
      if ok < total {
        NearestIs(ok, total, Percent(ok + 1, total));
        NearestIs(ok + 1, total, Percent(ok + 1, total));
      }
    }
  }

  /** The relative error of one operation on double-precision numbers. */
  const ULP: real := 1.0 / 9_007_199_254_740_992.0

  const MANY: nat := 20_000_000_000_000

  function Product(x: real, y: real): real {
    x * y
  }

  predicate Rounds(x: real, exact: real) {
    exact * (1.0 - ULP) <= x <= exact * (1.0 + ULP)
  }

  lemma Scaled(x: real, y: real, t: real)
    requires x <= y && 0.0 <= t
    ensures x * t <= y * t
  {
  }

  /** A hundred times `k`, off by the same factor in the division and in the multiplication. */
  function Twice(k: real, factor: real): real {
    100.0 * factor * (k * factor)
  }

  lemma ErrorBound(k: real)
    requires 0.0 <= k <= MANY as real
    ensures Twice(k, 1.0 + ULP) < 100.0 * k + 0.45
    ensures 100.0 * k - 0.45 < Twice(k, 1.0 - ULP)
  {
    var more, less := 200.0 * ULP + 100.0 * ULP * ULP, 200.0 * ULP - 100.0 * ULP * ULP;
    assert 0.0 < less < more && more * MANY as real < 0.45;
    Scaled(k, MANY as real, more);
    Scaled(k, MANY as real, less);
    assert 100.0 * (1.0 + ULP) * (k * (1.0 + ULP)) == 100.0 * k + k * more;
    assert 100.0 * (1.0 - ULP) * (k * (1.0 - ULP)) == 100.0 * k - k * less;
  }

  lemma TwoSteps(quotient: real, hundredfold: real, t: real, k: real, c: real)
    requires 0.0 <= t && 0.0 <= c
    ensures quotient * t <= k * c && hundredfold <= 100.0 * quotient * c ==> hundredfold * t <= Twice(k, c)
    ensures quotient * t >= k * c && hundredfold >= 100.0 * quotient * c ==> hundredfold * t >= Twice(k, c)
  {
    assert (100.0 * quotient * c) * t == (100.0 * c) * (quotient * t);
    if quotient * t <= k * c && hundredfold <= 100.0 * quotient * c {
      Scaled(hundredfold, 100.0 * quotient * c, t);
      Scaled(quotient * t, k * c, 100.0 * c);
    }
    if quotient * t >= k * c && hundredfold >= 100.0 * quotient * c {
      Scaled(100.0 * quotient * c, hundredfold, t);
      Scaled(k * c, quotient * t, 100.0 * c);
    }
  }

  /** Two rounded operations stay within half of a hundredth-share of one check. */
  lemma QuotientError(ok: nat, total: nat, quotient: real, hundredfold: real)
    requires 0 < total <= MANY && ok <= total
    requires Rounds(Product(quotient, total as real), ok as real) && Rounds(hundredfold, 100.0 * quotient)
    ensures -0.45 < Product(hundredfold, total as real) - 100.0 * ok as real < 0.45
  {
    hide Twice;
    ErrorBound(ok as real);
    TwoSteps(quotient, hundredfold, total as real, ok as real, 1.0 + ULP);
    TwoSteps(quotient, hundredfold, total as real, ok as real, 1.0 - ULP);
  }

  /** No whole number is closer to the quotient. */
  predicate IsNearest(ok: nat, total: nat, p: int) {
    2 * (total * p) - 200 * ok <= total && 200 * ok - 2 * (total * p) <= total
  }

  lemma ProductLess(x: real, y: real, t: real)
    requires x <= y && 0.0 <= t
    ensures Product(x, t) <= Product(y, t)
  {
    Scaled(x, y, t);
  }

  lemma ProductMore(x: real, y: real, t: real)
    ensures Product(x + y, t) == Product(x, t) + Product(y, t)
  {
  }

  lemma ProductHalf(t: real)
    ensures Product(0.5, t) == 0.5 * t && Product(-0.5, t) == -0.5 * t
  {
  }

  lemma HalfOff(h: real, p: real, t: real)
    requires 0.0 <= t && -0.5 <= h - p <= 0.5
    ensures Product(p, t) - 0.5 * t <= Product(h, t) <= Product(p, t) + 0.5 * t
  {
    hide Product;
    ProductHalf(t);
    ProductLess(h, p + 0.5, t);
    ProductLess(p + -0.5, h, t);
    ProductMore(p, 0.5, t);
    ProductMore(p, -0.5, t);
  }

  lemma ProductAsReal(total: nat, p: int)
    ensures (total * p) as real == Product(p as real, total as real)
  {
  }

  lemma WholeBound(product: int, ok: nat, total: nat, exact: real)
    requires product as real - 0.5 * total as real <= exact <= product as real + 0.5 * total as real
    requires -0.45 < exact - 100.0 * ok as real < 0.45
    ensures 2 * product - 200 * ok <= total && 200 * ok - 2 * product <= total
  {
    var x := 2 * product - 200 * ok;
    assert x as real == 2.0 * product as real - 200.0 * ok as real;
    assert x as real < total as real + 0.9 && (-x) as real < total as real + 0.9;
  }

  lemma NearestInteger(ok: nat, total: nat, hundredfold: real, p: int)
    requires 0 < total && -0.45 < Product(hundredfold, total as real) - 100.0 * ok as real < 0.45
    requires -0.5 <= hundredfold - p as real <= 0.5
    ensures IsNearest(ok, total, p)
  {
    hide Product;
    HalfOff(hundredfold, p as real, total as real);
    ProductAsReal(total, p);
    WholeBound(total * p, ok, total, Product(hundredfold, total as real));
  }

  lemma PercentIsNearest(ok: nat, total: nat)
    requires total > 0
    ensures IsNearest(ok, total, Percent(ok, total))
  {
    var q, r := 100 * ok / total, 100 * ok % total;
    assert 100 * ok == total * q + r;
    assert total * (q + 1) == total * q + total;
  }

  lemma TwoNearest(ok: nat, total: nat, p: int, q: int)
    requires total > 0
    requires IsNearest(ok, total, p) && IsNearest(ok, total, q)
    ensures p == q || (p == q + 1 && 200 * ok == (2 * q + 1) * total) || (q == p + 1 && 200 * ok == (2 * p + 1) * total)
  {
    var d := p - q;
    assert total * p == total * q + d * total;
    SignOfProduct(d, total);
    SignOfProduct(d - 1, total);
    SignOfProduct(d + 1, total);
    assert d * total == (d - 1) * total + total == (d + 1) * total - total;
    assert (2 * q + 1) * total == 2 * (total * q) + total && (2 * p + 1) * total == 2 * (total * p) + total;
  }

  /** What the database computes, dividing, multiplying and rounding double-precision numbers: up to twenty million million
      checks it is the percentage, except that exactly between two whole numbers it may be either. */
  lemma FloatingPercent(ok: nat, total: nat, quotient: real, hundredfold: real, p: int)
    requires 0 < total <= MANY && ok <= total
    requires Rounds(Product(quotient, total as real), ok as real) && Rounds(hundredfold, 100.0 * quotient)
    requires -0.5 <= hundredfold - p as real <= 0.5
    ensures p == Percent(ok, total)
            || (p == Percent(ok, total) + 1 && 200 * ok == (2 * p - 1) * total)
            || (p == Percent(ok, total) - 1 && 200 * ok == (2 * p + 1) * total)
    ensures 0 <= p <= 100
  {
    QuotientError(ok, total, quotient, hundredfold);
    NearestInteger(ok, total, hundredfold, p);
    PercentIsNearest(ok, total);
    TwoNearest(ok, total, p, Percent(ok, total));
    PercentRange(ok, total);
    hide Percent, Rounds, Product, IsNearest;
    SignOfProduct(2 * p - 1, total);
    SignOfProduct(201 - 2 * p, total);
    assert (2 * p - 1) * total + (201 - 2 * p) * total == 200 * total;
    SignOfProduct(2 * p + 1, total);
  }

  // ---------------------------------------------------------------------------------------------------------------
  // The fallback chain

  datatype Answer = Answer(counts: Counts, percent: int)

  function AnswerOf(c: Counts): Answer {
    Answer(c, Percent(c.ok, c.total))
  }

  /** Each argument is a query's result, None when the query fails. */
  function Fetch24h(hourly: Option<Counts>, raw: Option<Counts>): Option<Answer> {
    if hourly.None? then None
    else if hourly.value.total != 0 then Some(AnswerOf(hourly.value))
    else if raw.None? then None
    else Some(AnswerOf(raw.value))
  }

  function Fetch7d(week: Option<Counts>, hourly: Option<Counts>, raw: Option<Counts>): Option<Answer> {
    if week.None? then None
    else if week.value.total != 0 then Some(AnswerOf(week.value))
    else Fetch24h(hourly, raw)
  }

  function Fetch30d(month: Option<Counts>, week: Option<Counts>, hourly: Option<Counts>, raw: Option<Counts>): Option<Answer> {
    if month.None? then None
    else if month.value.total != 0 then Some(AnswerOf(month.value))
    else Fetch7d(week, hourly, raw)
  }

  /** On every path the answer splits into successes and failures and its percentage is one, refreshed or not. */
  lemma AnswersWhole(month: Option<Counts>, week: Option<Counts>, hourly: Option<Counts>, raw: Option<Counts>)
    requires forall c :: c in {month, week, hourly, raw} && c.Some? ==> Whole(c.value)
    ensures forall a :: a in {Fetch30d(month, week, hourly, raw), Fetch7d(week, hourly, raw), Fetch24h(hourly, raw)} && a.Some? ==>
              Whole(a.value.counts) && 0 <= a.value.percent <= 100
  {
    forall c | c in {month, week, hourly, raw} && c.Some? ensures 0 <= Percent(c.value.ok, c.value.total) <= 100 {
      PercentRange(c.value.ok, c.value.total);
    }
  }

  /** The chain over any results, whatever the aggregates hold: the first query that counted something or has none after it
      gives the answer, and a query that fails before that makes the request fail. */
  lemma ChainIsFirstNonEmpty(queries: seq<Option<Counts>>, k: nat)
    requires |queries| == 4 && k < 4
    requires forall j :: 0 <= j < k ==> queries[j].Some? && queries[j].value.total == 0
    requires queries[k].Some? && queries[k].value.total == 0 ==> k == 3
    ensures var answer := if queries[k].None? then None
                          else Some(Answer(queries[k].value, Percent(queries[k].value.ok, queries[k].value.total)));
            && Fetch30d(queries[0], queries[1], queries[2], queries[3]) == answer
            && (k >= 1 ==> Fetch7d(queries[1], queries[2], queries[3]) == answer)
            && (k >= 2 ==> Fetch24h(queries[2], queries[3]) == answer)
  {
  }

  ghost function Counted(width: Time, results: ResultTable, monitor: string, from: Time): Option<Counts>
    requires width > 0
  {
    var agg := Aggregated(width, results);
    Some(Totals(agg, Selected(agg, monitor, from)))
  }

  function Direct(results: ResultTable, monitor: string, from: Time): Counts {
    CountsOf(results, Raw(results, monitor, from))
  }

  lemma NothingLater(results: ResultTable, monitor: string, from: Time, later: Time)
    requires from <= later && Direct(results, monitor, from).total == 0
    ensures Direct(results, monitor, from) == Counts(0, 0, 0) && Direct(results, monitor, later) == Counts(0, 0, 0)
  {
    var rows := Raw(results, monitor, from);
    assert rows == {};
    assert Raw(results, monitor, later) <= rows;
    assert OkOf(results, {}) == {} && FailedOf(results, {}) == {};
  }

  /** With refreshed aggregates the chain never changes an answer: the week and the month are the direct counts from their
      first boundary, and only the day falls back, when everything it has lies in its first, incomplete hour. */
  lemma ChainIsDirect(results: ResultTable, monitor: string, now: Time)
    ensures var width := 24 * HOUR;
            var day, week, month := now - width, now - 7 * width, now - 30 * width;
            var hourly, weekly, monthly, raw :=
              Counted(HOUR, results, monitor, day), Counted(HOUR, results, monitor, week),
              Counted(width, results, monitor, month), Some(Direct(results, monitor, day));
            && Fetch30d(monthly, weekly, hourly, raw) == Some(AnswerOf(Direct(results, monitor, Ceiling(width, month))))
            && Fetch7d(weekly, hourly, raw) == Some(AnswerOf(Direct(results, monitor, Ceiling(HOUR, week))))
            && Fetch24h(hourly, raw) == Some(AnswerOf(
                 if Direct(results, monitor, Ceiling(HOUR, day)).total != 0 then Direct(results, monitor, Ceiling(HOUR, day))
                 else Direct(results, monitor, day)))
  {
    var width := 24 * HOUR;
    var day, week, month := now - width, now - 7 * width, now - 30 * width;
    TotalIsRaw(HOUR, results, monitor, day);
    TotalIsRaw(HOUR, results, monitor, week);
    TotalIsRaw(width, results, monitor, month);
    hide Totals, Aggregated, Direct, Raw, Percent;
    if Direct(results, monitor, Ceiling(width, month)).total == 0 {
      NothingLater(results, monitor, Ceiling(width, month), Ceiling(HOUR, week));
    }
    if Direct(results, monitor, Ceiling(HOUR, week)).total == 0 {
      NothingLater(results, monitor, Ceiling(HOUR, week), Ceiling(HOUR, day));
      NothingLater(results, monitor, Ceiling(HOUR, week), day);
    }
  }

  // ---------------------------------------------------------------------------------------------------------------
  // What the counts say about the messages that were submitted

  function One(b: bool): nat {
    if b then 1 else 0
  }

  lemma CountPut(a: set<Key>, b: set<Key>, key: Key)
    requires a - {key} == b - {key}
    ensures |b| == |a| - One(key in a) + One(key in b)
  {
    assert key in a ==> a == a - {key} + {key};
    assert key in b ==> b == b - {key} + {key};
    assert key !in a ==> a == a - {key};
    assert key !in b ==> b == b - {key};
  }

  /** A stored message counts for the monitor its row has and from the time it is stored at: as a success exactly when it says
      "OK", as a failure exactly when it says "FAIL" or "ERROR". What it overwrites stops counting. */
  lemma StoreCounts(results: ResultTable, m: MonitorResult, monitor: string, from: Time)
    requires m.status in {"OK", "FAIL", "ERROR"}
    ensures var key := (m.run, Stored(m.eventAt));
            var holder := if key in results then results[key].monitor else m.monitor;
            var mine := holder == monitor && Stored(m.eventAt) >= from;
            var was, now := Direct(results, monitor, from), Direct(ProcessResult(results, m).value, monitor, from);
            && now.total == was.total + One(mine && key !in results)
            && now.ok == was.ok + One(mine && m.status == "OK") - One(mine && key in results && results[key].status == "OK")
            && now.failed == was.failed + One(mine && m.status in {"FAIL", "ERROR"})
                             - One(mine && key in results && results[key].status != "OK")
  {
    var key, t := (m.run, Stored(m.eventAt)), ProcessResult(results, m).value;
    var a, b := Raw(results, monitor, from), Raw(t, monitor, from);
    StoredColumns(results, m);
    CountPut(a, b, key);
    CountPut(OkOf(results, a), OkOf(t, b), key);
    CountPut(FailedOf(results, a), FailedOf(t, b), key);
  }

  /** The table after these messages were submitted one after the other. */
  function StoreAll(ms: seq<MonitorResult>): ResultTable {
    if ms == [] then map[] else
      var t := StoreAll(ms[..|ms| - 1]);
      match ProcessResult(t, ms[|ms| - 1])
      case None => t
      case Some(u) => u
  }

  /** How many of the messages name the monitor, an event from this time on, and one of these statuses. */
  function Sent(ms: seq<MonitorResult>, monitor: string, from: Time, statuses: set<string>): nat {
    if ms == [] then 0 else
      var m := ms[|ms| - 1];
      Sent(ms[..|ms| - 1], monitor, from, statuses)
      + One(m.monitor == monitor && Stored(m.eventAt) >= from && m.status in statuses)
  }

  /** No two messages are about the same run at the same stored event time. */
  ghost predicate NoneRepeated(ms: seq<MonitorResult>) {
    forall i, j :: 0 <= i < j < |ms| ==> ms[i].run != ms[j].run || Stored(ms[i].eventAt) != Stored(ms[j].eventAt)
  }

  lemma {:induction false} StoredKeys(ms: seq<MonitorResult>, key: Key)
    requires key in StoreAll(ms)
    ensures exists i :: 0 <= i < |ms| && key == (ms[i].run, Stored(ms[i].eventAt))
  {
    if ms != [] {
      var init := ms[..|ms| - 1];
      if key in StoreAll(init) {
        StoredKeys(init, key);
        var i :| 0 <= i < |init| && key == (init[i].run, Stored(init[i].eventAt));
        assert ms[i] == init[i];
      }
    }
  }

  /** The direct counts are counts of submissions. */
  lemma {:induction false} CountsAreSubmissions(ms: seq<MonitorResult>, monitor: string, from: Time)
    requires NoneRepeated(ms)
    ensures Direct(StoreAll(ms), monitor, from) ==
            Counts(Sent(ms, monitor, from, {"OK", "FAIL", "ERROR"}), Sent(ms, monitor, from, {"OK"}),
                   Sent(ms, monitor, from, {"FAIL", "ERROR"}))
  {
    if ms == [] {
      NothingLater(map[], monitor, from, from);
    } else {
      var init, m := ms[..|ms| - 1], ms[|ms| - 1];
      CountsAreSubmissions(init, monitor, from);
      var t := StoreAll(init);
      StoredIffKnown(t, m);
      if (m.run, Stored(m.eventAt)) in t {
        StoredKeys(init, (m.run, Stored(m.eventAt)));
      }
      hide Direct, ProcessResult;
      if m.status in {"OK", "FAIL", "ERROR"} {
        StoreCounts(t, m, monitor, from);
      }
    }
  }

  /** A monitor is shown at 100 percent and without failures when every message that counts says "OK". */
  lemma AllOk(ms: seq<MonitorResult>, monitor: string, from: Time)
    requires NoneRepeated(ms) && Sent(ms, monitor, from, {"FAIL", "ERROR"}) == 0 < Sent(ms, monitor, from, {"OK"})
    ensures var n := Sent(ms, monitor, from, {"OK"});
            AnswerOf(Direct(StoreAll(ms), monitor, from)) == Answer(Counts(n, n, 0), 100)
  {
    CountsAreSubmissions(ms, monitor, from);
    var rows := Raw(StoreAll(ms), monitor, from);
    CountsWhole(StoreAll(ms), rows);
    PercentRange(Sent(ms, monitor, from, {"OK"}), Sent(ms, monitor, from, {"OK"}));
  }
}
