/** The uptime timelines: buckets of raw rows, hourly counts re-bucketed to two hours, and the daily rows as they are. */
module Timelines {
  import opened Wrappers
  import opened Times
  import opened Results
  import opened Sums
  import opened RollUp
  import opened Uptime

  type Timeline = map<Time, Counts>

  function RawPoints(width: Time, results: ResultTable, monitor: string, from: Time): set<Time>
    requires width > 0
  {
    set k | k in Raw(results, monitor, from) :: Bucket(width, k.1)
  }

  function RawIn(width: Time, results: ResultTable, monitor: string, from: Time, b: Time): set<Key>
    requires width > 0
  {
    set k | k in Raw(results, monitor, from) && Bucket(width, k.1) == b
  }

  /** GROUP BY time_bucket(width, event_at). */
  function RawTimeline(width: Time, results: ResultTable, monitor: string, from: Time): Timeline
    requires width > 0
  {
    map b | b in RawPoints(width, results, monitor, from) :: CountsOf(results, RawIn(width, results, monitor, from, b))
  }

  function Points(width: Time, agg: Aggregate, monitor: string, from: Time): set<Time>
    requires width > 0
  {
    set g | g in Selected(agg, monitor, from) :: Bucket(width, g.bucket)
  }

  function GroupsIn(width: Time, agg: Aggregate, monitor: string, from: Time, b: Time): set<Group>
    requires width > 0
  {
    set g | g in Selected(agg, monitor, from) && Bucket(width, g.bucket) == b
  }

  /** GROUP BY time_bucket(width, bucket) over an aggregate. */
  ghost function Rebucketed(width: Time, agg: Aggregate, monitor: string, from: Time): Timeline
    requires width > 0
  {
    map b | b in Points(width, agg, monitor, from) :: Totals(agg, GroupsIn(width, agg, monitor, from, b))
  }

  // ---------------------------------------------------------------------------------------------------------------
  // Re-bucketing

  lemma UniqueBucket(width: Time, t: Time, b: Time)
    requires width > 0 && b % width == 0 && b <= t < b + width
    ensures Bucket(width, t) == b
  {
    var c := Bucket(width, t);
    if b < c {
      SameBoundary(width, b, c);
    } else if c < b {
      SameBoundary(width, c, b);
    }
  }

  lemma CoarserBoundary(k: int, width: Time, b: Time)
    requires width > 0 && k > 0 && k * width > 0 && b % (k * width) == 0
    ensures b % width == 0
  {
    var q := b / (k * width);
    assert b == q * (k * width) == (q * k) * width;
    WholeMultiple(q * k, width);
  }

  /** The coarse bucket of a fine bucket is the coarse bucket of what lies in it. */
  lemma BucketOfBucket(k: int, width: Time, t: Time)
    requires width > 0 && k > 0 && k * width > 0
    ensures Bucket(k * width, Bucket(width, t)) == Bucket(k * width, t)
  {
    var fine, coarse := Bucket(width, t), Bucket(k * width, t);
    CoarserBoundary(k, width, coarse);
    if fine < coarse {
      SameBoundary(width, fine, coarse);
    }
    UniqueBucket(k * width, fine, coarse);
  }

  lemma GroupsOfRaw(results: ResultTable, monitor: string, from: Time, b: Time)
    ensures var agg := Aggregated(HOUR, results);
            RowsOf(HOUR, results, GroupsIn(2 * HOUR, agg, monitor, from, b))
              == RawIn(2 * HOUR, results, monitor, Ceiling(HOUR, from), b)
  {
    var agg := Aggregated(HOUR, results);
    forall k | k in results
      ensures k in RowsOf(HOUR, results, GroupsIn(2 * HOUR, agg, monitor, from, b))
              <==> k in RawIn(2 * HOUR, results, monitor, Ceiling(HOUR, from), b)
    {
      BucketAfterCutoff(HOUR, k.1, from);
      BucketOfBucket(2, HOUR, k.1);
      assert GroupOf(HOUR, results, k) in Groups(HOUR, results);
    }
  }

  lemma SamePoints(results: ResultTable, monitor: string, from: Time)
    ensures Points(2 * HOUR, Aggregated(HOUR, results), monitor, from)
            == RawPoints(2 * HOUR, results, monitor, Ceiling(HOUR, from))
  {
    var agg := Aggregated(HOUR, results);
    forall b ensures b in Points(2 * HOUR, agg, monitor, from) <==> b in RawPoints(2 * HOUR, results, monitor, Ceiling(HOUR, from)) {
      GroupsOfRaw(results, monitor, from, b);
      if b in Points(2 * HOUR, agg, monitor, from) {
        var g :| g in Selected(agg, monitor, from) && Bucket(2 * HOUR, g.bucket) == b;
        var k :| k in results && GroupOf(HOUR, results, k) == g;
        assert g in GroupsIn(2 * HOUR, agg, monitor, from, b);
        assert k in RawIn(2 * HOUR, results, monitor, Ceiling(HOUR, from), b);
      }
      if b in RawPoints(2 * HOUR, results, monitor, Ceiling(HOUR, from)) {
        var k :| k in Raw(results, monitor, Ceiling(HOUR, from)) && Bucket(2 * HOUR, k.1) == b;
        assert k in RawIn(2 * HOUR, results, monitor, Ceiling(HOUR, from), b);
        assert GroupOf(HOUR, results, k) in GroupsIn(2 * HOUR, agg, monitor, from, b);
      }
    }
  }

  /** With refreshed aggregates, re-bucketing hourly counts to two hours is bucketing the raw rows to two hours, point by
      point, from the first full hour. */
  lemma RebucketIsDirect(results: ResultTable, monitor: string, from: Time)
    ensures Rebucketed(2 * HOUR, Aggregated(HOUR, results), monitor, from)
            == RawTimeline(2 * HOUR, results, monitor, Ceiling(HOUR, from))
  {
    var agg := Aggregated(HOUR, results);
    SamePoints(results, monitor, from);
    forall b | b in Points(2 * HOUR, agg, monitor, from)
      ensures Totals(agg, GroupsIn(2 * HOUR, agg, monitor, from, b))
              == CountsOf(results, RawIn(2 * HOUR, results, monitor, Ceiling(HOUR, from), b))
    {
      GroupsOfRaw(results, monitor, from, b);
      GroupsCount(HOUR, results, GroupsIn(2 * HOUR, agg, monitor, from, b));
    }
  }

  // ---------------------------------------------------------------------------------------------------------------
  // Sums

  function TotalAt(line: Timeline): Time -> nat {
    b => if b in line then line[b].total else 0
  }

  function OkAt(line: Timeline): Time -> nat {
    b => if b in line then line[b].ok else 0
  }

  lemma ColumnOfRaw(width: Time, results: ResultTable, monitor: string, from: Time, rows: set<Key>, column: Time -> nat)
    requires width > 0 && rows <= Raw(results, monitor, from)
    requires forall b :: b in RawPoints(width, results, monitor, from) ==> column(b) == |rows * RawIn(width, results, monitor, from, b)|
    ensures Sum(RawPoints(width, results, monitor, from), column) == |rows|
  {
    var points, key := RawPoints(width, results, monitor, from), (k: Key) => Bucket(width, k.1);
    CountGroups(rows, points, key);
    forall b | b in points ensures column(b) == (h => |Fiber(rows, key, h)|)(b) {
      assert Fiber(rows, key, b) == rows * RawIn(width, results, monitor, from, b);
    }
    SumSame(points, column, h => |Fiber(rows, key, h)|);
  }

  /** The day's timeline sums to the day's raw counts. */
  lemma RawTimelineSums(width: Time, results: ResultTable, monitor: string, from: Time)
    requires width > 0
    ensures var line := RawTimeline(width, results, monitor, from);
            && Sum(line.Keys, TotalAt(line)) == Direct(results, monitor, from).total
            && Sum(line.Keys, OkAt(line)) == Direct(results, monitor, from).ok
  {
    var line, rows := RawTimeline(width, results, monitor, from), Raw(results, monitor, from);
    assert line.Keys == RawPoints(width, results, monitor, from);
    forall b | b in line
      ensures TotalAt(line)(b) == |rows * RawIn(width, results, monitor, from, b)|
      ensures OkAt(line)(b) == |OkOf(results, rows) * RawIn(width, results, monitor, from, b)|
    {
      var mine := RawIn(width, results, monitor, from, b);
      assert rows * mine == mine && OkOf(results, rows) * mine == OkOf(results, mine);
    }
    assert OkOf(results, rows) <= rows;
    hide RawTimeline, Raw, OkOf, Sum;
    ColumnOfRaw(width, results, monitor, from, rows, TotalAt(line));
    ColumnOfRaw(width, results, monitor, from, OkOf(results, rows), OkAt(line));
  }

  lemma ColumnOfGroups(width: Time, agg: Aggregate, monitor: string, from: Time, f: Group -> nat, column: Time -> nat)
    requires width > 0
    requires forall b :: b in Points(width, agg, monitor, from) ==> column(b) == Sum(GroupsIn(width, agg, monitor, from, b), f)
    ensures Sum(Points(width, agg, monitor, from), column) == Sum(Selected(agg, monitor, from), f)
  {
    var points, groups, key := Points(width, agg, monitor, from), Selected(agg, monitor, from), (g: Group) => Bucket(width, g.bucket);
    SumGroups(groups, f, points, key);
    forall b | b in points ensures column(b) == (h => Sum(Fiber(groups, key, h), f))(b) {
      assert Fiber(groups, key, b) == GroupsIn(width, agg, monitor, from, b);
    }
    SumSame(points, column, h => Sum(Fiber(groups, key, h), f));
  }

  /** The week's timeline sums to the week's total query, whatever the aggregate holds. */
  lemma RebucketedSums(width: Time, agg: Aggregate, monitor: string, from: Time)
    requires width > 0
    ensures var line, total := Rebucketed(width, agg, monitor, from), Totals(agg, Selected(agg, monitor, from));
            Sum(line.Keys, TotalAt(line)) == total.total && Sum(line.Keys, OkAt(line)) == total.ok
  {
    var line := Rebucketed(width, agg, monitor, from);
    assert line.Keys == Points(width, agg, monitor, from);
    ColumnOfGroups(width, agg, monitor, from, TotalIn(agg), TotalAt(line));
    ColumnOfGroups(width, agg, monitor, from, OkIn(agg), OkAt(line));
  }

  // ---------------------------------------------------------------------------------------------------------------
  // Where the views of one range differ

  lemma LaterRows(results: ResultTable, monitor: string, from: Time, later: Time)
    requires from <= later
    ensures |Raw(results, monitor, later)| == |Raw(results, monitor, from)| <==> forall k :: k in Raw(results, monitor, from) ==> k.1 >= later
    ensures |Raw(results, monitor, later)| == 0 <==> forall k :: k in Raw(results, monitor, from) ==> k.1 < later
  {
    var all, late := Raw(results, monitor, from), Raw(results, monitor, later);
    assert all == late + (all - late);
    assert |all - late| == 0 <==> all - late == {};
    assert |late| == 0 <==> late == {};
  }

  /** For a day, the total and the timeline count the same checks exactly when none lies in the first, incomplete hour or
      all do. */
  lemma DayViewsAgreeIff(results: ResultTable, monitor: string, now: Time)
    ensures var day := now - 24 * HOUR;
            var shown := Fetch24h(Counted(HOUR, results, monitor, day), Some(Direct(results, monitor, day))).value.counts;
            var line := RawTimeline(15 * MINUTE, results, monitor, day);
            var full := Ceiling(HOUR, day);
            Sum(line.Keys, TotalAt(line)) == shown.total <==>
              (forall k :: k in Raw(results, monitor, day) ==> k.1 >= full) || (forall k :: k in Raw(results, monitor, day) ==> k.1 < full)
  {
    var day := now - 24 * HOUR;
    var full := Ceiling(HOUR, day);
    TotalIsRaw(HOUR, results, monitor, day);
    RawTimelineSums(15 * MINUTE, results, monitor, day);
    LaterRows(results, monitor, day, full);
    hide RawTimeline, Totals, Aggregated, Raw, Sum, OkOf, FailedOf;
  }

  function DayRows(results: ResultTable, monitor: string, b: Time): set<Key> {
    set k | k in results && results[k].monitor == monitor && Bucket(24 * HOUR, k.1) == b
  }

  /** The month's timeline shows the daily rows as they are, one per region: a day appears more than once exactly when
      results of the monitor from two regions fall into it. */
  lemma DayRepeatsIff(results: ResultTable, monitor: string, from: Time, b: Time)
    requires b >= from
    ensures var agg := Aggregated(24 * HOUR, results);
            (exists g, h :: g in Selected(agg, monitor, from) && h in Selected(agg, monitor, from) && g != h && g.bucket == b == h.bucket)
            <==> exists k, l :: k in DayRows(results, monitor, b) && l in DayRows(results, monitor, b) && results[k].region != results[l].region
  {
    var agg := Aggregated(24 * HOUR, results);
    forall g, h | g in Selected(agg, monitor, from) && h in Selected(agg, monitor, from) && g != h && g.bucket == b == h.bucket
      ensures exists k, l :: k in DayRows(results, monitor, b) && l in DayRows(results, monitor, b) && results[k].region != results[l].region
    {
      var k :| k in results && GroupOf(24 * HOUR, results, k) == g;
      var l :| l in results && GroupOf(24 * HOUR, results, l) == h;
      assert k in DayRows(results, monitor, b) && l in DayRows(results, monitor, b);
    }
    forall k, l | k in DayRows(results, monitor, b) && l in DayRows(results, monitor, b) && results[k].region != results[l].region
      ensures exists g, h :: g in Selected(agg, monitor, from) && h in Selected(agg, monitor, from) && g != h && g.bucket == b == h.bucket
    {
      var g, h := GroupOf(24 * HOUR, results, k), GroupOf(24 * HOUR, results, l);
      assert g in Selected(agg, monitor, from) && h in Selected(agg, monitor, from);
    }
  }
}
