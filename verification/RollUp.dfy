/** Uptime counts: pre-aggregated by hour or day, summed and re-bucketed, against direct counts over the raw results. */
module RollUp {
  import opened Wrappers
  import opened Times
  import opened Jobs
  import opened Results
  import opened Sums

  type Key = (RunId, Time)

  datatype Counts = Counts(total: nat, ok: nat, failed: nat)

  datatype Group = Group(monitor: string, region: string, bucket: Time)

  /** A continuous aggregate: one row per monitor, region and bucket. */
  type Aggregate = map<Group, Counts>

  /** time_bucket for widths that divide a day. */
  function Bucket(width: Time, t: Time): (b: Time)
    requires width > 0
    ensures b <= t < b + width && b % width == 0
  {
    BucketOf(width, t);
    t - t % width
  }

  lemma BucketOf(width: Time, t: Time)
    requires width > 0
    ensures (t - t % width) % width == 0
  {
    var q := t / width;
    assert t - t % width == q * width;
    WholeMultiple(q, width);
  }

  /** The first bucket boundary at or after an instant. */
  function Ceiling(width: Time, t: Time): (c: Time)
    requires width > 0
    ensures t <= c < t + width && c % width == 0
  {
    var b := Bucket(width, t);
    NextBoundary(width, b);
    if b == t then t else b + width
  }

  lemma NextBoundary(width: Time, b: Time)
    requires width > 0 && b % width == 0
    ensures (b + width) % width == 0
  {
    var q := b / width;
    assert b + width == (q + 1) * width;
    WholeMultiple(q + 1, width);
  }

  /** A boundary is a multiple, so two boundaries less than a width apart are one. */
  lemma SameBoundary(width: Time, a: Time, b: Time)
    requires width > 0 && a % width == 0 && b % width == 0 && a < b
    ensures a + width <= b
  {
    var p, q := a / width, b / width;
    assert a == p * width && b == q * width;
    assert b - a == (q - p) * width;
    SignOfProduct(q - p, width);
  }

  lemma BucketAfterCutoff(width: Time, t: Time, from: Time)
    requires width > 0
    ensures Bucket(width, t) >= from <==> t >= Ceiling(width, from)
  {
    var b, c := Bucket(width, t), Ceiling(width, from);
    if b < c {
      SameBoundary(width, b, c);
    }
  }

  // ---------------------------------------------------------------------------------------------------------------
  // Counting

  function OkOf(results: ResultTable, keys: set<Key>): set<Key> {
    set k | k in keys && k in results && results[k].status == "OK"
  }

  function FailedOf(results: ResultTable, keys: set<Key>): set<Key> {
    set k | k in keys && k in results && results[k].status != "OK"
  }

  function CountsOf(results: ResultTable, keys: set<Key>): Counts {
    Counts(|keys|, |OkOf(results, keys)|, |FailedOf(results, keys)|)
  }

  function Raw(results: ResultTable, monitor: string, from: Time): set<Key> {
    set k | k in results && results[k].monitor == monitor && k.1 >= from
  }

  function GroupOf(width: Time, results: ResultTable, k: Key): Group
    requires width > 0
  {
    if k in results then Group(results[k].monitor, results[k].region, Bucket(width, k.1)) else Group("", "", 0)
  }

  function Groups(width: Time, results: ResultTable): set<Group>
    requires width > 0
  {
    set k | k in results :: GroupOf(width, results, k)
  }

  function RowsOf(width: Time, results: ResultTable, groups: set<Group>): set<Key>
    requires width > 0
  {
    set k | k in results && GroupOf(width, results, k) in groups
  }

  /** The defining query of the hourly and daily aggregates. */
  function Aggregated(width: Time, results: ResultTable): Aggregate
    requires width > 0
  {
    map g | g in Groups(width, results) :: CountsOf(results, RowsOf(width, results, {g}))
  }

  function Selected(agg: Aggregate, monitor: string, from: Time): set<Group> {
    set g | g in agg && g.monitor == monitor && g.bucket >= from
  }

  function TotalIn(agg: Aggregate): Group -> nat {
    g => if g in agg then agg[g].total else 0
  }

  function OkIn(agg: Aggregate): Group -> nat {
    g => if g in agg then agg[g].ok else 0
  }

  function FailedIn(agg: Aggregate): Group -> nat {
    g => if g in agg then agg[g].failed else 0
  }

  /** The three SUMs over some rows of an aggregate. */
  ghost function Totals(agg: Aggregate, groups: set<Group>): Counts {
    Counts(Sum(groups, TotalIn(agg)), Sum(groups, OkIn(agg)), Sum(groups, FailedIn(agg)))
  }

  function Grouping(width: Time, results: ResultTable): Key -> Group
    requires width > 0
  {
    k => GroupOf(width, results, k)
  }

  ghost function Part(width: Time, results: ResultTable, rows: set<Key>, g: Group): set<Key>
    requires width > 0
  {
    Fiber(rows, Grouping(width, results), g)
  }

  /** One column of the aggregate, summed over some groups, counts the raw rows of those groups. */
  lemma ColumnCounts(width: Time, results: ResultTable, groups: set<Group>, rows: set<Key>, column: Group -> nat)
    requires width > 0 && rows <= RowsOf(width, results, groups)
    requires forall g :: g in groups ==> column(g) == |Part(width, results, rows, g)|
    ensures Sum(groups, column) == |rows|
  {
    var key := Grouping(width, results);
    CountGroups(rows, groups, key);
    SumSame(groups, column, h => |Fiber(rows, key, h)|);
  }

  lemma GroupCounts(width: Time, results: ResultTable, groups: set<Group>, g: Group)
    requires width > 0 && g in groups && g in Groups(width, results)
    ensures var rows := RowsOf(width, results, groups);
            Aggregated(width, results)[g] ==
            Counts(|Part(width, results, rows, g)|, |Part(width, results, OkOf(results, rows), g)|,
                   |Part(width, results, FailedOf(results, rows), g)|)
  {
    var rows, mine := RowsOf(width, results, groups), RowsOf(width, results, {g});
    assert Part(width, results, rows, g) == mine;
    assert Part(width, results, OkOf(results, rows), g) == OkOf(results, mine);
    assert Part(width, results, FailedOf(results, rows), g) == FailedOf(results, mine);
  }

  /** Summing aggregate rows counts the raw rows they stand for. */
  lemma GroupsCount(width: Time, results: ResultTable, groups: set<Group>)
    requires width > 0 && groups <= Groups(width, results)
    ensures Totals(Aggregated(width, results), groups) == CountsOf(results, RowsOf(width, results, groups))
  {
    var agg, rows := Aggregated(width, results), RowsOf(width, results, groups);
    forall g | g in groups
      ensures TotalIn(agg)(g) == |Part(width, results, rows, g)|
      ensures OkIn(agg)(g) == |Part(width, results, OkOf(results, rows), g)|
      ensures FailedIn(agg)(g) == |Part(width, results, FailedOf(results, rows), g)|
    {
      GroupCounts(width, results, groups, g);
    }
    assert OkOf(results, rows) <= rows && FailedOf(results, rows) <= rows;
    hide Aggregated, RowsOf, Part, Sum, TotalIn, OkIn, FailedIn, OkOf, FailedOf;
    ColumnCounts(width, results, groups, rows, TotalIn(agg));
    ColumnCounts(width, results, groups, OkOf(results, rows), OkIn(agg));
    ColumnCounts(width, results, groups, FailedOf(results, rows), FailedIn(agg));
  }
}
