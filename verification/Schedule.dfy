/** One iteration of the scheduler as a function of the tables, and when it loses nothing. */
module Schedule {
  import opened Wrappers
  import opened Times
  import opened Jobs
  import opened Cadence
  import opened RunIds
  import Regions

  /** A row of app.monitors, without the columns that only describe the request to make. */
  datatype Monitor = Monitor(
    intervalMs: int,
    seed: int,
    regions: seq<string>,
    enabled: bool,
    deleted: bool,
    last: Option<Time>,
    nextDue: Option<Time>)
  {
    predicate Due(now: Time) {
      enabled && !deleted && (nextDue.Some? ==> nextDue.value <= Stored(now + LOOK_AHEAD))
    }
  }

  type Monitors = map<string, Monitor>

  datatype Schedules = Schedules(jobs: Table, monitors: Monitors)

  /** NULLS FIRST, then by due time. */
  predicate NotLater(a: Option<Time>, b: Option<Time>) {
    a.Some? ==> b.Some? && a.value <= b.value
  }

  /** An answer of ListDueMonitors: the due rows nobody has locked, ordered by due time. */
  ghost predicate IsDueList(monitors: Monitors, now: Time, locked: set<string>, due: seq<string>) {
    && Regions.NoRepeats(due)
    && (forall id :: id in due <==> id in monitors && id !in locked && monitors[id].Due(now))
    && forall i, j :: 0 <= i < j < |due| ==> NotLater(monitors[due[i]].nextDue, monitors[due[j]].nextDue)
  }

  function JitteredInterval(env: Env, id: string, m: Monitor): Time {
    ApplyJitter(Interval(m.intervalMs), env.hash(id, m.seed))
  }

  /** The inserts of one monitor, region by region; None when one of them fails and takes the transaction with it. */
  function InsertRegions(env: Env, jobs: Table, id: string, regions: seq<string>, at: Time,
                        window: Time): Option<Table> {
    if regions == [] then Some(jobs) else
      var n := |regions| - 1;
      match InsertRegions(env, jobs, id, regions[..n], at, window)
      case None => None
      case Some(t) =>
        match InsertIfAbsent(t, GenerateRunId(env, id, regions[n], at), NewRow(id, regions[n], Stored(at)),
                             Stored(at - window), Stored(at + window))
        case Inserted(t') => Some(t')
        case Duplicate => Some(t)
        case Violation => None
  }

  /** scheduleMonitorTx on the row `m` that the listing returned. */
  function ScheduleMonitor(env: Env, s: Schedules, id: string, m: Monitor, now: Time): Option<Schedules> {
    var at := StartOf(m, now);
    match InsertRegions(env, s.jobs, id, m.regions, at, DedupWindow(Interval(m.intervalMs)))
    case None => None
    case Some(t) =>
      var next := Stored(at + JitteredInterval(env, id, m));
      Some(Schedules(t,
        if id in s.monitors then s.monitors[id := s.monitors[id].(last := Some(Stored(at)), nextDue := Some(next))]
        else s.monitors))
  }

  /** scheduleIteration over the listed monitors; None when the transaction is rolled back. */
  function ScheduleAll(env: Env, s: Schedules, due: seq<string>, now: Time): Option<Schedules>
    requires forall id :: id in due ==> id in s.monitors
  {
    if due == [] then Some(s) else
      var n := |due| - 1;
      match ScheduleAll(env, s, due[..n], now)
      case None => None
      case Some(u) => ScheduleMonitor(env, u, due[n], s.monitors[due[n]], now)
  }

  // ---------------------------------------------------------------------------------------------------------------
  // What holds of every iteration

  ghost predicate NewFor(env: Env, r: RunId, row: Job, id: string, regions: seq<string>, at: Time) {
    exists i :: 0 <= i < |regions| && r == GenerateRunId(env, id, regions[i], at) && row == NewRow(id, regions[i], Stored(at))
  }

  /** Rows are only added, and an added row is a new ready row of the given monitor under its generated id. */
  ghost predicate Grown(env: Env, before: Table, after: Table, id: string, regions: seq<string>, at: Time) {
    && (forall r :: r in before ==> r in after && after[r] == before[r])
    && forall r :: r in after && r !in before ==> NewFor(env, r, after[r], id, regions, at)
  }

  lemma GrowByOne(env: Env, before: Table, t: Table, id: string, regions: seq<string>, at: Time, from: Time, to: Time)
    requires regions != []
    requires Grown(env, before, t, id, regions[..|regions| - 1], at)
    ensures var n := |regions| - 1;
            var run, row := GenerateRunId(env, id, regions[n], at), NewRow(id, regions[n], Stored(at));
            var out := InsertIfAbsent(t, run, row, from, to);
            && Grown(env, before, t, id, regions, at)
            && (out.Inserted? ==> Grown(env, before, out.table, id, regions, at))
  {
    var n := |regions| - 1;
    forall r | r in t && r !in before ensures NewFor(env, r, t[r], id, regions, at) {
      var i :| 0 <= i < n && r == GenerateRunId(env, id, regions[..n][i], at)
               && t[r] == NewRow(id, regions[..n][i], Stored(at));
      assert regions[..n][i] == regions[i];
    }
    var run, row := GenerateRunId(env, id, regions[n], at), NewRow(id, regions[n], Stored(at));
    assert NewFor(env, run, row, id, regions, at);
  }

  lemma {:induction false} InsertsGrow(env: Env, jobs: Table, id: string, regions: seq<string>, at: Time, window: Time)
    ensures var t := InsertRegions(env, jobs, id, regions, at, window);
            t.Some? ==> Grown(env, jobs, t.value, id, regions, at)
  {
    if regions != [] {
      var init := regions[..|regions| - 1];
      InsertsGrow(env, jobs, id, init, at, window);
      var t := InsertRegions(env, jobs, id, init, at, window);
      if t.Some? {
        GrowByOne(env, jobs, t.value, id, regions, at, Stored(at - window), Stored(at + window));
      }
    }
  }

  /** A distance per monitor. */
  type Gap = string -> Time

  /** Active rows of one monitor and region keep a distance of more than the monitor's `gap`. */
  ghost predicate Separated(jobs: Table, gap: Gap) {
    forall r, q :: r in jobs && q in jobs && r != q && jobs[r].Active() && jobs[q].Active()
                   && jobs[r].monitor == jobs[q].monitor && jobs[r].region == jobs[q].region
                   ==> jobs[r].at - jobs[q].at > gap(jobs[r].monitor) || jobs[q].at - jobs[r].at > gap(jobs[r].monitor)
  }

  /** The duplicate check of one insert looks at least `gap` to both sides, so it keeps the distance. */
  lemma InsertKeepsSeparation(jobs: Table, run: RunId, row: Job, at: Time, window: Time, gap: Gap)
    requires Separated(jobs, gap) && row.at == Stored(at)
    requires gap(row.monitor) <= window && window % MICROSECOND == 0
    ensures var out := InsertIfAbsent(jobs, run, row, Stored(at - window), Stored(at + window));
            && (out.Inserted? ==> Separated(out.table, gap))
            && (out.Violation? && 0 <= window ==> run in jobs)
  {
    WindowEnds(at, window);
    hide Stored;
  }

  lemma WindowEnds(at: Time, window: Time)
    requires window % MICROSECOND == 0
    ensures Stored(at - window) == Stored(at) - window && Stored(at + window) == Stored(at) + window
  {
    StoredSum(at, -window);
    StoredSum(at, window);
  }

  lemma {:induction false} InsertsKeepSeparation(env: Env, jobs: Table, id: string, regions: seq<string>, at: Time,
                        window: Time, gap: Gap)
    requires Separated(jobs, gap) && gap(id) <= window && window % MICROSECOND == 0
    ensures var t := InsertRegions(env, jobs, id, regions, at, window);
            t.Some? ==> Separated(t.value, gap)
  {
    if regions != [] {
      var n := |regions| - 1;
      InsertsKeepSeparation(env, jobs, id, regions[..n], at, window, gap);
      var t := InsertRegions(env, jobs, id, regions[..n], at, window);
      if t.Some? {
        InsertKeepsSeparation(t.value, GenerateRunId(env, id, regions[n], at), NewRow(id, regions[n], Stored(at)), at, window, gap);
      }
    }
  }

  function StartOf(m: Monitor, now: Time): Time {
    StartTime(m.nextDue, now)
  }

  /** The monitor row after it was scheduled at `now`. */
  function Advanced(env: Env, id: string, m: Monitor, now: Time): Monitor {
    m.(last := Some(Stored(StartOf(m, now))), nextDue := Some(Stored(StartOf(m, now) + JitteredInterval(env, id, m))))
  }

  ghost predicate NewIn(env: Env, r: RunId, row: Job, monitors: Monitors, due: seq<string>, now: Time)
    requires forall id :: id in due ==> id in monitors
  {
    exists id :: id in due && NewFor(env, r, row, id, monitors[id].regions, StartOf(monitors[id], now))
  }

  ghost predicate RowsAdded(env: Env, s: Schedules, jobs: Table, due: seq<string>, now: Time)
    requires forall id :: id in due ==> id in s.monitors
  {
    && (forall r :: r in s.jobs ==> r in jobs && jobs[r] == s.jobs[r])
    && (forall r :: r in jobs && r !in s.jobs ==> NewIn(env, r, jobs[r], s.monitors, due, now))
  }

  ghost predicate MonitorsAdvanced(env: Env, s: Schedules, monitors: Monitors, due: seq<string>, now: Time) {
    && monitors.Keys == s.monitors.Keys
    && forall id :: id in s.monitors ==>
         monitors[id] == if id in due then Advanced(env, id, s.monitors[id], now) else s.monitors[id]
  }

  /** The committed effect of an iteration: old rows untouched, new rows at the start times of listed monitors, and
      exactly the listed monitors moved on. */
  ghost predicate Moved(env: Env, s: Schedules, u: Schedules, due: seq<string>, now: Time)
    requires forall id :: id in due ==> id in s.monitors
  {
    RowsAdded(env, s, u.jobs, due, now) && MonitorsAdvanced(env, s, u.monitors, due, now)
  }

  lemma AddedOnce(env: Env, s: Schedules, jobs: Table, init: seq<string>, id: string, now: Time)
    requires id in s.monitors && forall x :: x in init ==> x in s.monitors
    requires RowsAdded(env, s, jobs, init, now)
    ensures var m := s.monitors[id];
            var t := InsertRegions(env, jobs, id, m.regions, StartOf(m, now), DedupWindow(Interval(m.intervalMs)));
            t.Some? ==> RowsAdded(env, s, t.value, init + [id], now)
  {
    var m := s.monitors[id];
    var at := StartOf(m, now);
    var t := InsertRegions(env, jobs, id, m.regions, at, DedupWindow(Interval(m.intervalMs)));
    InsertsGrow(env, jobs, id, m.regions, at, DedupWindow(Interval(m.intervalMs)));
    if t.Some? {
      forall r | r in t.value && r !in s.jobs ensures NewIn(env, r, t.value[r], s.monitors, init + [id], now) {
        if r in jobs {
          assert NewIn(env, r, jobs[r], s.monitors, init, now);
          var x :| x in init && NewFor(env, r, jobs[r], x, s.monitors[x].regions, StartOf(s.monitors[x], now));
          assert x in init + [id];
        } else {
          assert NewFor(env, r, t.value[r], id, m.regions, at);
          assert id in init + [id];
        }
      }
    }
  }

  lemma MovedOnce(env: Env, s: Schedules, u: Schedules, due: seq<string>, now: Time)
    requires due != [] && forall id :: id in due ==> id in s.monitors
    requires Moved(env, s, u, due[..|due| - 1], now)
    ensures var id := due[|due| - 1];
            var v := ScheduleMonitor(env, u, id, s.monitors[id], now);
            v.Some? ==> Moved(env, s, v.value, due, now)
  {
    var init, id := due[..|due| - 1], due[|due| - 1];
    assert due == init + [id];
    AddedOnce(env, s, u.jobs, init, id, now);
  }

  lemma {:induction false} IterationMoves(env: Env, s: Schedules, due: seq<string>, now: Time)
    requires forall id :: id in due ==> id in s.monitors
    ensures var u := ScheduleAll(env, s, due, now);
            u.Some? ==> Moved(env, s, u.value, due, now)
  {
    if due != [] {
      var init := due[..|due| - 1];
      IterationMoves(env, s, init, now);
      var u := ScheduleAll(env, s, init, now);
      if u.Some? {
        MovedOnce(env, s, u.value, due, now);
      }
    }
  }

  /** An iteration keeps active rows of one monitor and region apart by whatever its duplicate windows cover. */
  lemma {:induction false} IterationKeepsSeparation(env: Env, s: Schedules, due: seq<string>, now: Time, gap: Gap)
    requires forall id :: id in due ==> id in s.monitors
    requires Separated(s.jobs, gap)
    requires forall id :: id in due ==> gap(id) <= DedupWindow(Interval(s.monitors[id].intervalMs))
    ensures var u := ScheduleAll(env, s, due, now);
            u.Some? ==> Separated(u.value.jobs, gap)
  {
    if due != [] {
      var init, id := due[..|due| - 1], due[|due| - 1];
      IterationKeepsSeparation(env, s, init, now, gap);
      var u := ScheduleAll(env, s, init, now);
      if u.Some? {
        var m := s.monitors[id];
        DedupBounds(m.intervalMs);
        InsertsKeepSeparation(env, u.value.jobs, id, m.regions, StartOf(m, now), DedupWindow(Interval(m.intervalMs)), gap);
      }
    }
  }

  // ---------------------------------------------------------------------------------------------------------------
  // When nothing is lost

  function NewRows(env: Env, id: string, regions: seq<string>, at: Time): Table {
    if regions == [] then map[] else
      var n := |regions| - 1;
      NewRows(env, id, regions[..n], at)[GenerateRunId(env, id, regions[n], at) := NewRow(id, regions[n], Stored(at))]
  }

  lemma OtherRegion(env: Env, id: string, g: string, g': string, at: Time)
    requires ValidEnv(env) && g != g'
    ensures GenerateRunId(env, id, g, at) != GenerateRunId(env, id, g', at)
  {
    RunIdEqual(env, id, g, at, id, g', at);
    PlaceOfOneMonitor(id, g, g');
  }

  /** One row per region, under its id, and no other. */
  ghost predicate RowsAre(env: Env, id: string, regions: seq<string>, at: Time, rows: Table) {
    && |rows| == |regions|
    && (forall i :: 0 <= i < |regions| ==>
          var r := GenerateRunId(env, id, regions[i], at);
          r in rows && rows[r] == NewRow(id, regions[i], Stored(at)))
    && forall r :: r in rows ==> exists i :: 0 <= i < |regions| && r == GenerateRunId(env, id, regions[i], at)
  }

  lemma NextRowIsNew(env: Env, id: string, regions: seq<string>, at: Time, rows: Table)
    requires ValidEnv(env) && Regions.NoRepeats(regions) && regions != []
    requires RowsAre(env, id, regions[..|regions| - 1], at, rows)
    ensures GenerateRunId(env, id, regions[|regions| - 1], at) !in rows
  {
    var n := |regions| - 1;
    forall r | r in rows ensures r != GenerateRunId(env, id, regions[n], at) {
      var i :| 0 <= i < n && r == GenerateRunId(env, id, regions[..n][i], at);
      assert regions[..n][i] == regions[i];
      OtherRegion(env, id, regions[i], regions[n], at);
    }
  }

  lemma OneMoreRow(env: Env, id: string, regions: seq<string>, at: Time, rows: Table)
    requires regions != [] && RowsAre(env, id, regions[..|regions| - 1], at, rows)
    requires GenerateRunId(env, id, regions[|regions| - 1], at) !in rows
    ensures var n := |regions| - 1;
            RowsAre(env, id, regions, at, rows[GenerateRunId(env, id, regions[n], at) := NewRow(id, regions[n], Stored(at))])
  {
    hide GenerateRunId, Stored, NewRow;
    var n := |regions| - 1;
    var last := GenerateRunId(env, id, regions[n], at);
    var more := rows[last := NewRow(id, regions[n], Stored(at))];
    forall i | 0 <= i < |regions|
      ensures var r := GenerateRunId(env, id, regions[i], at);
              r in more && more[r] == NewRow(id, regions[i], Stored(at))
    {
      assert i < n ==> regions[..n][i] == regions[i];
    }
    forall r | r in more ensures exists i :: 0 <= i < |regions| && r == GenerateRunId(env, id, regions[i], at) {
      if r != last {
        var i :| 0 <= i < n && r == GenerateRunId(env, id, regions[..n][i], at);
        assert r == GenerateRunId(env, id, regions[i], at);
      }
    }
  }

  lemma {:induction false} NewRowsAre(env: Env, id: string, regions: seq<string>, at: Time)
    requires ValidEnv(env) && Regions.NoRepeats(regions)
    ensures RowsAre(env, id, regions, at, NewRows(env, id, regions, at))
  {
    if regions != [] {
      hide GenerateRunId, ValidEnv, Stored, RowsAre;
      var init := regions[..|regions| - 1];
      NewRowsAre(env, id, init, at);
      NextRowIsNew(env, id, regions, at, NewRows(env, id, init, at));
      OneMoreRow(env, id, regions, at, NewRows(env, id, init, at));
    }
  }

  /** The id of one more region is new to the rows of the regions before it, and so is the region. */
  lemma OneMoreRegion(env: Env, id: string, regions: seq<string>, at: Time)
    requires ValidEnv(env) && Regions.NoRepeats(regions) && regions != []
    ensures var n := |regions| - 1;
            var rows := NewRows(env, id, regions[..n], at);
            && GenerateRunId(env, id, regions[n], at) !in rows
            && forall r :: r in rows ==> rows[r].region != regions[n]
  {
    var n := |regions| - 1;
    var init := regions[..n];
    var rows := NewRows(env, id, init, at);
    NewRowsAre(env, id, init, at);
    forall r | r in rows ensures r != GenerateRunId(env, id, regions[n], at) && rows[r].region != regions[n] {
      var i :| 0 <= i < n && r == GenerateRunId(env, id, init[i], at);
      assert init[i] == regions[i];
      OtherRegion(env, id, regions[i], regions[n], at);
    }
  }

  lemma InsertSucceeds(jobs: Table, rows: Table, run: RunId, row: Job, from: Time, to: Time)
    requires run !in jobs && run !in rows && from <= row.at <= to
    requires forall r :: r in jobs && jobs[r].monitor == row.monitor ==> jobs[r].at < from
    requires forall r :: r in rows ==> rows[r].region != row.region
    ensures InsertIfAbsent(jobs + rows, run, row, from, to) == Inserted(jobs + rows[run := row])
  {
    assert (jobs + rows)[run := row] == jobs + rows[run := row];
  }

  ghost predicate IdsFree(env: Env, jobs: Table, id: string, regions: seq<string>, at: Time) {
    forall g :: g in regions ==> GenerateRunId(env, id, g, at) !in jobs
  }

  ghost predicate RowsBefore(jobs: Table, id: string, from: Time) {
    forall r :: r in jobs && jobs[r].monitor == id ==> jobs[r].at < from
  }

  lemma LastRegion(env: Env, jobs: Table, id: string, regions: seq<string>, at: Time, window: Time)
    requires ValidEnv(env) && Regions.NoRepeats(regions) && 0 <= window && regions != []
    requires RowsBefore(jobs, id, Stored(at - window))
    requires GenerateRunId(env, id, regions[|regions| - 1], at) !in jobs
    ensures
      var n := |regions| - 1;
      InsertIfAbsent(jobs + NewRows(env, id, regions[..n], at), GenerateRunId(env, id, regions[n], at),
                     NewRow(id, regions[n], Stored(at)), Stored(at - window), Stored(at + window)) ==
      Inserted(jobs + NewRows(env, id, regions, at))
  {
    var n := |regions| - 1;
    OneMoreRegion(env, id, regions, at);
    StoredMonotone(at - window, at);
    StoredMonotone(at, at + window);
    InsertSucceeds(jobs, NewRows(env, id, regions[..n], at), GenerateRunId(env, id, regions[n], at),
                   NewRow(id, regions[n], Stored(at)), Stored(at - window), Stored(at + window));
  }

  /** One new job in every region: no older row of the monitor reaches the window and no id is taken. */
  lemma {:induction false} InsertsEveryRegion(env: Env, jobs: Table, id: string, regions: seq<string>, at: Time,
                        window: Time)
    requires ValidEnv(env) && Regions.NoRepeats(regions) && 0 <= window
    requires RowsBefore(jobs, id, Stored(at - window))
    requires IdsFree(env, jobs, id, regions, at)
    ensures InsertRegions(env, jobs, id, regions, at, window) == Some(jobs + NewRows(env, id, regions, at))
  {
    if regions == [] {
      assert jobs + map[] == jobs;
    } else {
      var init := regions[..|regions| - 1];
      assert forall g :: g in init ==> g in regions;
      InsertsEveryRegion(env, jobs, id, init, at, window);
      LastRegion(env, jobs, id, regions, at, window);
    }
  }
}
