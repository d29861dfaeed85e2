/** Scheduling never loses a run: under which conditions, monitor by monitor, and why whatever happens to the jobs in
    between does not matter. */
module Pace {
  import opened Wrappers
  import opened Times
  import opened Jobs
  import opened Cadence
  import opened RunIds
  import opened Schedule
  import opened Protocol
  import opened Leases
  import Regions

  function Tables(s: State): Schedules {
    Schedules(s.jobs, s.monitors)
  }

  /** The jittered interval; no shipped operation sets another seed than the default. */
  function GapOf(env: Env, id: string, ms: int): Time {
    ApplyJitter(Interval(ms), env.hash(id, DEFAULT_SEED))
  }

  // ---------------------------------------------------------------------------------------------------------------
  // The monitors of any run

  ghost predicate WellFormed(m: Monitor) {
    && Regions.NoRepeats(m.regions)
    && (forall g :: g in m.regions ==> Regions.Normal(g))
    && m.seed == DEFAULT_SEED
    && (m.last.Some? <==> m.nextDue.Some?)
    && (m.last.Some? ==> m.last.value % MICROSECOND == 0)
  }

  /** The next due time is at least `least` after the last start. */
  predicate Spread(m: Monitor, least: Time) {
    m.last.Some? ==> m.nextDue.Some? && m.nextDue.value >= m.last.value + least
  }

  /** The step commits an iteration that schedules the monitor. */
  ghost predicate Starts(c: Config, s: State, step: Step, id: string) {
    && step.ScheduleIteration? && id in step.due
    && (forall x :: x in step.due ==> x in s.monitors)
    && ScheduleAll(c.env, Tables(s), step.due, s.clock).Some?
  }

  /** The interval the monitor had when it was last scheduled. */
  ghost function LastInterval(c: Config, ss: seq<State>, steps: seq<Step>, id: string, n: nat): Option<int>
    requires n <= |steps| && n <= |ss|
  {
    if n == 0 then None
    else if Starts(c, ss[n - 1], steps[n - 1], id) then Some(ss[n - 1].monitors[id].intervalMs)
    else LastInterval(c, ss, steps, id, n - 1)
  }

  /** What every run keeps of a monitor: its due time is a jittered interval after its last start, the interval being the
      one it was scheduled with then. */
  ghost predicate Cadenced(env: Env, monitors: Monitors, id: string, interval: Option<int>) {
    && (id in monitors ==> WellFormed(monitors[id]))
    && match interval
       case None => id in monitors ==> monitors[id].last.None?
       case Some(ms) => id in monitors && monitors[id].last.Some? && Spread(monitors[id], Stored(GapOf(env, id, ms)))
  }

  lemma AdvancedSpread(env: Env, id: string, m: Monitor, now: Time)
    requires WellFormed(m)
    ensures WellFormed(Advanced(env, id, m, now))
    ensures Spread(Advanced(env, id, m, now), Stored(GapOf(env, id, m.intervalMs)))
  {
    StoredSum(StartOf(m, now), GapOf(env, id, m.intervalMs));
    StoredIsWhole(StartOf(m, now));
    hide ApplyJitter, Interval, Stored, StartOf, Regions.Normal, Regions.NoRepeats;
  }

  lemma StartedMonitor(c: Config, s: State, step: Step, id: string)
    requires Enabled(c, s, step) && Starts(c, s, step, id)
    ensures id in Apply(c, s, step).monitors
    ensures Apply(c, s, step).monitors[id] == Advanced(c.env, id, s.monitors[id], s.clock)
    ensures s.monitors[id].Due(s.clock)
  {
    IterationMoves(c.env, Tables(s), step.due, s.clock);
  }

  /** Any other step leaves the times of a monitor alone, and its regions stay as they are stored. */
  lemma RestingMonitor(c: Config, s: State, step: Step, id: string)
    requires Enabled(c, s, step) && !Starts(c, s, step, id)
    requires id in s.monitors ==> WellFormed(s.monitors[id])
    ensures id in Apply(c, s, step).monitors ==> WellFormed(Apply(c, s, step).monitors[id])
    ensures id in s.monitors ==>
              var m, m' := s.monitors[id], Apply(c, s, step).monitors;
              id in m' && m'[id].last == m.last && m'[id].nextDue == m.nextDue
    ensures id in Apply(c, s, step).monitors && id !in s.monitors ==> Apply(c, s, step).monitors[id].last.None?
  {
    if step.ScheduleIteration? {
      IterationMoves(c.env, Tables(s), step.due, s.clock);
    } else if step.CreateMonitor? {
      Regions.NormalizedIsSet(if step.regions == [] then [Regions.GLOBAL] else step.regions);
    } else if step.UpdateMonitor? {
      Regions.NormalizedIsSet(step.regions);
    }
  }

  lemma StepCadenced(c: Config, s: State, step: Step, id: string, interval: Option<int>)
    requires Enabled(c, s, step) && Cadenced(c.env, s.monitors, id, interval)
    ensures Cadenced(c.env, Apply(c, s, step).monitors, id,
                     if Starts(c, s, step, id) then Some(s.monitors[id].intervalMs) else interval)
  {
    if Starts(c, s, step, id) {
      StartedMonitor(c, s, step, id);
      AdvancedSpread(c.env, id, s.monitors[id], s.clock);
    } else {
      RestingMonitor(c, s, step, id);
    }
  }

  /** Over every run and whatever happens to the intervals. */
  lemma {:induction false} RunsAreCadenced(c: Config, ss: seq<State>, steps: seq<Step>, id: string, n: nat)
    requires IsRun(c, ss, steps) && Init(ss[0]) && n < |ss|
    ensures Cadenced(c.env, ss[n].monitors, id, LastInterval(c, ss, steps, id, n))
  {
    hide Apply, Enabled, Cadenced, Starts;
    if n == 0 {
      NoMonitors(c, ss[0], id);
    } else {
      RunsAreCadenced(c, ss, steps, id, n - 1);
      assert Enabled(c, ss[n - 1], steps[n - 1]);
      StepCadenced(c, ss[n - 1], steps[n - 1], id, LastInterval(c, ss, steps, id, n - 1));
    }
  }

  lemma NoMonitors(c: Config, s: State, id: string)
    requires Init(s)
    ensures Cadenced(c.env, s.monitors, id, None)
  {
  }

  // ---------------------------------------------------------------------------------------------------------------
  // Rows and their names

  /** A row is named after its own monitor, region and second, and is not younger than its monitor's last start. */
  ghost predicate RowPaced(env: Env, monitors: Monitors, r: RunId, j: Job) {
    && j.monitor in monitors
    && monitors[j.monitor].last.Some?
    && j.at <= monitors[j.monitor].last.value
    && Regions.Normal(j.region)
    && r == GenerateRunId(env, j.monitor, j.region, j.at)
  }

  /** Every monitor's next start falls in a later second than its rows. */
  ghost predicate Orderly(env: Env, s: Schedules) {
    && (forall r :: r in s.jobs ==> RowPaced(env, s.monitors, r, s.jobs[r]))
    && (forall id :: id in s.monitors ==> WellFormed(s.monitors[id]) && Spread(s.monitors[id], SECOND))
  }

  ghost predicate AllApart(monitors: Monitors) {
    forall m, m' :: m in monitors && m' in monitors ==> Apart(m, m')
  }

  lemma LaterSecond(m: Monitor, now: Time)
    requires WellFormed(m) && Spread(m, SECOND) && m.last.Some?
    ensures m.last.value + SECOND <= StartOf(m, now) && WholeSecond(m.last.value) < WholeSecond(StartOf(m, now))
    ensures m.last.value <= Stored(StartOf(m, now))
  {
    SecondStep(m.last.value, StartOf(m, now));
    StoredMonotone(m.last.value, StartOf(m, now));
  }

  lemma NotAnOldId(env: Env, s: Schedules, q: RunId, id: string, g: string, now: Time)
    requires ValidEnv(env) && Orderly(env, s) && AllApart(s.monitors)
    requires id in s.monitors && g in s.monitors[id].regions && q in s.jobs
    ensures q != GenerateRunId(env, id, g, StartOf(s.monitors[id], now))
  {
    var at, j := StartOf(s.monitors[id], now), s.jobs[q];
    assert RowPaced(env, s.monitors, q, j);
    RunIdEqual(env, j.monitor, j.region, j.at, id, g, at);
    if j.monitor == id {
      LaterSecond(s.monitors[id], now);
      SecondMonotone(j.at, s.monitors[id].last.value);
    } else {
      PlacesApart(j.monitor, j.region, id, g);
    }
  }

  lemma NotANewId(env: Env, s: Schedules, t: Table, init: seq<string>, q: RunId, id: string, g: string, now: Time)
    requires ValidEnv(env) && Orderly(env, s) && AllApart(s.monitors)
    requires id in s.monitors && id !in init && forall x :: x in init ==> x in s.monitors
    requires RowsAdded(env, s, t, init, now) && q in t && q !in s.jobs
    ensures t[q].monitor != id
    ensures g in s.monitors[id].regions ==> q != GenerateRunId(env, id, g, StartOf(s.monitors[id], now))
  {
    assert NewIn(env, q, t[q], s.monitors, init, now);
    var x :| x in init && NewFor(env, q, t[q], x, s.monitors[x].regions, StartOf(s.monitors[x], now));
    if g in s.monitors[id].regions {
      RunIdEqual(env, x, t[q].region, StartOf(s.monitors[x], now), id, g, StartOf(s.monitors[id], now));
      PlacesApart(x, t[q].region, id, g);
    }
  }

  lemma IdIsFree(env: Env, s: Schedules, t: Table, init: seq<string>, id: string, g: string, now: Time)
    requires ValidEnv(env) && Orderly(env, s) && AllApart(s.monitors)
    requires id in s.monitors && id !in init && forall x :: x in init ==> x in s.monitors
    requires g in s.monitors[id].regions && RowsAdded(env, s, t, init, now)
    ensures GenerateRunId(env, id, g, StartOf(s.monitors[id], now)) !in t
  {
    forall q | q in t ensures q != GenerateRunId(env, id, g, StartOf(s.monitors[id], now)) {
      if q in s.jobs {
        NotAnOldId(env, s, q, id, g, now);
      } else {
        NotANewId(env, s, t, init, q, id, g, now);
      }
    }
  }

  lemma IdsAreFree(env: Env, s: Schedules, t: Table, init: seq<string>, id: string, now: Time)
    requires ValidEnv(env) && Orderly(env, s) && AllApart(s.monitors)
    requires id in s.monitors && id !in init && forall x :: x in init ==> x in s.monitors
    requires RowsAdded(env, s, t, init, now)
    ensures IdsFree(env, t, id, s.monitors[id].regions, StartOf(s.monitors[id], now))
  {
    forall g | g in s.monitors[id].regions ensures GenerateRunId(env, id, g, StartOf(s.monitors[id], now)) !in t {
      IdIsFree(env, s, t, init, id, g, now);
    }
  }

  // ---------------------------------------------------------------------------------------------------------------
  // An iteration commits

  lemma NoViolation(jobs: Table, run: RunId, row: Job, from: Time, to: Time)
    requires run !in jobs && from <= row.at <= to
    ensures !InsertIfAbsent(jobs, run, row, from, to).Violation?
  {
  }

  lemma NextSucceeds(env: Env, jobs: Table, id: string, regions: seq<string>, at: Time, window: Time)
    requires ValidEnv(env) && Regions.NoRepeats(regions) && 0 <= window && regions != []
    requires IdsFree(env, jobs, id, regions, at)
    requires InsertRegions(env, jobs, id, regions[..|regions| - 1], at, window).Some?
    ensures InsertRegions(env, jobs, id, regions, at, window).Some?
  {
    hide GenerateRunId, Grown, InsertIfAbsent, IdsFree, Regions.NoRepeats, ValidEnv, Stored;
    var n := |regions| - 1;
    InsertsGrow(env, jobs, id, regions[..n], at, window);
    var t := InsertRegions(env, jobs, id, regions[..n], at, window).value;
    NextIdFree(env, jobs, t, id, regions, at);
    StoredMonotone(at - window, at);
    StoredMonotone(at, at + window);
    NoViolation(t, GenerateRunId(env, id, regions[n], at), NewRow(id, regions[n], Stored(at)), Stored(at - window), Stored(at + window));
  }

  /** With free ids no insert fails: an active row at the very instant would lie in the window, too. */
  lemma {:induction false} InsertsSucceed(env: Env, jobs: Table, id: string, regions: seq<string>, at: Time,
                        window: Time)
    requires ValidEnv(env) && Regions.NoRepeats(regions) && 0 <= window && IdsFree(env, jobs, id, regions, at)
    ensures InsertRegions(env, jobs, id, regions, at, window).Some?
  {
    if regions != [] {
      FewerRegions(env, jobs, id, regions, at);
      hide *;
      InsertsSucceed(env, jobs, id, regions[..|regions| - 1], at, window);
      NextSucceeds(env, jobs, id, regions, at, window);
    }
  }

  lemma FewerRegions(env: Env, jobs: Table, id: string, regions: seq<string>, at: Time)
    requires regions != [] && Regions.NoRepeats(regions) && IdsFree(env, jobs, id, regions, at)
    ensures Regions.NoRepeats(regions[..|regions| - 1]) && IdsFree(env, jobs, id, regions[..|regions| - 1], at)
  {
    assert forall g :: g in regions[..|regions| - 1] ==> g in regions;
  }

  lemma NextIdFree(env: Env, jobs: Table, t: Table, id: string, regions: seq<string>, at: Time)
    requires ValidEnv(env) && Regions.NoRepeats(regions) && regions != [] && IdsFree(env, jobs, id, regions, at)
    requires Grown(env, jobs, t, id, regions[..|regions| - 1], at)
    ensures GenerateRunId(env, id, regions[|regions| - 1], at) !in t
  {
    var n := |regions| - 1;
    forall r | r in t ensures r != GenerateRunId(env, id, regions[n], at) {
      if r in jobs {
        assert regions[n] in regions;
      } else {
        var i :| 0 <= i < n && r == GenerateRunId(env, id, regions[..n][i], at);
        RunIdEqual(env, id, regions[i], at, id, regions[n], at);
        PlaceOfOneMonitor(id, regions[i], regions[n]);
      }
    }
  }

  lemma OneMoreCommits(env: Env, s: Schedules, u: Schedules, init: seq<string>, id: string, now: Time)
    requires ValidEnv(env) && Orderly(env, s) && AllApart(s.monitors)
    requires id in s.monitors && id !in init && forall x :: x in init ==> x in s.monitors
    requires RowsAdded(env, s, u.jobs, init, now)
    ensures ScheduleMonitor(env, u, id, s.monitors[id], now).Some?
  {
    hide InsertRegions, GenerateRunId, StartOf, DedupWindow, RowsAdded, IdsFree;
    var m := s.monitors[id];
    IdsAreFree(env, s, u.jobs, init, id, now);
    DedupBounds(m.intervalMs);
    InsertsSucceed(env, u.jobs, id, m.regions, StartOf(m, now), DedupWindow(Interval(m.intervalMs)));
  }

  /** Whatever the intervals are now. */
  lemma {:induction false} IterationCommits(env: Env, s: Schedules, due: seq<string>, now: Time)
    requires ValidEnv(env) && Orderly(env, s) && AllApart(s.monitors)
    requires Regions.NoRepeats(due) && forall id :: id in due ==> id in s.monitors
    ensures ScheduleAll(env, s, due, now).Some?
  {
    if due != [] {
      var init, id := due[..|due| - 1], due[|due| - 1];
      assert due == init + [id];
      assert id !in init;
      IterationCommits(env, s, init, now);
      IterationMoves(env, s, init, now);
      OneMoreCommits(env, s, ScheduleAll(env, s, init, now).value, init, id, now);
    }
  }

  // ---------------------------------------------------------------------------------------------------------------
  // One monitor's share of an iteration

  ghost predicate HasNew(env: Env, before: Table, after: Table, id: string, g: string, at: Time) {
    var r := GenerateRunId(env, id, g, at);
    r !in before && r in after && after[r] == NewRow(id, g, Stored(at))
  }

  /** The window of its next start begins after everything the monitor was scheduled for. */
  predicate WindowClear(m: Monitor, now: Time) {
    m.last.Some? ==> m.last.value < Stored(StartOf(m, now) - DedupWindow(Interval(m.intervalMs)))
  }

  lemma RowsAreBefore(env: Env, s: Schedules, t: Table, init: seq<string>, id: string, now: Time)
    requires ValidEnv(env) && Orderly(env, s) && AllApart(s.monitors)
    requires id in s.monitors && id !in init && forall x :: x in init ==> x in s.monitors
    requires WindowClear(s.monitors[id], now) && RowsAdded(env, s, t, init, now)
    ensures var m := s.monitors[id];
            RowsBefore(t, id, Stored(StartOf(m, now) - DedupWindow(Interval(m.intervalMs))))
  {
    hide GenerateRunId, DedupWindow, StartOf, Interval, Stored, WellFormed, Regions.Normal, AllApart, ValidEnv, NewIn;
    var m := s.monitors[id];
    forall r | r in t
      ensures t[r].monitor == id ==> t[r].at < Stored(StartOf(m, now) - DedupWindow(Interval(m.intervalMs)))
    {
      if r in s.jobs {
        assert RowPaced(env, s.monitors, r, s.jobs[r]);
      } else {
        NotANewId(env, s, t, init, r, id, "", now);
      }
    }
  }

  ghost predicate AllNew(env: Env, before: Table, after: Table, id: string, regions: seq<string>, at: Time) {
    forall g :: g in regions ==> HasNew(env, before, after, id, g, at)
  }

  lemma RowsOfRegions(env: Env, before: Table, jobs: Table, id: string, regions: seq<string>, at: Time)
    requires ValidEnv(env) && Regions.NoRepeats(regions) && IdsFree(env, jobs, id, regions, at) && before.Keys <= jobs.Keys
    ensures AllNew(env, before, jobs + NewRows(env, id, regions, at), id, regions, at)
  {
    NewRowsAre(env, id, regions, at);
    forall g | g in regions ensures HasNew(env, before, jobs + NewRows(env, id, regions, at), id, g, at) {
      var i :| 0 <= i < |regions| && regions[i] == g;
      assert GenerateRunId(env, id, regions[i], at) in NewRows(env, id, regions, at);
    }
  }

  lemma OldRowsStay(env: Env, s: Schedules, jobs: Table, due: seq<string>, now: Time)
    requires (forall x :: x in due ==> x in s.monitors) && RowsAdded(env, s, jobs, due, now)
    ensures s.jobs.Keys <= jobs.Keys
  {
  }

  lemma OneMonitorInFull(env: Env, s: Schedules, u: Schedules, init: seq<string>, id: string, now: Time)
    requires ValidEnv(env) && Orderly(env, s) && AllApart(s.monitors)
    requires id in s.monitors && id !in init && forall x :: x in init ==> x in s.monitors
    requires WindowClear(s.monitors[id], now) && RowsAdded(env, s, u.jobs, init, now)
    ensures var v := ScheduleMonitor(env, u, id, s.monitors[id], now);
            v.Some? && AllNew(env, s.jobs, v.value.jobs, id, s.monitors[id].regions, StartOf(s.monitors[id], now))
  {
    hide InsertRegions, NewRows, AllNew, RowsBefore, GenerateRunId, RowsAdded, DedupWindow, StartOf, IdsFree, AllApart;
    var m := s.monitors[id];
    var at, w := StartOf(m, now), DedupWindow(Interval(m.intervalMs));
    RowsAreBefore(env, s, u.jobs, init, id, now);
    IdsAreFree(env, s, u.jobs, init, id, now);
    DedupBounds(m.intervalMs);
    OldRowsStay(env, s, u.jobs, init, now);
    InsertsEveryRegion(env, u.jobs, id, m.regions, at, w);
    RowsOfRegions(env, s.jobs, u.jobs, id, m.regions, at);
  }

  lemma NewStaysNew(env: Env, before: Table, u: Schedules, x: string, m: Monitor, now: Time, id: string,
                    regions: seq<string>, at: Time)
    requires AllNew(env, before, u.jobs, id, regions, at)
    ensures var v := ScheduleMonitor(env, u, x, m, now);
            v.Some? ==> AllNew(env, before, v.value.jobs, id, regions, at)
  {
    InsertsGrow(env, u.jobs, x, m.regions, StartOf(m, now), DedupWindow(Interval(m.intervalMs)));
    var v := ScheduleMonitor(env, u, x, m, now);
    if v.Some? {
      forall g | g in regions ensures HasNew(env, before, v.value.jobs, id, g, at) {
        assert HasNew(env, before, u.jobs, id, g, at);
      }
    }
  }

  /** A listed monitor whose window is clear gets one new job per region, whatever the other monitors' windows are. */
  lemma {:induction false} IterationServes(env: Env, s: Schedules, due: seq<string>, now: Time, id: string)
    requires ValidEnv(env) && Orderly(env, s) && AllApart(s.monitors)
    requires Regions.NoRepeats(due) && forall x :: x in due ==> x in s.monitors
    requires id in due && WindowClear(s.monitors[id], now)
    ensures var u := ScheduleAll(env, s, due, now);
            u.Some? && AllNew(env, s.jobs, u.value.jobs, id, s.monitors[id].regions, StartOf(s.monitors[id], now))
  {
    hide Orderly, AllApart, WindowClear, AllNew, RowsAdded, MonitorsAdvanced, StartOf, ScheduleMonitor;
    var init, x := due[..|due| - 1], due[|due| - 1];
    assert due == init + [x];
    assert x !in init;
    IterationCommits(env, s, due, now);
    IterationCommits(env, s, init, now);
    IterationMoves(env, s, init, now);
    var u := ScheduleAll(env, s, init, now).value;
    if x == id {
      OneMonitorInFull(env, s, u, init, id, now);
    } else {
      IterationServes(env, s, init, now, id);
      NewStaysNew(env, s.jobs, u, x, s.monitors[x], now, id, s.monitors[id].regions, StartOf(s.monitors[id], now));
    }
  }

  // ---------------------------------------------------------------------------------------------------------------
  // Every run

  /** Every monitor that is listed before step `n` then has an interval of at least a second, except perhaps one. */
  ghost predicate SlowBut(but: Option<string>, ss: seq<State>, steps: seq<Step>, n: nat) {
    forall k, id :: 0 <= k < n && k < |steps| && k < |ss| && steps[k].ScheduleIteration? && id in steps[k].due && but != Some(id)
      ==> id in ss[k].monitors && 1000 <= ss[k].monitors[id].intervalMs
  }

  /** The monitor is at `ms` whenever a step from `i` to before `n` lists it; in between its interval is not restricted. */
  ghost predicate KeepsInterval(ss: seq<State>, steps: seq<Step>, id: string, ms: int, i: nat, n: nat) {
    forall k :: i <= k < n && k < |steps| && k < |ss| && steps[k].ScheduleIteration? && id in steps[k].due
      ==> id in ss[k].monitors && ss[k].monitors[id].intervalMs == ms
  }

  lemma {:induction false} LastIntervalIs(c: Config, ss: seq<State>, steps: seq<Step>, id: string,
                        n: nat) returns (k: nat)
    requires n <= |steps| && n <= |ss| && LastInterval(c, ss, steps, id, n).Some?
    ensures k < n && Starts(c, ss[k], steps[k], id)
    ensures LastInterval(c, ss, steps, id, n) == Some(ss[k].monitors[id].intervalMs)
  {
    if Starts(c, ss[n - 1], steps[n - 1], id) {
      k := n - 1;
    } else {
      k := LastIntervalIs(c, ss, steps, id, n - 1);
    }
  }

  lemma KeptInterval(c: Config, ss: seq<State>, steps: seq<Step>, id: string, ms: int, n: nat)
    requires n <= |steps| && n <= |ss| && KeepsInterval(ss, steps, id, ms, 0, n)
    ensures LastInterval(c, ss, steps, id, n) in {None, Some(ms)}
  {
    if LastInterval(c, ss, steps, id, n).Some? {
      var k := LastIntervalIs(c, ss, steps, id, n);
    }
  }

  lemma AllSlow(ss: seq<State>, steps: seq<Step>, id: string, ms: int, n: nat)
    requires SlowBut(Some(id), ss, steps, n) && KeepsInterval(ss, steps, id, ms, 0, n) && 1000 <= ms
    ensures SlowBut(None, ss, steps, n)
  {
  }

  lemma SlowGap(env: Env, id: string, ms: int)
    requires 1000 <= ms
    ensures SECOND <= Stored(GapOf(env, id, ms)) && DedupWindow(Interval(ms)) < Stored(GapOf(env, id, ms))
  {
    CadenceOutrunsWindow(ms, env.hash(id, DEFAULT_SEED));
  }

  lemma SpreadOverSecond(c: Config, ss: seq<State>, steps: seq<Step>, id: string, n: nat)
    requires IsRun(c, ss, steps) && Init(ss[0]) && n < |ss| && SlowBut(None, ss, steps, n) && id in ss[n].monitors
    ensures WellFormed(ss[n].monitors[id]) && Spread(ss[n].monitors[id], SECOND)
  {
    RunsAreCadenced(c, ss, steps, id, n);
    if LastInterval(c, ss, steps, id, n).Some? {
      var k := LastIntervalIs(c, ss, steps, id, n);
      assert id in steps[k].due && Option<string>.None != Some(id);
      SlowGap(c.env, id, ss[k].monitors[id].intervalMs);
    }
  }

  lemma NewRowPaced(env: Env, s: Schedules, monitors: Monitors, r: RunId, j: Job, due: seq<string>, now: Time)
    requires forall id :: id in due ==> id in s.monitors && WellFormed(s.monitors[id])
    requires NewIn(env, r, j, s.monitors, due, now) && MonitorsAdvanced(env, s, monitors, due, now)
    ensures RowPaced(env, monitors, r, j)
  {
    var id :| id in due && NewFor(env, r, j, id, s.monitors[id].regions, StartOf(s.monitors[id], now));
    assert j.region in s.monitors[id].regions;
    StoredKeepsSecond(StartOf(s.monitors[id], now));
  }

  lemma OldRowPaced(env: Env, s: Schedules, monitors: Monitors, r: RunId, j: Job, due: seq<string>, now: Time)
    requires RowPaced(env, s.monitors, r, j) && MonitorsAdvanced(env, s, monitors, due, now)
    requires WellFormed(s.monitors[j.monitor]) && Spread(s.monitors[j.monitor], SECOND)
    ensures RowPaced(env, monitors, r, j)
  {
    LaterSecond(s.monitors[j.monitor], now);
  }

  lemma IterationPaced(c: Config, s: State, step: Step, r: RunId)
    requires Enabled(c, s, step) && step.ScheduleIteration? && Orderly(c.env, Tables(s)) && r in Apply(c, s, step).jobs
    ensures RowPaced(c.env, Apply(c, s, step).monitors, r, Apply(c, s, step).jobs[r])
  {
    IterationMoves(c.env, Tables(s), step.due, s.clock);
    var s' := Apply(c, s, step);
    hide ScheduleAll, RowPaced, NewIn, WellFormed, Spread, GenerateRunId;
    if ScheduleAll(c.env, Tables(s), step.due, s.clock).Some? {
      if r in s.jobs {
        assert RowPaced(c.env, s.monitors, r, s.jobs[r]);
        KnownMonitor(c.env, s.monitors, r, s.jobs[r]);
        OldRowPaced(c.env, Tables(s), s'.monitors, r, s.jobs[r], step.due, s.clock);
      } else {
        NewRowPaced(c.env, Tables(s), s'.monitors, r, s'.jobs[r], step.due, s.clock);
      }
    }
  }

  lemma KnownMonitor(env: Env, monitors: Monitors, r: RunId, j: Job)
    requires RowPaced(env, monitors, r, j)
    ensures j.monitor in monitors
  {
  }

  lemma OtherStepPaced(c: Config, s: State, step: Step, r: RunId)
    requires Enabled(c, s, step) && !step.ScheduleIteration? && Orderly(c.env, Tables(s)) && r in Apply(c, s, step).jobs
    ensures RowPaced(c.env, Apply(c, s, step).monitors, r, Apply(c, s, step).jobs[r])
  {
    RowKeepsPlace(c, s, step, r);
    assert RowPaced(c.env, s.monitors, r, s.jobs[r]);
    RestingMonitor(c, s, step, s.jobs[r].monitor);
    hide Apply, Enabled, GenerateRunId;
  }

  /** Before every iteration of such a run, each start still to come falls in a later second than all rows before it. */
  lemma {:induction false} RunsAreOrderly(c: Config, ss: seq<State>, steps: seq<Step>, n: nat)
    requires IsRun(c, ss, steps) && Init(ss[0]) && n < |ss| && SlowBut(None, ss, steps, n)
    ensures Orderly(c.env, Tables(ss[n]))
  {
    forall id | id in ss[n].monitors ensures WellFormed(ss[n].monitors[id]) && Spread(ss[n].monitors[id], SECOND) {
      SpreadOverSecond(c, ss, steps, id, n);
    }
    if n > 0 {
      RunsAreOrderly(c, ss, steps, n - 1);
      hide Apply, Enabled, RowPaced, WellFormed, Spread;
      assert Enabled(c, ss[n - 1], steps[n - 1]);
      forall r | r in ss[n].jobs ensures RowPaced(c.env, ss[n].monitors, r, ss[n].jobs[r]) {
        if steps[n - 1].ScheduleIteration? {
          IterationPaced(c, ss[n - 1], steps[n - 1], r);
        } else {
          OtherStepPaced(c, ss[n - 1], steps[n - 1], r);
        }
      }
    } else {
      assert ss[0].jobs == map[];
    }
  }

  /** The iteration at step `k` serves the monitor in full: one new job per region under an id that was free, and no other
      new job of that monitor. */
  ghost predicate Served(c: Config, ss: seq<State>, steps: seq<Step>, k: nat, id: string)
    requires k < |steps| && |ss| == |steps| + 1
  {
    && id in ss[k].monitors
    && var m := ss[k].monitors[id];
    && AllNew(c.env, ss[k].jobs, ss[k + 1].jobs, id, m.regions, StartOf(m, ss[k].clock))
    && forall r :: r in ss[k + 1].jobs && r !in ss[k].jobs && ss[k + 1].jobs[r].monitor == id ==>
         exists g :: g in m.regions && r == GenerateRunId(c.env, id, g, StartOf(m, ss[k].clock))
  }

  lemma NoOtherNew(env: Env, s: Schedules, jobs: Table, due: seq<string>, now: Time, id: string, r: RunId)
    requires id in due && forall x :: x in due ==> x in s.monitors
    requires RowsAdded(env, s, jobs, due, now) && r in jobs && r !in s.jobs && jobs[r].monitor == id
    ensures exists g :: g in s.monitors[id].regions && r == GenerateRunId(env, id, g, StartOf(s.monitors[id], now))
  {
    assert NewIn(env, r, jobs[r], s.monitors, due, now);
    var x :| x in due && NewFor(env, r, jobs[r], x, s.monitors[x].regions, StartOf(s.monitors[x], now));
    assert jobs[r].region in s.monitors[id].regions;
  }

  lemma ServedByIteration(c: Config, ss: seq<State>, steps: seq<Step>, k: nat, id: string)
    requires ValidEnv(c.env) && IsRun(c, ss, steps) && k < |steps| && steps[k].ScheduleIteration? && id in steps[k].due
    requires Orderly(c.env, Tables(ss[k])) && AllApart(ss[k].monitors)
    requires id in ss[k].monitors && WindowClear(ss[k].monitors[id], ss[k].clock)
    ensures Served(c, ss, steps, k, id)
  {
    var s, due := ss[k], steps[k].due;
    assert Enabled(c, s, steps[k]);
    hide ScheduleAll, Orderly, AllApart, WindowClear, AllNew, RowsAdded, GenerateRunId, StartOf;
    IterationServes(c.env, Tables(s), due, s.clock, id);
    IterationMoves(c.env, Tables(s), due, s.clock);
    forall r | r in ss[k + 1].jobs && r !in s.jobs && ss[k + 1].jobs[r].monitor == id
      ensures exists g :: g in s.monitors[id].regions && r == GenerateRunId(c.env, id, g, StartOf(s.monitors[id], s.clock))
    {
      NoOtherNew(c.env, Tables(s), ss[k + 1].jobs, due, s.clock, id, r);
    }
  }

  lemma DueNotAfterStart(m: Monitor, now: Time)
    requires m.nextDue.Some?
    ensures m.nextDue.value <= StartOf(m, now)
  {
  }

  lemma ClearAfterGap(env: Env, id: string, m: Monitor, now: Time, gap: Time)
    requires WellFormed(m) && Spread(m, Stored(gap)) && DedupWindow(Interval(m.intervalMs)) < Stored(gap)
    ensures WindowClear(m, now)
  {
    if m.last.Some? {
      var at, w := StartOf(m, now), DedupWindow(Interval(m.intervalMs));
      DedupBounds(m.intervalMs);
      StoredIsWhole(gap);
      hide Stored, DedupWindow, Interval, StartOf;
      WholeSum(m.last.value, Stored(gap), w);
      DueNotAfterStart(m, now);
      StoredNotBefore(m.last.value + Stored(gap) - w, at - w);
    }
  }

  /** A scheduling reaches the whole monitor when the jittered interval it was last scheduled with exceeds the duplicate
      window of the interval it has now, both as their columns hold them. */
  predicate GapCovers(env: Env, id: string, before: Option<int>, ms: int) {
    before.Some? ==> DedupWindow(Interval(ms)) < Stored(GapOf(env, id, before.value))
  }

  /** The general form: every interval may be edited at any time. While all monitors are scheduled with at least a second
      and their ids are apart, every iteration commits, and each listed monitor whose gap covers its window is served in
      full, whatever was leased, renewed, completed, reclaimed or cleaned before. */
  lemma ServedWhenCovered(c: Config, ss: seq<State>, steps: seq<Step>, k: nat, id: string)
    requires ValidEnv(c.env) && IsRun(c, ss, steps) && Init(ss[0]) && k < |steps|
    requires steps[k].ScheduleIteration? && id in steps[k].due
    requires SlowBut(None, ss, steps, k) && AllApart(ss[k].monitors)
    requires id in ss[k].monitors && GapCovers(c.env, id, LastInterval(c, ss, steps, id, k), ss[k].monitors[id].intervalMs)
    ensures Served(c, ss, steps, k, id)
  {
    hide Apply, Enabled, Orderly, Served, AllApart, SlowBut, Stored, DedupWindow;
    RunsAreOrderly(c, ss, steps, k);
    RunsAreCadenced(c, ss, steps, id, k);
    var before, m := LastInterval(c, ss, steps, id, k), ss[k].monitors[id];
    if before.Some? {
      ClearAfterGap(c.env, id, m, ss[k].clock, GapOf(c.env, id, before.value));
    }
    ServedByIteration(c, ss, steps, k, id);
  }

  /** Scheduling never loses a run of a monitor whose schedulings all find it at one interval of at least a second, however
      the other monitors' intervals, of at least a second when they are scheduled, are edited. */
  lemma NothingLost(c: Config, ss: seq<State>, steps: seq<Step>, k: nat, id: string, ms: int)
    requires ValidEnv(c.env) && IsRun(c, ss, steps) && Init(ss[0]) && k < |steps|
    requires steps[k].ScheduleIteration? && id in steps[k].due
    requires SlowBut(Some(id), ss, steps, k) && AllApart(ss[k].monitors)
    requires KeepsInterval(ss, steps, id, ms, 0, k + 1) && 1000 <= ms
    ensures Served(c, ss, steps, k, id)
  {
    AllSlow(ss, steps, id, ms, k);
    assert ss[k].monitors[id].intervalMs == ms && KeepsInterval(ss, steps, id, ms, 0, k);
    KeptInterval(c, ss, steps, id, ms, k);
    SlowGap(c.env, id, ms);
    hide IsRun, Init, AllApart, SlowBut, KeepsInterval, ValidEnv, LastInterval, Served, GapOf, DedupWindow, Stored;
    ServedWhenCovered(c, ss, steps, k, id);
  }
}
