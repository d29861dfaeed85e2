/** Exactly when the scheduler loses jobs: an interval below a second, an edit that widens the duplicate window over the
    last start, and ids that run into each other. Each failing run starts from empty tables. */
module Losses {
  import opened Wrappers
  import opened Times
  import opened Jobs
  import opened Cadence
  import opened RunIds
  import opened Schedule
  import opened Protocol
  import opened Pace
  import Regions

  // ---------------------------------------------------------------------------------------------------------------
  // Building runs

  function Fresh(ms: int, g: string): Monitor {
    Monitor(ms, DEFAULT_SEED, [g], true, false, None, None)
  }

  lemma OneRegion(g: string)
    requires Regions.Normal(g)
    ensures StoredRegions([g]) == [g] && Regions.Normalized([g]) == [g]
  {
    assert Regions.Each([g]) == [g];
    Regions.DistinctFixed([g]);
  }

  lemma Created(c: Config, s: State, id: string, ms: int, g: string)
    requires id != "" && id !in s.monitors && ms != 0 && Regions.Normal(g)
    ensures var step := CreateMonitor(id, ms, [g], true);
            Enabled(c, s, step) && Apply(c, s, step) == s.(monitors := s.monitors[id := Fresh(ms, g)])
  {
    OneRegion(g);
  }

  lemma Edited(c: Config, s: State, id: string, ms: int)
    requires id in s.monitors && !s.monitors[id].deleted
    ensures var step := UpdateMonitor(id, Some(ms), [], None);
            && Enabled(c, s, step)
            && Apply(c, s, step) == s.(monitors := s.monitors[id := s.monitors[id].(intervalMs := ms)])
  {
  }

  lemma OnlyDue(monitors: Monitors, id: string, now: Time, locked: set<string>)
    requires id in monitors && monitors[id].Due(now) && id !in locked
    requires forall x :: x in monitors && x != id ==> x in locked
    ensures IsDueList(monitors, now, locked, [id])
  {
  }

  lemma OneListed(env: Env, s: Schedules, id: string, now: Time)
    requires id in s.monitors
    ensures ScheduleAll(env, s, [id], now) == ScheduleMonitor(env, s, id, s.monitors[id], now)
  {
    assert [id][..0] == [] && [id][0] == id;
    assert ScheduleAll(env, s, [], now) == Some(s);
  }

  lemma OneInsert(env: Env, jobs: Table, id: string, g: string, at: Time, window: Time)
    ensures InsertRegions(env, jobs, id, [g], at, window) ==
            match InsertIfAbsent(jobs, GenerateRunId(env, id, g, at), NewRow(id, g, Stored(at)), Stored(at - window), Stored(at + window))
            case Inserted(t) => Some(t)
            case Duplicate => Some(jobs)
            case Violation => None
  {
    assert [g][..0] == [] && [g][0] == g;
    assert InsertRegions(env, jobs, id, [], at, window) == Some(jobs);
  }

  /** The first job of a system without jobs. */
  lemma FirstStart(c: Config, s: State, id: string, ms: int, g: string, locked: set<string>)
    requires id in s.monitors && s.monitors[id] == Fresh(ms, g) && s.jobs == map[] && id !in locked
    requires forall x :: x in s.monitors && x != id ==> x in locked
    ensures var step := ScheduleIteration(locked, [id]);
            && Enabled(c, s, step)
            && Apply(c, s, step) == s.(
                 jobs := map[GenerateRunId(c.env, id, g, s.clock) := NewRow(id, g, Stored(s.clock))],
                 monitors := s.monitors[id := Advanced(c.env, id, Fresh(ms, g), s.clock)])
  {
    OnlyDue(s.monitors, id, s.clock, locked);
    OneListed(c.env, Tables(s), id, s.clock);
    OneInsert(c.env, map[], id, g, s.clock, DedupWindow(Interval(ms)));
    hide GenerateRunId, DedupWindow, Interval;
  }

  ghost function Empty(): State {
    State(0, map[], map[], map[], map[])
  }

  /** The only job there is, and the monitors. */
  ghost function OneJob(clock: Time, run: RunId, row: Job, monitors: Monitors): State {
    State(clock, map[run := row], monitors, map[], map[])
  }

  lemma FourSteps(c: Config, ss: seq<State>, steps: seq<Step>)
    requires |ss| == 5 && |steps| == 4
    requires Enabled(c, ss[0], steps[0]) && ss[1] == Apply(c, ss[0], steps[0])
    requires Enabled(c, ss[1], steps[1]) && ss[2] == Apply(c, ss[1], steps[1])
    requires Enabled(c, ss[2], steps[2]) && ss[3] == Apply(c, ss[2], steps[2])
    requires Enabled(c, ss[3], steps[3]) && ss[4] == Apply(c, ss[3], steps[3])
    ensures IsRun(c, ss, steps)
  {
    hide Apply, Enabled;
    forall i {:trigger steps[i]} | 0 <= i < 4
      ensures Enabled(c, ss[i], steps[i]) && ss[i + 1] == Apply(c, ss[i], steps[i])
    {
      assert i == 0 || i == 1 || i == 2 || i == 3;
    }
  }

  lemma AlreadyNamed(c: Config, ss: seq<State>, steps: seq<Step>, k: nat, id: string, g: string)
    requires k < |steps| && |ss| == |steps| + 1 && id in ss[k].monitors && g in ss[k].monitors[id].regions
    requires GenerateRunId(c.env, id, g, StartOf(ss[k].monitors[id], ss[k].clock)) in ss[k].jobs
    ensures !Served(c, ss, steps, k, id)
  {
    var s := ss[k];
    assert !HasNew(c.env, s.jobs, ss[k + 1].jobs, id, g, StartOf(s.monitors[id], s.clock));
  }

  lemma NothingAdded(c: Config, ss: seq<State>, steps: seq<Step>, k: nat, id: string, g: string)
    requires k < |steps| && |ss| == |steps| + 1 && id in ss[k].monitors && g in ss[k].monitors[id].regions
    requires ss[k + 1].jobs == ss[k].jobs
    ensures !Served(c, ss, steps, k, id)
  {
    var s := ss[k];
    assert !HasNew(c.env, s.jobs, ss[k + 1].jobs, id, g, StartOf(s.monitors[id], s.clock));
  }

  // ---------------------------------------------------------------------------------------------------------------
  // Intervals

  /** No run in which a monitor is only ever scheduled at `ms` loses one of its jobs, whatever the others, scheduled at a
      second or more, do. */
  ghost predicate SafeInterval(c: Config, ms: int) {
    forall ss: seq<State>, steps: seq<Step>, k: nat, id: string ::
      && IsRun(c, ss, steps) && Init(ss[0]) && k < |steps| && steps[k].ScheduleIteration? && id in steps[k].due
      && SlowBut(Some(id), ss, steps, k) && AllApart(ss[k].monitors) && KeepsInterval(ss, steps, id, ms, 0, k + 1)
      ==> Served(c, ss, steps, k, id)
  }

  const ONLY: string := "m"

  lemma GlobalIsStored()
    ensures Regions.Normal(Regions.GLOBAL)
  {
    Regions.GlobalIsNormal();
    Regions.FixedPoint(Regions.GLOBAL);
  }

  /** The start of a monitor at 0 with an interval below a second falls in the second of the job it already has. */
  lemma SameSecond(env: Env, ms: int)
    requires ms < 1000
    ensures var m := Advanced(env, ONLY, Fresh(ms, Regions.GLOBAL), 0);
            m.Due(0) && WholeSecond(StartOf(m, 0)) == WholeSecond(0)
  {
    StoredMonotone(Interval(ms), LOOK_AHEAD);
    StoredMonotone(Interval(ms), 999 * MILLISECOND);
    var m := Advanced(env, ONLY, Fresh(ms, Regions.GLOBAL), 0);
    assert m.nextDue == Some(Stored(Interval(ms)));
    assert 0 <= StartOf(m, 0) < SECOND;
  }

  ghost function AfterFirst(c: Config, ms: int): State {
    OneJob(0, GenerateRunId(c.env, ONLY, Regions.GLOBAL, 0), NewRow(ONLY, Regions.GLOBAL, 0),
           map[ONLY := Advanced(c.env, ONLY, Fresh(ms, Regions.GLOBAL), 0)])
  }

  function Alone(id: string, m: Monitor): State {
    State(0, map[], map[id := m], map[], map[])
  }

  /** Created alone, edited, and scheduled for the first time. */
  lemma AloneFirst(c: Config, id: string, ms0: int, ms: int, g: string)
    requires id != "" && ms0 != 0 && Regions.Normal(g)
    ensures var create, update := CreateMonitor(id, ms0, [g], true), UpdateMonitor(id, Some(ms), [], None);
            && Enabled(c, Empty(), create) && Apply(c, Empty(), create) == Alone(id, Fresh(ms0, g))
            && Enabled(c, Alone(id, Fresh(ms0, g)), update)
            && Apply(c, Alone(id, Fresh(ms0, g)), update) == Alone(id, Fresh(ms, g))
  {
    Created(c, Empty(), id, ms0, g);
    Edited(c, Alone(id, Fresh(ms0, g)), id, ms);
    hide Apply, Enabled;
  }

  lemma AloneStart(c: Config, id: string, ms: int, g: string)
    ensures var step := ScheduleIteration({}, [id]);
            && Enabled(c, Alone(id, Fresh(ms, g)), step)
            && Apply(c, Alone(id, Fresh(ms, g)), step) ==
               OneJob(0, GenerateRunId(c.env, id, g, 0), NewRow(id, g, 0), map[id := Advanced(c.env, id, Fresh(ms, g), 0)])
  {
    FirstStart(c, Alone(id, Fresh(ms, g)), id, ms, g, {});
    hide Apply, Enabled, Advanced, GenerateRunId;
  }

  lemma OnlyOne(ss: seq<State>, steps: seq<Step>, ms: int)
    requires |ss| == 5 && |steps| == 4 && steps[0].CreateMonitor? && steps[1].UpdateMonitor?
    requires steps[2] == steps[3] == ScheduleIteration({}, [ONLY])
    requires forall k :: 2 <= k < 4 ==> ss[k].monitors.Keys == {ONLY} && ss[k].monitors[ONLY].intervalMs == ms
    ensures SlowBut(Some(ONLY), ss, steps, 3) && KeepsInterval(ss, steps, ONLY, ms, 0, 4) && AllApart(ss[3].monitors)
  {
  }

  /** Below one second, the second of two iterations at one instant needs a run id that is already taken. */
  lemma ShortIntervalLoses(c: Config, ms: int) returns (ss: seq<State>, steps: seq<Step>)
    requires ms < 1000
    ensures IsRun(c, ss, steps) && Init(ss[0]) && |steps| == 4
    ensures steps[3] == ScheduleIteration({}, [ONLY]) && AllApart(ss[3].monitors)
    ensures SlowBut(Some(ONLY), ss, steps, 3) && KeepsInterval(ss, steps, ONLY, ms, 0, 4)
    ensures !Served(c, ss, steps, 3, ONLY)
  {
    hide Apply, Enabled, Served, SlowBut, KeepsInterval, AllApart, GenerateRunId, Advanced, StartOf;
    var again := ScheduleIteration({}, [ONLY]);
    var last := AfterFirst(c, ms);
    GlobalIsStored();
    AloneFirst(c, ONLY, 60000, ms, Regions.GLOBAL);
    AloneStart(c, ONLY, ms, Regions.GLOBAL);
    SecondTooSoon(c, ms);
    var end := Apply(c, last, again);
    steps := [CreateMonitor(ONLY, 60000, [Regions.GLOBAL], true), UpdateMonitor(ONLY, Some(ms), [], None), again, again];
    ss := [Empty(), Alone(ONLY, Fresh(60000, Regions.GLOBAL)), Alone(ONLY, Fresh(ms, Regions.GLOBAL)), last, end];
    FourSteps(c, ss, steps);
    OnlyOne(ss, steps, ms);
    AlreadyNamed(c, ss, steps, 3, ONLY, Regions.GLOBAL);
  }

  lemma SecondTooSoon(c: Config, ms: int)
    requires ms < 1000
    ensures var s := AfterFirst(c, ms);
            && Enabled(c, s, ScheduleIteration({}, [ONLY])) && s.monitors.Keys == {ONLY}
            && s.monitors[ONLY].intervalMs == ms && s.monitors[ONLY].regions == [Regions.GLOBAL]
            && GenerateRunId(c.env, ONLY, Regions.GLOBAL, StartOf(s.monitors[ONLY], s.clock)) in s.jobs
  {
    SameSecond(c.env, ms);
    var s := AfterFirst(c, ms);
    OnlyDue(s.monitors, ONLY, 0, {});
    SameId(c.env, ONLY, Regions.GLOBAL, 0, StartOf(s.monitors[ONLY], 0));
    hide GenerateRunId, StartOf;
  }

  lemma SameId(env: Env, id: string, g: string, at: Time, at': Time)
    requires WholeSecond(at) == WholeSecond(at')
    ensures GenerateRunId(env, id, g, at) == GenerateRunId(env, id, g, at')
  {
  }

  /** An interval is safe exactly from one second up. */
  lemma SafeFromOneSecond(c: Config, ms: int)
    requires ValidEnv(c.env)
    ensures SafeInterval(c, ms) <==> 1000 <= ms
  {
    hide AllApart, SlowBut, KeepsInterval, Served;
    if 1000 <= ms {
      forall ss: seq<State>, steps: seq<Step>, k: nat, id: string |
        && IsRun(c, ss, steps) && Init(ss[0]) && k < |steps| && steps[k].ScheduleIteration? && id in steps[k].due
        && SlowBut(Some(id), ss, steps, k) && AllApart(ss[k].monitors) && KeepsInterval(ss, steps, id, ms, 0, k + 1)
        ensures Served(c, ss, steps, k, id)
      {
        NothingLost(c, ss, steps, k, id, ms);
      }
    } else {
      var ss, steps := ShortIntervalLoses(c, ms);
    }
  }

  // ---------------------------------------------------------------------------------------------------------------
  // Edits of an interval

  /** No run loses a job of a monitor that is scheduled at `i0` up to some step and at `i1` from then on. */
  ghost predicate SafeEdit(c: Config, id: string, i0: int, i1: int) {
    forall ss: seq<State>, steps: seq<Step>, k: nat, e: nat ::
      && IsRun(c, ss, steps) && Init(ss[0]) && k < |steps| && steps[k].ScheduleIteration? && id in steps[k].due
      && SlowBut(Some(id), ss, steps, k) && AllApart(ss[k].monitors)
      && KeepsInterval(ss, steps, id, i0, 0, e) && KeepsInterval(ss, steps, id, i1, e, k + 1)
      ==> Served(c, ss, steps, k, id)
  }

  predicate EditCovers(env: Env, id: string, i0: int, i1: int) {
    DedupWindow(Interval(i1)) < Stored(GapOf(env, id, i0))
  }

  lemma EditedIntervals(c: Config, ss: seq<State>, steps: seq<Step>, id: string, i0: int, i1: int, e: nat, k: nat)
    requires k < |steps| && |ss| == |steps| + 1 && steps[k].ScheduleIteration? && id in steps[k].due
    requires SlowBut(Some(id), ss, steps, k) && 1000 <= i0 && 1000 <= i1
    requires KeepsInterval(ss, steps, id, i0, 0, e) && KeepsInterval(ss, steps, id, i1, e, k + 1)
    ensures SlowBut(None, ss, steps, k) && id in ss[k].monitors
    ensures var before, ms := LastInterval(c, ss, steps, id, k), ss[k].monitors[id].intervalMs;
            ms in {i0, i1} && before in {None, Some(ms), Some(i0)}
  {
    if LastInterval(c, ss, steps, id, k).Some? {
      var p := LastIntervalIs(c, ss, steps, id, k);
    }
  }

  lemma CoveredEdit(c: Config, ss: seq<State>, steps: seq<Step>, id: string, i0: int, i1: int, e: nat, k: nat)
    requires ValidEnv(c.env) && 1000 <= i0 && 1000 <= i1 && EditCovers(c.env, id, i0, i1)
    requires IsRun(c, ss, steps) && Init(ss[0]) && k < |steps| && steps[k].ScheduleIteration? && id in steps[k].due
    requires SlowBut(Some(id), ss, steps, k) && AllApart(ss[k].monitors)
    requires KeepsInterval(ss, steps, id, i0, 0, e) && KeepsInterval(ss, steps, id, i1, e, k + 1)
    ensures Served(c, ss, steps, k, id)
  {
    hide AllApart, SlowBut, KeepsInterval, Served, LastInterval, DedupWindow, Interval, Stored, GapOf;
    EditedIntervals(c, ss, steps, id, i0, i1, e, k);
    SlowGap(c.env, id, i0);
    SlowGap(c.env, id, i1);
    ServedWhenCovered(c, ss, steps, k, id);
  }

  /** The monitor's row when its second start comes: the first job is ready still, the interval is the new one. */
  ghost function SecondDue(c: Config, id: string, i0: int, i1: int, clock: Time): State {
    OneJob(clock, GenerateRunId(c.env, id, Regions.GLOBAL, 0), NewRow(id, Regions.GLOBAL, 0),
           map[id := Advanced(c.env, id, Fresh(i0, Regions.GLOBAL), 0).(intervalMs := i1)])
  }

  lemma EditAndWait(c: Config, id: string, i0: int, i1: int, clock: Time)
    requires 0 <= clock
    ensures var s0 := OneJob(0, GenerateRunId(c.env, id, Regions.GLOBAL, 0), NewRow(id, Regions.GLOBAL, 0),
                             map[id := Advanced(c.env, id, Fresh(i0, Regions.GLOBAL), 0)]);
            var update := UpdateMonitor(id, Some(i1), [], None);
            && Enabled(c, s0, update) && Apply(c, s0, update) == SecondDue(c, id, i0, i1, 0)
            && Enabled(c, SecondDue(c, id, i0, i1, 0), Tick(clock))
            && Apply(c, SecondDue(c, id, i0, i1, 0), Tick(clock)) == SecondDue(c, id, i0, i1, clock)
  {
    hide GenerateRunId;
  }

  /** The second start finds the first job inside its window and inserts nothing, but moves on. */
  lemma SecondAddsNothing(c: Config, id: string, i0: int, i1: int)
    requires 1000 <= i0 && !EditCovers(c.env, id, i0, i1)
    ensures var s, step := SecondDue(c, id, i0, i1, Stored(GapOf(c.env, id, i0))), ScheduleIteration({}, [id]);
            Enabled(c, s, step) && Apply(c, s, step).jobs == s.jobs
  {
    var gap, w := Stored(GapOf(c.env, id, i0)), DedupWindow(Interval(i1));
    var s := SecondDue(c, id, i0, i1, gap);
    SecondComes(c, id, i0, i1);
    hide SecondDue, GenerateRunId, DedupWindow, Interval, GapOf, Stored, StartOf, InsertIfAbsent;
    OnlyDue(s.monitors, id, gap, {});
    OneListed(c.env, Tables(s), id, gap);
    OneInsert(c.env, s.jobs, id, Regions.GLOBAL, gap, w);
  }

  lemma FoundInWindow(jobs: Table, first: RunId, run: RunId, row: Job, from: Time, to: Time)
    requires first in jobs && jobs[first].monitor == row.monitor && jobs[first].region == row.region && jobs[first].Active()
    requires from <= jobs[first].at <= to
    ensures InsertIfAbsent(jobs, run, row, from, to) == Duplicate
  {
  }

  lemma WindowReachesBack(env: Env, id: string, i0: int, i1: int)
    requires 1000 <= i0 && !EditCovers(env, id, i0, i1)
    ensures var gap, w := Stored(GapOf(env, id, i0)), DedupWindow(Interval(i1));
            0 < gap && Stored(gap) == gap && gap <= Stored(gap + LOOK_AHEAD) && Stored(gap - w) <= 0 <= Stored(gap + w)
  {
    var gap, w := Stored(GapOf(env, id, i0)), DedupWindow(Interval(i1));
    assert Stored(0) == 0;
    SlowGap(env, id, i0);
    DedupBounds(i1);
    StoredTwice(GapOf(env, id, i0));
    hide Stored, GapOf, DedupWindow, Interval;
    StoredMonotone(gap, gap + LOOK_AHEAD);
    StoredMonotone(gap - w, 0);
    StoredMonotone(0, gap + w);
  }

  lemma SecondComes(c: Config, id: string, i0: int, i1: int)
    requires 1000 <= i0 && !EditCovers(c.env, id, i0, i1)
    ensures var gap, w := Stored(GapOf(c.env, id, i0)), DedupWindow(Interval(i1));
            var s := SecondDue(c, id, i0, i1, gap);
            && s.clock == gap && s.monitors.Keys == {id} && s.monitors[id].Due(gap) && StartOf(s.monitors[id], gap) == gap
            && s.monitors[id].intervalMs == i1 && s.monitors[id].regions == [Regions.GLOBAL]
            && InsertIfAbsent(s.jobs, GenerateRunId(c.env, id, Regions.GLOBAL, gap), NewRow(id, Regions.GLOBAL, Stored(gap)),
                              Stored(gap - w), Stored(gap + w)) == Duplicate
  {
    hide GenerateRunId, DedupWindow, Interval, Stored, InsertIfAbsent, EditCovers;
    var gap, w := Stored(GapOf(c.env, id, i0)), DedupWindow(Interval(i1));
    WindowReachesBack(c.env, id, i0, i1);
    var s := SecondDue(c, id, i0, i1, gap);
    assert s.monitors[id].nextDue == Some(Stored(0 + GapOf(c.env, id, i0)));
    FoundInWindow(s.jobs, GenerateRunId(c.env, id, Regions.GLOBAL, 0), GenerateRunId(c.env, id, Regions.GLOBAL, gap),
                  NewRow(id, Regions.GLOBAL, Stored(gap)), Stored(gap - w), Stored(gap + w));
  }

  lemma FiveSteps(c: Config, ss: seq<State>, steps: seq<Step>)
    requires |ss| == 6 && |steps| == 5
    requires IsRun(c, ss[..5], steps[..4])
    requires Enabled(c, ss[4], steps[4]) && ss[5] == Apply(c, ss[4], steps[4])
    ensures IsRun(c, ss, steps)
  {
    Extend(c, ss[..5], steps[..4], steps[4], ss[5]);
    assert ss[..5] + [ss[5]] == ss && steps[..4] + [steps[4]] == steps;
  }

  lemma OnlyTwo(ss: seq<State>, steps: seq<Step>, id: string, i0: int, i1: int)
    requires |ss| == 6 && |steps| == 5
    requires steps[0].CreateMonitor? && steps[1] == steps[4] == ScheduleIteration({}, [id]) && steps[2].UpdateMonitor? && steps[3].Tick?
    requires ss[1].monitors.Keys == ss[4].monitors.Keys == {id}
    requires ss[1].monitors[id].intervalMs == i0 && ss[4].monitors[id].intervalMs == i1
    ensures SlowBut(Some(id), ss, steps, 4) && AllApart(ss[4].monitors)
    ensures KeepsInterval(ss, steps, id, i0, 0, 2) && KeepsInterval(ss, steps, id, i1, 2, 5)
  {
  }

  lemma WideEditLoses(c: Config, id: string, i0: int, i1: int) returns (ss: seq<State>, steps: seq<Step>)
    requires id != "" && 1000 <= i0 && !EditCovers(c.env, id, i0, i1)
    ensures IsRun(c, ss, steps) && Init(ss[0]) && |steps| == 5
    ensures steps[4].ScheduleIteration? && id in steps[4].due && AllApart(ss[4].monitors) && SlowBut(Some(id), ss, steps, 4)
    ensures KeepsInterval(ss, steps, id, i0, 0, 2) && KeepsInterval(ss, steps, id, i1, 2, 5)
    ensures !Served(c, ss, steps, 4, id)
  {
    hide Apply, Enabled, Served, SlowBut, KeepsInterval, AllApart, GenerateRunId, Advanced, Stored, GapOf, EditCovers, SecondDue;
    var g, gap, list := Regions.GLOBAL, Stored(GapOf(c.env, id, i0)), ScheduleIteration({}, [id]);
    GlobalIsStored();
    AloneFirst(c, id, i0, i0, g);
    AloneStart(c, id, i0, g);
    SlowGap(c.env, id, i0);
    EditAndWait(c, id, i0, i1, gap);
    SecondAddsNothing(c, id, i0, i1);
    var s4 := SecondDue(c, id, i0, i1, gap);
    var s5 := Apply(c, s4, list);
    steps := [CreateMonitor(id, i0, [g], true), list, UpdateMonitor(id, Some(i1), [], None), Tick(gap), list];
    ss := [Empty(), Alone(id, Fresh(i0, g)),
           OneJob(0, GenerateRunId(c.env, id, g, 0), NewRow(id, g, 0), map[id := Advanced(c.env, id, Fresh(i0, g), 0)]),
           SecondDue(c, id, i0, i1, 0), s4, s5];
    FourSteps(c, ss[..5], steps[..4]);
    FiveSteps(c, ss, steps);
    SecondRegions(c, id, i0, i1, gap);
    OnlyTwo(ss, steps, id, i0, i1);
    NothingAdded(c, ss, steps, 4, id, g);
  }

  lemma SecondRegions(c: Config, id: string, i0: int, i1: int, clock: Time)
    ensures var m := SecondDue(c, id, i0, i1, clock).monitors;
            m.Keys == {id} && m[id].intervalMs == i1 && m[id].regions == [Regions.GLOBAL]
  {
  }

  /** Editing an interval from `i0` to `i1`, both of at least a second, is safe exactly when the jittered interval it was
      scheduled with, as its column holds it, exceeds the duplicate window of the new one. */
  lemma SafeEditIff(c: Config, id: string, i0: int, i1: int)
    requires ValidEnv(c.env) && id != "" && 1000 <= i0 && 1000 <= i1
    ensures SafeEdit(c, id, i0, i1) <==> EditCovers(c.env, id, i0, i1)
  {
    hide AllApart, SlowBut, KeepsInterval, Served, EditCovers;
    if EditCovers(c.env, id, i0, i1) {
      forall ss: seq<State>, steps: seq<Step>, k: nat, e: nat |
        && IsRun(c, ss, steps) && Init(ss[0]) && k < |steps| && steps[k].ScheduleIteration? && id in steps[k].due
        && SlowBut(Some(id), ss, steps, k) && AllApart(ss[k].monitors)
        && KeepsInterval(ss, steps, id, i0, 0, e) && KeepsInterval(ss, steps, id, i1, e, k + 1)
        ensures Served(c, ss, steps, k, id)
      {
        CoveredEdit(c, ss, steps, id, i0, i1, e, k);
      }
    } else {
      var ss, steps := WideEditLoses(c, id, i0, i1);
    }
  }

  /** From one second to two minutes is such an edit, for every monitor and every hash. */
  lemma SecondToTwoMinutes(env: Env, id: string)
    ensures !EditCovers(env, id, 1000, 120_000)
  {
    DedupBounds(120_000);
  }

  // ---------------------------------------------------------------------------------------------------------------
  // Ids

  /** No run whose monitors have ids from `ids` and are scheduled at a second or more, each listed one at one interval,
      loses a job. */
  ghost predicate SafeIds(c: Config, ids: set<string>) {
    forall ss: seq<State>, steps: seq<Step>, k: nat, id: string, ms: int ::
      && IsRun(c, ss, steps) && Init(ss[0]) && k < |steps| && steps[k].ScheduleIteration? && id in steps[k].due
      && ss[k].monitors.Keys <= ids && KeptSlow(ss, steps, k, id, ms)
      ==> Served(c, ss, steps, k, id)
  }

  ghost predicate KeptSlow(ss: seq<State>, steps: seq<Step>, k: nat, id: string, ms: int) {
    SlowBut(None, ss, steps, k + 1) && KeepsInterval(ss, steps, id, ms, 0, k + 1)
  }

  lemma KeptIdsServed(c: Config, ids: set<string>, ss: seq<State>, steps: seq<Step>, k: nat, id: string, ms: int)
    requires ValidEnv(c.env) && forall m, m' :: m in ids && m' in ids ==> Apart(m, m')
    requires IsRun(c, ss, steps) && Init(ss[0]) && k < |steps| && steps[k].ScheduleIteration? && id in steps[k].due
    requires ss[k].monitors.Keys <= ids && KeptSlow(ss, steps, k, id, ms)
    ensures Served(c, ss, steps, k, id)
  {
    assert Option<string>.None != Some(id);
    assert ss[k].monitors[id].intervalMs == ms >= 1000;
    assert SlowBut(Some(id), ss, steps, k);
    assert AllApart(ss[k].monitors);
    hide IsRun, Init, Served, SlowBut, AllApart, Apart, KeepsInterval;
    NothingLost(c, ss, steps, k, id, ms);
  }

  ghost function TwoMonitors(m: string, g: string, m': string, g': string): State {
    State(0, map[], map[m := Fresh(60000, g), m' := Fresh(60000, g')], map[], map[])
  }

  ghost function OneServed(c: Config, m: string, g: string, m': string, g': string): State {
    OneJob(0, GenerateRunId(c.env, m, g, 0), NewRow(m, g, 0),
           map[m := Advanced(c.env, m, Fresh(60000, g), 0), m' := Fresh(60000, g')])
  }

  lemma TwoCreated(c: Config, m: string, g: string, m': string, g': string)
    requires m != "" && m' != "" && m != m' && Regions.Normal(g) && Regions.Normal(g')
    ensures var s1 := Alone(m, Fresh(60000, g));
            var first, second := CreateMonitor(m, 60000, [g], true), CreateMonitor(m', 60000, [g'], true);
            && Enabled(c, Empty(), first) && Apply(c, Empty(), first) == s1
            && Enabled(c, s1, second) && Apply(c, s1, second) == TwoMonitors(m, g, m', g')
  {
    Created(c, Empty(), m, 60000, g);
    Created(c, Alone(m, Fresh(60000, g)), m', 60000, g');
    hide Apply, Enabled;
  }

  lemma FirstOfTwo(c: Config, m: string, g: string, m': string, g': string)
    requires m != m'
    ensures var step := ScheduleIteration({m'}, [m]);
            && Enabled(c, TwoMonitors(m, g, m', g'), step)
            && Apply(c, TwoMonitors(m, g, m', g'), step) == OneServed(c, m, g, m', g')
    ensures Enabled(c, OneServed(c, m, g, m', g'), ScheduleIteration({m}, [m']))
  {
    FirstStart(c, TwoMonitors(m, g, m', g'), m, 60000, g, {m'});
    OnlyDue(OneServed(c, m, g, m', g').monitors, m', 0, {m});
    hide Apply, Advanced, GenerateRunId;
  }

  lemma OnlyThese(c: Config, ss: seq<State>, steps: seq<Step>, m: string, g: string, m': string, g': string)
    requires |ss| == 5 && |steps| == 4 && steps[0].CreateMonitor? && steps[1].CreateMonitor? && m != m'
    requires steps[2] == ScheduleIteration({m'}, [m]) && steps[3] == ScheduleIteration({m}, [m'])
    requires ss[2] == TwoMonitors(m, g, m', g') && ss[3] == OneServed(c, m, g, m', g')
    ensures KeptSlow(ss, steps, 3, m', 60000)
    ensures ss[3].monitors.Keys == {m, m'} && ss[3].monitors[m'] == Fresh(60000, g')
  {
  }

  /** Two monitors whose regions make up for the difference of their ids: the second one's run id is taken. */
  lemma ClashLoses(c: Config, m: string, m': string) returns (ss: seq<State>, steps: seq<Step>)
    requires m != "" && m' != "" && m != m' && !Apart(m, m')
    ensures IsRun(c, ss, steps) && Init(ss[0]) && |steps| == 4
    ensures steps[3].ScheduleIteration? && m' in steps[3].due && ss[3].monitors.Keys <= {m, m'}
    ensures KeptSlow(ss, steps, 3, m', 60000)
    ensures !Served(c, ss, steps, 3, m')
  {
    hide Apply, Enabled, Served, KeptSlow, GenerateRunId, Apart, Place, Regions.Normal, Advanced;
    var g, g' := ClashingPair(m, m');
    TwoCreated(c, m, g, m', g');
    FirstOfTwo(c, m, g, m', g');
    var last := OneServed(c, m, g, m', g');
    var end := Apply(c, last, ScheduleIteration({m}, [m']));
    ClashingIds(c.env, m, g, m', g', 0);
    steps := [CreateMonitor(m, 60000, [g], true), CreateMonitor(m', 60000, [g'], true),
              ScheduleIteration({m'}, [m]), ScheduleIteration({m}, [m'])];
    ss := [Empty(), Alone(m, Fresh(60000, g)), TwoMonitors(m, g, m', g'), last, end];
    FourSteps(c, ss, steps);
    OnlyThese(c, ss, steps, m, g, m', g');
    AlreadyNamed(c, ss, steps, 3, m', g');
  }

  lemma ClashingIds(env: Env, m: string, g: string, m': string, g': string, at: Time)
    requires Place(m, g) == Place(m', g')
    ensures GenerateRunId(env, m, g, at) == GenerateRunId(env, m', g', at)
  {
  }

  lemma ClashingPair(m: string, m': string) returns (g: string, g': string)
    requires m != m' && !Apart(m, m')
    ensures Regions.Normal(g) && Regions.Normal(g') && Place(m, g) == Place(m', g')
  {
    if Continues(m', m) {
      g, g' := ClashingRegions(m, m');
    } else {
      g', g := ClashingRegions(m', m);
    }
  }

  /** A set of ids is safe exactly when no two of them can run into each other. */
  lemma SafeIdsIff(c: Config, ids: set<string>)
    requires ValidEnv(c.env) && "" !in ids
    ensures SafeIds(c, ids) <==> forall m, m' :: m in ids && m' in ids ==> Apart(m, m')
  {
    hide KeptSlow, Served, Apart;
    if forall m, m' :: m in ids && m' in ids ==> Apart(m, m') {
      forall ss: seq<State>, steps: seq<Step>, k: nat, id: string, ms: int |
        && IsRun(c, ss, steps) && Init(ss[0]) && k < |steps| && steps[k].ScheduleIteration? && id in steps[k].due
        && ss[k].monitors.Keys <= ids && KeptSlow(ss, steps, k, id, ms)
        ensures Served(c, ss, steps, k, id)
      {
        KeptIdsServed(c, ids, ss, steps, k, id, ms);
      }
    } else {
      var m, m' :| m in ids && m' in ids && !Apart(m, m');
      SelfApart(m);
      var ss, steps := ClashLoses(c, m, m');
    }
  }

  lemma SelfApart(m: string)
    ensures Apart(m, m)
  {
  }
}
