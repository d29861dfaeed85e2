/** What one monitor's interval does to another's jobs: an iteration is one transaction, so a run id that is taken costs
    every listed monitor its jobs. */
module Neighbours {
  import opened Wrappers
  import opened Times
  import opened Jobs
  import opened Cadence
  import opened RunIds
  import opened Schedule
  import opened Results
  import opened Protocol
  import opened Leases
  import opened Pace
  import opened Losses
  import Regions

  /** Every other monitor is at `other` whenever it is listed before step `n`. */
  ghost predicate OthersAt(id: string, other: int, ss: seq<State>, steps: seq<Step>, n: nat) {
    forall k, x :: 0 <= k < n && k < |steps| && k < |ss| && steps[k].ScheduleIteration? && x in steps[k].due && x != id
      ==> x in ss[k].monitors && ss[k].monitors[x].intervalMs == other
  }

  /** No run loses a job of a monitor that is kept at `ms` beside others that are kept at `other`. */
  ghost predicate HarmlessBeside(c: Config, ms: int, other: int) {
    forall ss: seq<State>, steps: seq<Step>, k: nat, id: string ::
      && IsRun(c, ss, steps) && Init(ss[0]) && k < |steps| && steps[k].ScheduleIteration? && id in steps[k].due
      && AllApart(ss[k].monitors) && KeepsInterval(ss, steps, id, ms, 0, k + 1) && OthersAt(id, other, ss, steps, k)
      ==> Served(c, ss, steps, k, id)
  }

  lemma SlowOthers(id: string, other: int, ss: seq<State>, steps: seq<Step>, n: nat)
    requires OthersAt(id, other, ss, steps, n) && 1000 <= other
    ensures SlowBut(Some(id), ss, steps, n)
  {
  }

  lemma SlowIsHarmless(c: Config, ms: int, other: int)
    requires ValidEnv(c.env) && 1000 <= ms && 1000 <= other
    ensures HarmlessBeside(c, ms, other)
  {
    hide AllApart, KeepsInterval, OthersAt, SlowBut, Served;
    forall ss: seq<State>, steps: seq<Step>, k: nat, id: string |
      && IsRun(c, ss, steps) && Init(ss[0]) && k < |steps| && steps[k].ScheduleIteration? && id in steps[k].due
      && AllApart(ss[k].monitors) && KeepsInterval(ss, steps, id, ms, 0, k + 1) && OthersAt(id, other, ss, steps, k)
      ensures Served(c, ss, steps, k, id)
    {
      SlowOthers(id, other, ss, steps, k);
      NothingLost(c, ss, steps, k, id, ms);
    }
  }

  // ---------------------------------------------------------------------------------------------------------------
  // An iteration that rolls back

  lemma TakenByDone(jobs: Table, run: RunId, row: Job, from: Time, to: Time)
    requires run in jobs && forall q :: q in jobs && jobs[q].monitor == row.monitor ==> !jobs[q].Active()
    ensures InsertIfAbsent(jobs, run, row, from, to) == Violation
  {
  }

  lemma RowsOfOther(env: Env, jobs: Table, t: Table, id: string, regions: seq<string>, at: Time, other: string)
    requires Grown(env, jobs, t, id, regions, at) && id != other
    requires forall q :: q in jobs && jobs[q].monitor == other ==> !jobs[q].Active()
    ensures jobs.Keys <= t.Keys && forall q :: q in t && t[q].monitor == other ==> !t[q].Active()
  {
  }

  lemma TwoListed(env: Env, s: Schedules, a: string, b: string, now: Time)
    requires a in s.monitors && b in s.monitors
    ensures ScheduleAll(env, s, [a, b], now) ==
            var u := ScheduleMonitor(env, s, a, s.monitors[a], now);
            if u.None? then None else ScheduleMonitor(env, u.value, b, s.monitors[b], now)
  {
    assert [a, b][..1] == [a] && [a, b][1] == b;
    OneListed(env, s, a, now);
  }

  /** The second monitor's id is taken by a finished job; the first one's insert is lost with it. */
  lemma SecondRollsBack(env: Env, s: Schedules, a: string, b: string, g: string, now: Time)
    requires a in s.monitors && b in s.monitors && a != b && s.monitors[b].regions == [g]
    requires GenerateRunId(env, b, g, StartOf(s.monitors[b], now)) in s.jobs
    requires forall q :: q in s.jobs && s.jobs[q].monitor == b ==> !s.jobs[q].Active()
    ensures ScheduleAll(env, s, [a, b], now) == None
  {
    hide GenerateRunId, StartOf, DedupWindow, InsertIfAbsent, InsertRegions, Grown, Stored, Job.Active;
    var ma, mb := s.monitors[a], s.monitors[b];
    var wa, wb := DedupWindow(Interval(ma.intervalMs)), DedupWindow(Interval(mb.intervalMs));
    TwoListed(env, s, a, b, now);
    var u := ScheduleMonitor(env, s, a, ma, now);
    if u.Some? {
      var at := StartOf(mb, now);
      InsertsGrow(env, s.jobs, a, ma.regions, StartOf(ma, now), wa);
      RowsOfOther(env, s.jobs, u.value.jobs, a, ma.regions, StartOf(ma, now), b);
      OneInsert(env, u.value.jobs, b, g, at, wb);
      TakenByDone(u.value.jobs, GenerateRunId(env, b, g, at), NewRow(b, g, Stored(at)), Stored(at - wb), Stored(at + wb));
    }
  }

  // ---------------------------------------------------------------------------------------------------------------
  // The run

  const QUIET: string := "a"
  const BUSY: string := "b"
  const SOMEBODY: string := "worker"

  function BusyRun(c: Config): RunId {
    GenerateRunId(c.env, BUSY, Regions.GLOBAL, 0)
  }

  function Outcome(c: Config): MonitorResult {
    MonitorResult(BusyRun(c), BUSY, Regions.GLOBAL, 0, "OK", [], None)
  }

  function BusyRow(status: Status, expires: Option<Time>, worker: Option<string>): Job {
    Job(BUSY, Regions.GLOBAL, status, 0, expires, worker, false)
  }

  function Both(ms: int, other: Monitor): Monitors {
    map[QUIET := Fresh(ms, Regions.GLOBAL), BUSY := other]
  }

  ghost function Started(c: Config, ms: int, other: int): Monitors {
    Both(ms, Advanced(c.env, BUSY, Fresh(other, Regions.GLOBAL), 0))
  }

  function NoJobs(monitors: Monitors): State {
    State(0, map[], monitors, map[], map[])
  }

  ghost function WithJob(c: Config, ms: int, other: int, row: Job, results: ResultTable, inflight: map<nat,
                        Submission>): State {
    State(0, map[BusyRun(c) := row], Started(c, ms, other), results, inflight)
  }

  function OneResult(c: Config): ResultTable {
    map[KeyOf(Outcome(c)) := RowOf(Outcome(c))]
  }

  lemma BothCreated(c: Config, ms: int, other: int)
    requires ms != 0
    ensures var s1, s2, s3 := Alone(QUIET, Fresh(ms, Regions.GLOBAL)), NoJobs(Both(ms, Fresh(60000, Regions.GLOBAL))),
                              NoJobs(Both(ms, Fresh(other, Regions.GLOBAL)));
            var first, second := CreateMonitor(QUIET, ms, [Regions.GLOBAL], true), CreateMonitor(BUSY, 60000, [Regions.GLOBAL], true);
            var edit := UpdateMonitor(BUSY, Some(other), [], None);
            && Enabled(c, Empty(), first) && Apply(c, Empty(), first) == s1
            && Enabled(c, s1, second) && Apply(c, s1, second) == s2
            && Enabled(c, s2, edit) && Apply(c, s2, edit) == s3
  {
    hide Apply, Enabled, Regions.Normal;
    GlobalIsStored();
    Created(c, Empty(), QUIET, ms, Regions.GLOBAL);
    Created(c, Alone(QUIET, Fresh(ms, Regions.GLOBAL)), BUSY, 60000, Regions.GLOBAL);
    Edited(c, NoJobs(Both(ms, Fresh(60000, Regions.GLOBAL))), BUSY, other);
  }

  lemma BusyStarts(c: Config, ms: int, other: int)
    ensures var s, step := NoJobs(Both(ms, Fresh(other, Regions.GLOBAL))), ScheduleIteration({QUIET}, [BUSY]);
            && Enabled(c, s, step)
            && Apply(c, s, step) == WithJob(c, ms, other, BusyRow(Ready, None, None), map[], map[])
  {
    hide Apply, Enabled, GenerateRunId, Advanced;
    FirstStart(c, NoJobs(Both(ms, Fresh(other, Regions.GLOBAL))), BUSY, other, Regions.GLOBAL, {QUIET});
  }

  lemma BusyLeased(c: Config, ms: int, other: int)
    ensures var s, step := WithJob(c, ms, other, BusyRow(Ready, None, None), map[], map[]),
                           LeaseJobs(SOMEBODY, Regions.GLOBAL, 1, 0, {}, {BusyRun(c)});
            && Enabled(c, s, step)
            && Apply(c, s, step) == WithJob(c, ms, other, BusyRow(Leased, Some(Stored(c.lease)), Some(SOMEBODY)), map[], map[])
  {
    hide GenerateRunId, Advanced;
    var s := WithJob(c, ms, other, BusyRow(Ready, None, None), map[], map[]);
    assert ClaimRanks(s.jobs, Regions.GLOBAL, 0, {}) == map[BusyRun(c) := Rank(0, 0)];
  }

  function Held(c: Config): Job {
    BusyRow(Leased, Some(Stored(c.lease)), Some(SOMEBODY))
  }

  lemma BusyStored(c: Config, ms: int, other: int)
    ensures var s, step := WithJob(c, ms, other, Held(c), map[], map[]), StoreResult(0, SOMEBODY, Outcome(c));
            && Enabled(c, s, step)
            && Apply(c, s, step) == WithJob(c, ms, other, Held(c), OneResult(c), map[0 := Submission(SOMEBODY, Outcome(c), false)])
  {
    hide GenerateRunId, Advanced;
    assert ConvertStatus(Outcome(c).status) == "OK";
  }

  lemma BusyCompleted(c: Config, ms: int, other: int)
    ensures var s := WithJob(c, ms, other, Held(c), OneResult(c), map[0 := Submission(SOMEBODY, Outcome(c), false)]);
            var step := Step.CompleteJob(0);
            && Enabled(c, s, step)
            && Apply(c, s, step) == WithJob(c, ms, other, BusyRow(Done, None, Some(SOMEBODY)), OneResult(c), map[])
  {
    hide GenerateRunId, Advanced, RowOf;
    var s := WithJob(c, ms, other, Held(c), OneResult(c), map[0 := Submission(SOMEBODY, Outcome(c), false)]);
    assert Forget(s, 0) == map[];
  }

  ghost function Finished(c: Config, ms: int, other: int): State {
    WithJob(c, ms, other, BusyRow(Done, None, Some(SOMEBODY)), OneResult(c), map[])
  }

  /** The busy monitor is due again within the second of its first job. */
  lemma BusyAgain(env: Env, other: int)
    requires other < 1000
    ensures var m := Advanced(env, BUSY, Fresh(other, Regions.GLOBAL), 0);
            && m.Due(0) && m.nextDue.Some?
            && GenerateRunId(env, BUSY, Regions.GLOBAL, StartOf(m, 0)) == GenerateRunId(env, BUSY, Regions.GLOBAL, 0)
  {
    var m := Advanced(env, BUSY, Fresh(other, Regions.GLOBAL), 0);
    StoredMonotone(Interval(other), LOOK_AHEAD);
    StoredMonotone(Interval(other), 999 * MILLISECOND);
    assert m.nextDue == Some(Stored(Interval(other)));
    assert 0 <= StartOf(m, 0) < SECOND;
    SameId(env, BUSY, Regions.GLOBAL, StartOf(m, 0), 0);
  }

  lemma BothDue(monitors: Monitors)
    requires monitors.Keys == {QUIET, BUSY} && monitors[QUIET].nextDue.None?
    requires monitors[QUIET].Due(0) && monitors[BUSY].Due(0)
    ensures IsDueList(monitors, 0, {}, [QUIET, BUSY])
  {
  }

  lemma BothRollBack(c: Config, ms: int, other: int)
    requires other < 1000
    ensures var s, step := Finished(c, ms, other), ScheduleIteration({}, [QUIET, BUSY]);
            Enabled(c, s, step) && Apply(c, s, step) == s
  {
    hide GenerateRunId, Advanced, StartOf, ScheduleAll;
    var s := Finished(c, ms, other);
    BusyAgain(c.env, other);
    BusyRegions(c.env, other);
    BothDue(s.monitors);
    SecondRollsBack(c.env, Tables(s), QUIET, BUSY, Regions.GLOBAL, 0);
  }

  lemma BusyRegions(env: Env, other: int)
    ensures var m := Advanced(env, BUSY, Fresh(other, Regions.GLOBAL), 0);
            m.regions == [Regions.GLOBAL] && m.intervalMs == other
  {
  }

  lemma KeptAndOthers(c: Config, ss: seq<State>, steps: seq<Step>, ms: int, other: int)
    requires |ss| == 9 && |steps| == 8
    requires steps[0].CreateMonitor? && steps[1].CreateMonitor? && steps[2].UpdateMonitor?
    requires steps[3] == ScheduleIteration({QUIET}, [BUSY]) && ss[3] == NoJobs(Both(ms, Fresh(other, Regions.GLOBAL)))
    requires steps[4].LeaseJobs? && steps[5].StoreResult? && steps[6].CompleteJob?
    requires steps[7] == ScheduleIteration({}, [QUIET, BUSY]) && ss[7] == Finished(c, ms, other)
    ensures KeepsInterval(ss, steps, QUIET, ms, 0, 8) && OthersAt(QUIET, other, ss, steps, 7)
    ensures AllApart(ss[7].monitors) && QUIET in ss[7].monitors && ss[7].monitors[QUIET].regions == [Regions.GLOBAL]
  {
    hide Advanced, GenerateRunId;
  }

  /** Create both monitors, edit the busy one, schedule and lease its job. */
  lemma UpToHeld(c: Config, ms: int, other: int) returns (ss: seq<State>, steps: seq<Step>)
    requires 1000 <= ms
    ensures IsRun(c, ss, steps) && |ss| == 6 && Init(ss[0])
    ensures ss[3] == NoJobs(Both(ms, Fresh(other, Regions.GLOBAL))) && ss[5] == WithJob(c, ms, other, Held(c), map[], map[])
    ensures steps == [CreateMonitor(QUIET, ms, [Regions.GLOBAL], true), CreateMonitor(BUSY, 60000, [Regions.GLOBAL], true),
                      UpdateMonitor(BUSY, Some(other), [], None), ScheduleIteration({QUIET}, [BUSY]),
                      LeaseJobs(SOMEBODY, Regions.GLOBAL, 1, 0, {}, {BusyRun(c)})]
  {
    hide Apply, Enabled, IsRun, WithJob, Both, NoJobs, BusyRun, Held, Alone, Fresh, BusyRow;
    BothCreated(c, ms, other);
    BusyStarts(c, ms, other);
    BusyLeased(c, ms, other);
    HeldIs(c);
    var g := Regions.GLOBAL;
    Begin(c, Empty());
    ss, steps := OneMore(c, [Empty()], [], CreateMonitor(QUIET, ms, [g], true), Alone(QUIET, Fresh(ms, g)));
    ss, steps := OneMore(c, ss, steps, CreateMonitor(BUSY, 60000, [g], true), NoJobs(Both(ms, Fresh(60000, g))));
    ss, steps := OneMore(c, ss, steps, UpdateMonitor(BUSY, Some(other), [], None), NoJobs(Both(ms, Fresh(other, g))));
    ss, steps := OneMore(c, ss, steps, ScheduleIteration({QUIET}, [BUSY]),
                         WithJob(c, ms, other, BusyRow(Ready, None, None), map[], map[]));
    ss, steps := OneMore(c, ss, steps, LeaseJobs(SOMEBODY, g, 1, 0, {}, {BusyRun(c)}),
                         WithJob(c, ms, other, Held(c), map[], map[]));
  }

  /** From empty tables, for every interval below a second of the busy monitor: its finished job still holds the run id it
      needs again, the iteration rolls back, and the quiet monitor, kept at a second or more, gets no job. */
  lemma NeighbourLoses(c: Config, ms: int, other: int) returns (ss: seq<State>, steps: seq<Step>)
    requires 1000 <= ms && other < 1000
    ensures IsRun(c, ss, steps) && Init(ss[0]) && |steps| == 8
    ensures steps[7] == ScheduleIteration({}, [QUIET, BUSY]) && AllApart(ss[7].monitors)
    ensures KeepsInterval(ss, steps, QUIET, ms, 0, 8) && OthersAt(QUIET, other, ss, steps, 7)
    ensures ss[8] == ss[7] && !Served(c, ss, steps, 7, QUIET)
  {
    hide Apply, Enabled, IsRun, Init, Served, KeepsInterval, OthersAt, AllApart, WithJob, Both, NoJobs, Outcome, BusyRun,
         OneResult, Held, Finished;
    BusyStored(c, ms, other);
    BusyFinished(c, ms, other);
    BothRollBack(c, ms, other);
    var pending := map[0 := Submission(SOMEBODY, Outcome(c), false)];
    ss, steps := UpToHeld(c, ms, other);
    ss, steps := OneMore(c, ss, steps, StoreResult(0, SOMEBODY, Outcome(c)),
                         WithJob(c, ms, other, Held(c), OneResult(c), pending));
    ss, steps := OneMore(c, ss, steps, Step.CompleteJob(0), Finished(c, ms, other));
    ss, steps := OneMore(c, ss, steps, ScheduleIteration({}, [QUIET, BUSY]), Finished(c, ms, other));
    KeptAndOthers(c, ss, steps, ms, other);
    NothingAdded(c, ss, steps, 7, QUIET, Regions.GLOBAL);
  }

  lemma BusyFinished(c: Config, ms: int, other: int)
    ensures var s := WithJob(c, ms, other, Held(c), OneResult(c), map[0 := Submission(SOMEBODY, Outcome(c), false)]);
            Enabled(c, s, Step.CompleteJob(0)) && Apply(c, s, Step.CompleteJob(0)) == Finished(c, ms, other)
  {
    BusyCompleted(c, ms, other);
    hide Apply, Enabled;
  }

  lemma HeldIs(c: Config)
    ensures Held(c) == BusyRow(Leased, Some(Stored(c.lease)), Some(SOMEBODY))
  {
  }

  lemma HarmlessAt(c: Config, ms: int, other: int, ss: seq<State>, steps: seq<Step>, k: nat, id: string)
    requires HarmlessBeside(c, ms, other)
    requires IsRun(c, ss, steps) && Init(ss[0]) && k < |steps| && steps[k].ScheduleIteration? && id in steps[k].due
    requires AllApart(ss[k].monitors) && KeepsInterval(ss, steps, id, ms, 0, k + 1) && OthersAt(id, other, ss, steps, k)
    ensures Served(c, ss, steps, k, id)
  {
    hide Served, AllApart, KeepsInterval, OthersAt;
  }

  lemma BusyIsHarmful(c: Config, ms: int, other: int)
    requires 1000 <= ms && other < 1000
    ensures !HarmlessBeside(c, ms, other)
  {
    var ss, steps := NeighbourLoses(c, ms, other);
    hide *;
    if HarmlessBeside(c, ms, other) {
      HarmlessAt(c, ms, other, ss, steps, 7, QUIET);
    }
  }

  /** A monitor kept at one interval of at least a second is safe beside others exactly when they, too, are listed with at
      least a second. */
  lemma HarmlessIff(c: Config, ms: int, other: int)
    requires ValidEnv(c.env) && 1000 <= ms
    ensures HarmlessBeside(c, ms, other) <==> 1000 <= other
  {
    if 1000 <= other {
      SlowIsHarmless(c, ms, other);
    } else {
      BusyIsHarmful(c, ms, other);
    }
  }
}
