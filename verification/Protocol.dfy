/** The job queue as one step system: every statement of every actor is a step over the same tables, and any actor may
    run between any two steps of another. */
module Protocol {
  import opened Wrappers
  import opened Times
  import opened Jobs
  import opened Cadence
  import opened RunIds
  import opened Schedule
  import opened Results
  import Regions

  datatype Config = Config(env: Env, lease: Time, retention: Time)

  /** A submission whose result is stored and whose job is still to be completed; `missed` once the completing
      update has found no row. */
  datatype Submission = Submission(worker: string, result: MonitorResult, missed: bool)

  datatype State = State(
    clock: Time,
    jobs: Table,
    monitors: Monitors,
    results: ResultTable,
    inflight: map<nat, Submission>)

  /** `readAt` is the handler's own reading of the clock, which may lie before the moment its statement runs. */
  datatype Step =
    | Tick(to: Time)
    | CreateMonitor(id: string, intervalMs: int, regions: seq<string>, enabled: bool)
    | UpdateMonitor(id: string, newInterval: Option<int>, regions: seq<string>, newEnabled: Option<bool>)
    | DeleteMonitor(id: string)
    | ScheduleIteration(locked: set<string>, due: seq<string>)
    | LeaseJobs(worker: string, home: string, limit: nat, readAt: Time, skipped: set<RunId>, chosen: set<RunId>)
    | RenewLease(worker: string, run: RunId, readAt: Time)
    | StoreResult(call: nat, worker: string, result: MonitorResult)
    | CompleteJob(call: nat)
    | CompleteUnanswered(call: nat)
    | CheckDone(call: nat)
    | FailSubmit(call: nat)
    | ReclaimExpired
    | CleanBatch(readAt: Time, limit: nat, chosen: set<RunId>)

  const DEFAULT_SEED: int := 42

  function StoredRegions(regions: seq<string>): seq<string> {
    Regions.Normalized(if regions == [] then [Regions.GLOBAL] else regions)
  }

  function Cutoff(c: Config, readAt: Time): Time {
    Stored(readAt - c.retention)
  }

  ghost predicate Enabled(c: Config, s: State, step: Step) {
    match step
    case Tick(to) => s.clock <= to
    case CreateMonitor(id, _, _, _) => id != "" && id !in s.monitors
    case UpdateMonitor(id, _, _, _) => id in s.monitors
    case DeleteMonitor(id) => id in s.monitors && !s.monitors[id].deleted
    case ScheduleIteration(locked, due) => IsDueList(s.monitors, s.clock, locked, due)
    case LeaseJobs(w, home, limit, readAt, skipped, chosen) =>
      readAt <= s.clock && IsFirst(ClaimRanks(s.jobs, home, s.clock, skipped), limit, chosen)
    case RenewLease(w, run, readAt) => readAt <= s.clock
    case StoreResult(call, w, m) => call !in s.inflight
    case CompleteJob(call) => call in s.inflight && !s.inflight[call].missed
    case CompleteUnanswered(call) => call in s.inflight && !s.inflight[call].missed
    case CheckDone(call) => call in s.inflight && s.inflight[call].missed
    case FailSubmit(call) => call in s.inflight
    case ReclaimExpired => true
    case CleanBatch(readAt, limit, chosen) =>
      readAt <= s.clock && IsFirst(CleanRanks(s.jobs, Cutoff(c, readAt)), limit, chosen)
  }

  function FinishedBy(s: State, call: nat): Table
    requires call in s.inflight
  {
    CompleteRow(s.jobs, s.inflight[call].result.run, s.inflight[call].worker)
  }

  predicate Owns(s: State, call: nat)
    requires call in s.inflight
  {
    var run := s.inflight[call].result.run;
    run in s.jobs && s.jobs[run].HeldBy(s.inflight[call].worker)
  }

  function Forget(s: State, call: nat): map<nat, Submission> {
    map k | k in s.inflight && k != call :: s.inflight[k]
  }

  ghost function Apply(c: Config, s: State, step: Step): State
    requires Enabled(c, s, step)
  {
    match step
    case Tick(to) => s.(clock := to)
    case CreateMonitor(id, ms, regions, enabled) =>
      var m := Monitor(if ms == 0 then 60000 else ms, DEFAULT_SEED, StoredRegions(regions), enabled, false, None, None);
      s.(monitors := s.monitors[id := m])
    case UpdateMonitor(id, ms, regions, enabled) =>
      var m := s.monitors[id];
      s.(monitors := s.monitors[id := m.(
        intervalMs := if ms.Some? then ms.value else m.intervalMs,
        regions := if regions == [] then m.regions else Regions.Normalized(regions),
        enabled := if enabled.Some? then enabled.value else m.enabled)])
    case DeleteMonitor(id) => s.(monitors := s.monitors[id := s.monitors[id].(deleted := true)])
    case ScheduleIteration(locked, due) =>
      (match ScheduleAll(c.env, Schedules(s.jobs, s.monitors), due, s.clock)
       case None => s
       case Some(u) => s.(jobs := u.jobs, monitors := u.monitors))
    case LeaseJobs(w, home, limit, readAt, skipped, chosen) =>
      s.(jobs := LeaseRows(s.jobs, chosen, w, Stored(readAt + c.lease)))
    case RenewLease(w, run, readAt) => s.(jobs := RenewRow(s.jobs, run, w, Stored(readAt + c.lease)))
    case StoreResult(call, w, m) =>
      (match ProcessResult(s.results, m)
       case None => s
       case Some(t) => s.(results := t, inflight := s.inflight[call := Submission(w, m, false)]))
    case CompleteJob(call) =>
      if Owns(s, call) then s.(jobs := FinishedBy(s, call), inflight := Forget(s, call))
      else s.(inflight := s.inflight[call := s.inflight[call].(missed := true)])
    case CompleteUnanswered(call) => s.(jobs := FinishedBy(s, call), inflight := Forget(s, call))
    case CheckDone(call) => s.(inflight := Forget(s, call))
    case FailSubmit(call) => s.(inflight := Forget(s, call))
    case ReclaimExpired => s.(jobs := ReclaimRows(s.jobs, s.clock))
    case CleanBatch(readAt, limit, chosen) => s.(jobs := DeleteRows(s.jobs, chosen))
  }

  /** What the step answers to the worker that submitted a result, if it answers at all. */
  ghost function Answer(s: State, step: Step): Option<bool> {
    match step
    case StoreResult(call, w, m) => if ProcessResult(s.results, m).None? then Some(false) else None
    case CompleteJob(call) => if call in s.inflight && Owns(s, call) then Some(true) else None
    case CompleteUnanswered(call) => Some(false)
    case CheckDone(call) =>
      if call in s.inflight then
        var run := s.inflight[call].result.run;
        Some(run in s.jobs && s.jobs[run].status == Done)
      else None
    case FailSubmit(call) => Some(false)
    case _ => None
  }

  /** The jobs a poll returns: the leased rows whose monitor is live. */
  ghost function Polled(s: State, step: Step): set<RunId> {
    match step
    case LeaseJobs(w, home, limit, readAt, skipped, chosen) =>
      set r | r in chosen && r in s.jobs && s.jobs[r].monitor in s.monitors && !s.monitors[s.jobs[r].monitor].deleted
    case _ => {}
  }

  ghost predicate Init(s: State) {
    s.jobs == map[] && s.monitors == map[] && s.results == map[] && s.inflight == map[]
  }

  ghost predicate IsRun(c: Config, ss: seq<State>, steps: seq<Step>) {
    && |ss| == |steps| + 1
    && forall i {:trigger steps[i]} :: 0 <= i < |steps| ==> Enabled(c, ss[i], steps[i]) && ss[i + 1] == Apply(c, ss[i], steps[i])
  }

  lemma Begin(c: Config, s: State)
    ensures IsRun(c, [s], [])
  {
  }

  lemma Extend(c: Config, ss: seq<State>, steps: seq<Step>, step: Step, s': State)
    requires IsRun(c, ss, steps) && Enabled(c, ss[|steps|], step) && s' == Apply(c, ss[|steps|], step)
    ensures IsRun(c, ss + [s'], steps + [step])
  {
    hide Apply, Enabled;
    var tt, ts := ss + [s'], steps + [step];
    forall i {:trigger ts[i]} | 0 <= i < |ts| ensures Enabled(c, tt[i], ts[i]) && tt[i + 1] == Apply(c, tt[i], ts[i]) {
      if i < |steps| {
        assert ts[i] == steps[i];
      }
    }
  }

  lemma OneMore(c: Config, ss: seq<State>, steps: seq<Step>, step: Step, s': State) returns (ss': seq<State>,
                steps': seq<Step>)
    requires IsRun(c, ss, steps) && |ss| == |steps| + 1 && Enabled(c, ss[|steps|], step) && s' == Apply(c, ss[|steps|], step)
    ensures ss' == ss + [s'] && steps' == steps + [step] && IsRun(c, ss', steps')
  {
    Extend(c, ss, steps, step, s');
    ss', steps' := ss + [s'], steps + [step];
  }
}
