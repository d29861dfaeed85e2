/** Storing and completing are separate steps; what every run keeps of them. */
module Completion {
  import opened Wrappers
  import opened Times
  import opened Jobs
  import opened Cadence
  import opened Schedule
  import opened Results
  import opened Protocol
  import opened Leases

  // ---------------------------------------------------------------------------------------------------------------
  // Shape of rows

  predicate Shape(j: Job) {
    && !j.deleted
    && (j.status == Ready ==> j.worker.None? && j.expires.None?)
    && (j.status == Leased ==> j.worker.Some? && j.expires.Some?)
    && (j.status == Done ==> j.worker.Some? && j.expires.None?)
  }

  ghost predicate Shaped(jobs: Table) {
    forall r :: r in jobs ==> Shape(jobs[r])
  }

  lemma StepKeepsShape(c: Config, s: State, step: Step)
    requires Enabled(c, s, step) && Shaped(s.jobs)
    ensures Shaped(Apply(c, s, step).jobs)
  {
    forall r | r in Apply(c, s, step).jobs ensures Shape(Apply(c, s, step).jobs[r]) {
      JobStateMachine(c, s, step, r);
    }
  }

  /** Ready rows have no worker and no lease, leased rows have both, done rows keep their worker and have no lease. */
  lemma {:induction false} ReachableShape(c: Config, ss: seq<State>, steps: seq<Step>, k: nat)
    requires IsRun(c, ss, steps) && Init(ss[0]) && k < |ss|
    ensures Shaped(ss[k].jobs)
  {
    if k > 0 {
      ReachableShape(c, ss, steps, k - 1);
      assert Enabled(c, ss[k - 1], steps[k - 1]);
      StepKeepsShape(c, ss[k - 1], steps[k - 1]);
    }
  }

  // ---------------------------------------------------------------------------------------------------------------
  // A done job has a stored result

  ghost predicate HasResult(results: ResultTable, r: RunId) {
    exists t :: (r, t) in results
  }

  ghost predicate StoredFirst(s: State) {
    && (forall call :: call in s.inflight ==> KeyOf(s.inflight[call].result) in s.results)
    && (forall r :: r in s.jobs && s.jobs[r].status == Done ==> HasResult(s.results, r))
  }

  lemma ResultsGrow(c: Config, s: State, step: Step)
    requires Enabled(c, s, step)
    ensures s.results.Keys <= Apply(c, s, step).results.Keys
  {
  }

  lemma StepStoresFirst(c: Config, s: State, step: Step)
    requires Enabled(c, s, step) && StoredFirst(s)
    ensures StoredFirst(Apply(c, s, step))
  {
    hide Apply, HasResult;
    InflightStaysStored(c, s, step);
    forall r | r in Apply(c, s, step).jobs && Apply(c, s, step).jobs[r].status == Done
      ensures HasResult(Apply(c, s, step).results, r)
    {
      DoneStaysStored(c, s, step, r);
    }
  }

  lemma InflightStaysStored(c: Config, s: State, step: Step)
    requires Enabled(c, s, step) && StoredFirst(s)
    ensures forall call :: call in Apply(c, s, step).inflight ==> KeyOf(Apply(c, s, step).inflight[call].result) in Apply(c, s, step).results
  {
  }

  lemma NewlyDone(c: Config, s: State, step: Step, r: RunId)
    requires Enabled(c, s, step) && r in Apply(c, s, step).jobs && Apply(c, s, step).jobs[r].status == Done
    requires r !in s.jobs || s.jobs[r].status != Done
    ensures exists w :: Completes(s, step, w, r)
  {
    JobStateMachine(c, s, step, r);
    hide Apply, Enabled, Completes, Grants;
  }

  lemma DoneStaysStored(c: Config, s: State, step: Step, r: RunId)
    requires Enabled(c, s, step) && StoredFirst(s)
    requires r in Apply(c, s, step).jobs && Apply(c, s, step).jobs[r].status == Done
    ensures HasResult(Apply(c, s, step).results, r)
  {
    ResultsGrow(c, s, step);
    var results := Apply(c, s, step).results;
    if r in s.jobs && s.jobs[r].status == Done {
      var t :| (r, t) in s.results;
      assert (r, t) in results;
    } else {
      NewlyDone(c, s, step, r);
      hide Apply, Enabled;
      var w :| Completes(s, step, w, r);
      assert KeyOf(s.inflight[step.call].result) in results;
    }
  }

  /** Commit before acknowledging: whenever a job is done, a result of its run is in the results table, and whatever is
      being completed has been stored. */
  lemma {:induction false} DoneHasResult(c: Config, ss: seq<State>, steps: seq<Step>, k: nat)
    requires IsRun(c, ss, steps) && Init(ss[0]) && k < |ss|
    ensures StoredFirst(ss[k])
  {
    if k > 0 {
      DoneHasResult(c, ss, steps, k - 1);
      assert Enabled(c, ss[k - 1], steps[k - 1]);
      StepStoresFirst(c, ss[k - 1], steps[k - 1]);
    }
  }

  ghost predicate IsDone(s: State, r: RunId) {
    r in s.jobs && s.jobs[r].status == Done
  }

  /** A positive answer is given only in a state where the job is done and a result is stored under this submission's run
      and event time; the answer comes from the owner's completion, or from somebody's completion before it. */
  lemma CommittedMeansDone(c: Config, ss: seq<State>, steps: seq<Step>, k: nat)
    requires IsRun(c, ss, steps) && Init(ss[0]) && k < |steps|
    requires Answer(ss[k], steps[k]) == Some(true)
    ensures (steps[k].CompleteJob? || steps[k].CheckDone?) && steps[k].call in ss[k].inflight
    ensures var sub := ss[k].inflight[steps[k].call];
            && IsDone(ss[k + 1], sub.result.run)
            && KeyOf(sub.result) in ss[k + 1].results
            && (steps[k].CompleteJob? <==> Completes(ss[k], steps[k], sub.worker, sub.result.run))
            && (steps[k].CheckDone? ==> ss[k + 1].jobs == ss[k].jobs)
  {
    DoneHasResult(c, ss, steps, k);
    assert Enabled(c, ss[k], steps[k]);
    ResultsGrow(c, ss[k], steps[k]);
  }

  // ---------------------------------------------------------------------------------------------------------------
  // Counting

  ghost predicate Appears(ss: seq<State>, i: nat, r: RunId)
    requires i + 1 < |ss|
  {
    r !in ss[i].jobs && r in ss[i + 1].jobs
  }

  ghost predicate Disappears(ss: seq<State>, i: nat, r: RunId)
    requires i + 1 < |ss|
  {
    r in ss[i].jobs && r !in ss[i + 1].jobs
  }

  ghost predicate BecomesDone(ss: seq<State>, i: nat, r: RunId)
    requires i + 1 < |ss|
  {
    !IsDone(ss[i], r) && IsDone(ss[i + 1], r)
  }

  ghost function Creations(ss: seq<State>, r: RunId, n: nat): nat
    requires n < |ss|
  {
    if n == 0 then 0 else Creations(ss, r, n - 1) + if Appears(ss, n - 1, r) then 1 else 0
  }

  ghost function Removals(ss: seq<State>, r: RunId, n: nat): nat
    requires n < |ss|
  {
    if n == 0 then 0 else Removals(ss, r, n - 1) + if Disappears(ss, n - 1, r) then 1 else 0
  }

  ghost function Completions(ss: seq<State>, r: RunId, n: nat): nat
    requires n < |ss|
  {
    if n == 0 then 0 else Completions(ss, r, n - 1) + if BecomesDone(ss, n - 1, r) then 1 else 0
  }

  /** Each created job becomes done at most once, and is cleaned only after that: completions lie between removals and
      creations, and what is missing is exactly what the table still shows. */
  lemma {:induction false} AtMostOnce(c: Config, ss: seq<State>, steps: seq<Step>, r: RunId, n: nat)
    requires IsRun(c, ss, steps) && Init(ss[0]) && n < |ss|
    ensures Creations(ss, r, n) == Removals(ss, r, n) + if r in ss[n].jobs then 1 else 0
    ensures Completions(ss, r, n) == Removals(ss, r, n) + if IsDone(ss[n], r) then 1 else 0
  {
    if n > 0 {
      AtMostOnce(c, ss, steps, r, n - 1);
      assert Enabled(c, ss[n - 1], steps[n - 1]);
      JobStateMachine(c, ss[n - 1], steps[n - 1], r);
    }
  }

  /** A job becomes done only through the completing update of a submission by the worker that holds it then. */
  lemma DoneOnlyByOwner(c: Config, ss: seq<State>, steps: seq<Step>, r: RunId, i: nat)
    requires IsRun(c, ss, steps) && i < |steps| && BecomesDone(ss, i, r)
    ensures r in ss[i].jobs && ss[i].jobs[r].status == Leased && ss[i].jobs[r].worker.Some?
    ensures Completes(ss[i], steps[i], ss[i].jobs[r].worker.value, r)
    ensures ss[i + 1].jobs[r].worker == ss[i].jobs[r].worker
  {
    assert Enabled(c, ss[i], steps[i]);
    JobStateMachine(c, ss[i], steps[i], r);
  }

  /** Only done rows that were due before the retention period disappear. */
  lemma OnlyOldDoneDisappear(c: Config, ss: seq<State>, steps: seq<Step>, r: RunId, i: nat)
    requires IsRun(c, ss, steps) && i < |steps| && Disappears(ss, i, r)
    ensures IsDone(ss[i], r) && ss[i].jobs[r].at < ss[i].clock - c.retention
  {
    assert Enabled(c, ss[i], steps[i]);
    JobStateMachine(c, ss[i], steps[i], r);
  }

  function InStatus(jobs: Table, status: Status): set<RunId> {
    set r | r in jobs && jobs[r].status == status
  }

  ghost function Created(ss: seq<State>, n: nat): nat
    requires n < |ss|
  {
    if n == 0 then 0 else Created(ss, n - 1) + |ss[n].jobs.Keys - ss[n - 1].jobs.Keys|
  }

  ghost function Cleaned(ss: seq<State>, n: nat): nat
    requires n < |ss|
  {
    if n == 0 then 0 else Cleaned(ss, n - 1) + |ss[n - 1].jobs.Keys - ss[n].jobs.Keys|
  }

  lemma SplitByStatus(jobs: Table)
    ensures |jobs.Keys| == |InStatus(jobs, Ready)| + |InStatus(jobs, Leased)| + |InStatus(jobs, Done)|
  {
    var a, b, d := InStatus(jobs, Ready), InStatus(jobs, Leased), InStatus(jobs, Done);
    assert jobs.Keys == a + b + d;
    assert |a + b + d| == |a + b| + |d|;
  }

  lemma SizeChange(a: set<RunId>, b: set<RunId>)
    ensures |b| == |a| + |b - a| - |a - b|
  {
    assert a == (a * b) + (a - b) && b == (a * b) + (b - a);
  }

  lemma {:induction false} SizeLedger(ss: seq<State>, n: nat)
    requires n < |ss| && Init(ss[0])
    ensures Created(ss, n) == |ss[n].jobs.Keys| + Cleaned(ss, n)
  {
    if n == 0 {
      assert ss[n].jobs.Keys == {};
    } else {
      SizeLedger(ss, n - 1);
      SizeChange(ss[n - 1].jobs.Keys, ss[n].jobs.Keys);
    }
  }

  /** Created equals ready plus leased plus done plus cleaned. */
  lemma Conservation(c: Config, ss: seq<State>, steps: seq<Step>, n: nat)
    requires IsRun(c, ss, steps) && Init(ss[0]) && n < |ss|
    ensures Created(ss, n) == |InStatus(ss[n].jobs, Ready)| + |InStatus(ss[n].jobs, Leased)|
                              + |InStatus(ss[n].jobs, Done)| + Cleaned(ss, n)
  {
    SizeLedger(ss, n);
    SplitByStatus(ss[n].jobs);
  }

  // ---------------------------------------------------------------------------------------------------------------
  // Expired leases come back

  /** Nobody leases, renews or completes `r` in this step. */
  ghost predicate Untouched(s: State, step: Step, r: RunId) {
    (forall w, t :: !Grants(s, step, w, r, t)) && forall w :: !Completes(s, step, w, r)
  }

  /** `r` is still leased to `w` up to `until`, or ready again. */
  ghost predicate Waits(s: State, w: string, r: RunId, until: Time) {
    && r in s.jobs && !s.jobs[r].deleted
    && (s.jobs[r].status == Ready || (s.jobs[r].HeldBy(w) && s.jobs[r].expires == Some(Stored(until))))
  }

  lemma WaitsOn(c: Config, s: State, step: Step, w: string, r: RunId, until: Time)
    requires Enabled(c, s, step) && Waits(s, w, r, until) && Untouched(s, step, r)
    ensures Waits(Apply(c, s, step), w, r, until)
  {
    JobStateMachine(c, s, step, r);
    hide Apply, Enabled, Grants, Completes;
  }

  lemma GrantWaits(c: Config, s: State, step: Step, w: string, r: RunId, t: Time)
    requires Enabled(c, s, step) && Shaped(s.jobs) && Grants(s, step, w, r, t)
    ensures Waits(Apply(c, s, step), w, r, t + c.lease)
  {
  }

  lemma {:induction false} WaitsFor(c: Config, ss: seq<State>, steps: seq<Step>, w: string, r: RunId, t: Time, i: nat,
                        k: nat)
    requires IsRun(c, ss, steps) && Init(ss[0]) && i < k < |ss| && Grants(ss[i], steps[i], w, r, t)
    requires forall p :: i < p < k ==> Untouched(ss[p], steps[p], r)
    ensures Waits(ss[k], w, r, t + c.lease)
  {
    hide Apply, Enabled, Grants, Completes, Untouched, Waits;
    assert Enabled(c, ss[k - 1], steps[k - 1]);
    if i + 1 == k {
      ReachableShape(c, ss, steps, i);
      GrantWaits(c, ss[i], steps[i], w, r, t);
    } else {
      WaitsFor(c, ss, steps, w, r, t, i, k - 1);
      WaitsOn(c, ss[k - 1], steps[k - 1], w, r, t + c.lease);
    }
  }

  /** A worker that leases a job and is not heard of again cannot keep it: unless somebody renewed, completed or leased it
      since, the first reclaim after the lease duration leaves it ready, without worker or lease, for any worker of its
      region. */
  lemma ExpiredComesBack(c: Config, ss: seq<State>, steps: seq<Step>, w: string, r: RunId, t: Time, i: nat, k: nat)
    requires IsRun(c, ss, steps) && Init(ss[0]) && i < k < |steps| && Grants(ss[i], steps[i], w, r, t)
    requires forall p :: i < p < k ==> Untouched(ss[p], steps[p], r)
    requires steps[k].ReclaimExpired? && t + c.lease + MICROSECOND <= ss[k].clock
    ensures r in ss[k + 1].jobs
    ensures var j := ss[k + 1].jobs[r];
            && j == NewRow(j.monitor, j.region, j.at)
            && (j.at <= Stored(ss[k].clock) ==> j.Claimable(j.region, ss[k].clock))
  {
    WaitsFor(c, ss, steps, w, r, t, i, k);
    ReachableShape(c, ss, steps, k);
    ReachableShape(c, ss, steps, k + 1);
    StoredMonotone(t + c.lease + MICROSECOND, ss[k].clock);
    assert ss[k + 1] == Apply(c, ss[k], steps[k]);
  }

  // ---------------------------------------------------------------------------------------------------------------
  // Submitting again

  lemma {:induction false} DoneStays(c: Config, ss: seq<State>, steps: seq<Step>, r: RunId, i: nat, k: nat)
    requires IsRun(c, ss, steps) && i <= k < |ss| && IsDone(ss[i], r)
    requires forall p :: i <= p < k ==> !Disappears(ss, p, r)
    ensures IsDone(ss[k], r) && ss[k].jobs[r] == ss[i].jobs[r]
  {
    if i < k {
      DoneStays(c, ss, steps, r, i, k - 1);
      assert Enabled(c, ss[k - 1], steps[k - 1]);
      assert !Disappears(ss, k - 1, r);
      JobStateMachine(c, ss[k - 1], steps[k - 1], r);
    }
  }

  /** After a positive answer for a run, and until the cleaner removes its row, every further submission for that run, by
      any worker, leaves the job table alone and is answered with true when its check is reached. */
  lemma ResubmissionCommits(c: Config, ss: seq<State>, steps: seq<Step>, i: nat, k: nat)
    requires IsRun(c, ss, steps) && Init(ss[0]) && i < k < |steps|
    requires Answer(ss[i], steps[i]) == Some(true)
    requires steps[k].CompleteJob? || steps[k].CheckDone?
    requires steps[i].call in ss[i].inflight
    requires var r := ss[i].inflight[steps[i].call].result.run;
             && steps[k].call in ss[k].inflight && ss[k].inflight[steps[k].call].result.run == r
             && forall p :: i < p < k ==> !Disappears(ss, p, r)
    ensures ss[k + 1].jobs == ss[k].jobs
    ensures steps[k].CheckDone? ==> Answer(ss[k], steps[k]) == Some(true)
    ensures steps[k].CompleteJob? ==> steps[k].call in ss[k + 1].inflight && ss[k + 1].inflight[steps[k].call].missed
  {
    CommittedMeansDone(c, ss, steps, i);
    var r := ss[i].inflight[steps[i].call].result.run;
    DoneStays(c, ss, steps, r, i + 1, k);
    assert Enabled(c, ss[k], steps[k]);
  }

  ghost predicate Holding(results: ResultTable, m: MonitorResult) {
    KeyOf(m) in results && SamePayload(results[KeyOf(m)], RowOf(m))
  }

  lemma StepKeepsPayload(c: Config, s: State, step: Step, m: MonitorResult)
    requires Enabled(c, s, step) && Holding(s.results, m)
    requires step.StoreResult? && KeyOf(step.result) == KeyOf(m) ==> SamePayload(RowOf(step.result), RowOf(m))
    ensures Holding(Apply(c, s, step).results, m)
  {
    if step.StoreResult? && ProcessResult(s.results, step.result).Some? {
      StoreAgain(s.results, step.result);
    }
  }

  lemma {:induction false} PayloadStays(c: Config, ss: seq<State>, steps: seq<Step>, m: MonitorResult, i: nat, k: nat)
    requires IsRun(c, ss, steps) && i < k < |ss|
    requires steps[i].StoreResult? && steps[i].result == m && ProcessResult(ss[i].results, m).Some?
    requires forall p :: i < p < k && steps[p].StoreResult? && KeyOf(steps[p].result) == KeyOf(m)
               ==> SamePayload(RowOf(steps[p].result), RowOf(m))
    ensures Holding(ss[k].results, m)
  {
    assert Enabled(c, ss[k - 1], steps[k - 1]);
    if i + 1 == k {
      StoreAgain(ss[i].results, m);
    } else {
      PayloadStays(c, ss, steps, m, i, k - 1);
      StepKeepsPayload(c, ss[k - 1], steps[k - 1], m);
    }
  }

  /** What is under way was stored, by the step that put it under way. */
  lemma {:induction false} InflightStored(c: Config, ss: seq<State>, steps: seq<Step>, k: nat,
                        call: nat) returns (i: nat)
    requires IsRun(c, ss, steps) && Init(ss[0]) && k < |ss| && call in ss[k].inflight
    ensures var sub := ss[k].inflight[call];
            i < k && steps[i] == StoreResult(call, sub.worker, sub.result) && ProcessResult(ss[i].results, sub.result).Some?
  {
    hide Apply, Enabled, Init;
    EmptyAtFirst(ss[0]);
    assert Enabled(c, ss[k - 1], steps[k - 1]);
    InflightSince(c, ss[k - 1], steps[k - 1], call);
    if call in ss[k - 1].inflight {
      i := InflightStored(c, ss, steps, k - 1, call);
    } else {
      i := k - 1;
    }
  }

  lemma EmptyAtFirst(s: State)
    ensures Init(s) ==> s.inflight == map[]
  {
  }

  lemma InflightSince(c: Config, s: State, step: Step, call: nat)
    requires Enabled(c, s, step) && call in Apply(c, s, step).inflight
    ensures var sub := Apply(c, s, step).inflight[call];
            if call in s.inflight then s.inflight[call].worker == sub.worker && s.inflight[call].result == sub.result
            else step == StoreResult(call, sub.worker, sub.result) && ProcessResult(s.results, sub.result).Some?
  {
  }

  ghost predicate OnlyPayload(steps: seq<Step>, m: MonitorResult, i: nat, k: nat) {
    forall p :: i < p < k && p < |steps| && steps[p].StoreResult? && KeyOf(steps[p].result) == KeyOf(m)
      ==> SamePayload(RowOf(steps[p].result), RowOf(m))
  }

  /** A positive answer follows a store of this very submission, and the results table shows its payload when it is given
      unless another payload was written under its run and event time in between. */
  lemma CommittedHolds(c: Config, ss: seq<State>, steps: seq<Step>, k: nat) returns (i: nat)
    requires IsRun(c, ss, steps) && Init(ss[0]) && k < |steps|
    requires Answer(ss[k], steps[k]) == Some(true)
    ensures (steps[k].CompleteJob? || steps[k].CheckDone?) && steps[k].call in ss[k].inflight
    ensures var sub := ss[k].inflight[steps[k].call];
            && i < k && steps[i] == StoreResult(steps[k].call, sub.worker, sub.result)
            && (OnlyPayload(steps, sub.result, i, k) ==> Holding(ss[k + 1].results, sub.result))
  {
    CommittedMeansDone(c, ss, steps, k);
    hide Apply, Enabled, Answer, Holding, Init;
    var sub := ss[k].inflight[steps[k].call];
    i := InflightStored(c, ss, steps, k, steps[k].call);
    if OnlyPayload(steps, sub.result, i, k) {
      PayloadStays(c, ss, steps, sub.result, i, k + 1);
    }
  }

  /** Storing a result a second time leaves the results table alone, unless another payload was written under the same
      run and event time in between. */
  lemma ResubmissionKeepsResults(c: Config, ss: seq<State>, steps: seq<Step>, i: nat, k: nat)
    requires IsRun(c, ss, steps) && i < k < |steps|
    requires steps[i].StoreResult? && ProcessResult(ss[i].results, steps[i].result).Some?
    requires steps[k].StoreResult? && steps[k].result == steps[i].result
    requires forall p :: i < p < k && steps[p].StoreResult? && KeyOf(steps[p].result) == KeyOf(steps[i].result)
               ==> SamePayload(RowOf(steps[p].result), RowOf(steps[i].result))
    ensures ss[k + 1].results == ss[k].results
  {
    PayloadStays(c, ss, steps, steps[i].result, i, k);
    assert Enabled(c, ss[k], steps[k]);
    StoreAgain(ss[k].results, steps[k].result);
  }
}
