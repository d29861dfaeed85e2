/** How a single job row may change, and that a lease is a promise kept over every run. */
module Leases {
  import opened Wrappers
  import opened Times
  import opened Jobs
  import opened Cadence
  import opened RunIds
  import opened Schedule
  import opened Results
  import opened Protocol

  function RowAt(jobs: Table, r: RunId): Option<Job> {
    if r in jobs then Some(jobs[r]) else None
  }

  /** The step that turns a leased row of `r` into a done one, on behalf of `w`. */
  ghost predicate Completes(s: State, step: Step, w: string, r: RunId) {
    && (step.CompleteJob? || step.CompleteUnanswered?)
    && step.call in s.inflight
    && s.inflight[step.call].worker == w && s.inflight[step.call].result.run == r
    && Owns(s, step.call)
  }

  /** The step leases or renews `r` for `w`, with a handler that read the clock at `t`. */
  ghost predicate Grants(s: State, step: Step, w: string, r: RunId, t: Time) {
    || (step.LeaseJobs? && step.worker == w && step.readAt == t && r in step.chosen)
    || (step.RenewLease? && step.worker == w && step.readAt == t && step.run == r && r in s.jobs && s.jobs[r].HeldBy(w))
  }

  /** Every way a row can appear, change or disappear in one step. */
  ghost predicate RowMoves(c: Config, s: State, step: Step, r: RunId, before: Option<Job>, after: Option<Job>) {
    match (before, after)
    case (None, None) => true
    case (None, Some(k)) =>
      step.ScheduleIteration? && k == NewRow(k.monitor, k.region, k.at) && Stored(s.clock) <= k.at <= Stored(s.clock + LOOK_AHEAD)
    case (Some(j), None) => step.CleanBatch? && j.Cleanable(Stored(s.clock - c.retention))
    case (Some(j), Some(k)) =>
      || k == j
      || (exists w, t :: Grants(s, step, w, r, t) && t <= s.clock
                         && (if step.LeaseJobs? then j.Claimable(step.home, s.clock) else j.HeldBy(w))
                         && k == j.(status := Leased, expires := Some(Stored(t + c.lease)), worker := Some(w)))
      || (exists w :: Completes(s, step, w, r) && j.HeldBy(w) && k == j.(status := Done, expires := None))
      || (step.ReclaimExpired? && j.Expired(s.clock) && k == j.(status := Ready, expires := None, worker := None))
  }

  lemma NewRowStarts(env: Env, monitors: Monitors, due: seq<string>, clock: Time, r: RunId, k: Job)
    requires forall id :: id in due ==> id in monitors && monitors[id].Due(clock)
    requires NewIn(env, r, k, monitors, due, clock)
    ensures k == NewRow(k.monitor, k.region, k.at) && Stored(clock) <= k.at <= Stored(clock + LOOK_AHEAD)
  {
    var id :| id in due && NewFor(env, r, k, id, monitors[id].regions, StartOf(monitors[id], clock));
    var at := StartOf(monitors[id], clock);
    StoredMonotone(clock, at);
    StoredMonotone(at, clock + LOOK_AHEAD);
  }

  lemma IterationRow(env: Env, s: Schedules, u: Schedules, due: seq<string>, clock: Time, r: RunId)
    requires forall id :: id in due ==> id in s.monitors && s.monitors[id].Due(clock)
    requires Moved(env, s, u, due, clock)
    ensures r in s.jobs ==> r in u.jobs && u.jobs[r] == s.jobs[r]
    ensures r in u.jobs && r !in s.jobs ==>
              var k := u.jobs[r];
              k == NewRow(k.monitor, k.region, k.at) && Stored(clock) <= k.at <= Stored(clock + LOOK_AHEAD)
  {
    if r in u.jobs && r !in s.jobs {
      NewRowStarts(env, s.monitors, due, clock, r, u.jobs[r]);
    }
  }

  lemma ScheduledJobs(c: Config, s: State, step: Step)
    requires step.ScheduleIteration? && Enabled(c, s, step)
    ensures forall id :: id in step.due ==> id in s.monitors && s.monitors[id].Due(s.clock)
    ensures var u := ScheduleAll(c.env, Schedules(s.jobs, s.monitors), step.due, s.clock);
            Apply(c, s, step).jobs == if u.Some? then u.value.jobs else s.jobs
  {
    hide ScheduleAll;
  }

  lemma ScheduleRow(c: Config, s: State, step: Step, r: RunId)
    requires step.ScheduleIteration? && Enabled(c, s, step)
    ensures RowMoves(c, s, step, r, RowAt(s.jobs, r), RowAt(Apply(c, s, step).jobs, r))
  {
    hide ScheduleAll, Apply, Enabled, Grants, Completes, Stored;
    ScheduledJobs(c, s, step);
    var before := Schedules(s.jobs, s.monitors);
    var u := ScheduleAll(c.env, before, step.due, s.clock);
    if u.Some? {
      IterationMoves(c.env, before, step.due, s.clock);
      IterationRow(c.env, before, u.value, step.due, s.clock, r);
    }
  }

  lemma GrantRow(c: Config, s: State, step: Step, r: RunId)
    requires (step.LeaseJobs? || step.RenewLease?) && Enabled(c, s, step)
    ensures RowMoves(c, s, step, r, RowAt(s.jobs, r), RowAt(Apply(c, s, step).jobs, r))
  {
    if step.LeaseJobs? {
      if r in step.chosen {
        assert Grants(s, step, step.worker, r, step.readAt);
      }
    } else if step.run == r && r in s.jobs && s.jobs[r].HeldBy(step.worker) {
      assert Grants(s, step, step.worker, r, step.readAt);
    }
  }

  lemma FinishRow(c: Config, s: State, step: Step, r: RunId)
    requires (step.CompleteJob? || step.CompleteUnanswered?) && Enabled(c, s, step)
    ensures RowMoves(c, s, step, r, RowAt(s.jobs, r), RowAt(Apply(c, s, step).jobs, r))
  {
    var sub := s.inflight[step.call];
    if Owns(s, step.call) && sub.result.run == r {
      assert Completes(s, step, sub.worker, r);
    }
  }

  lemma CleanRow(c: Config, s: State, step: Step, r: RunId)
    requires step.CleanBatch? && Enabled(c, s, step)
    ensures RowMoves(c, s, step, r, RowAt(s.jobs, r), RowAt(Apply(c, s, step).jobs, r))
  {
    StoredMonotone(step.readAt - c.retention, s.clock - c.retention);
  }

  /** The protocol's polls are those that lease the best open rows, at the lease duration after the handler's reading. */
  lemma LeaseStepIff(c: Config, s: State, w: string, home: string, limit: nat, readAt: Time, skipped: set<RunId>,
                     chosen: set<RunId>)
    requires readAt <= s.clock
    ensures var step := LeaseJobs(w, home, limit, readAt, skipped, chosen);
            && (Enabled(c, s, step) <==> BestOpen(s.jobs, home, s.clock, skipped, limit, chosen))
            && (Enabled(c, s, step) ==> Apply(c, s, step) == s.(jobs := LeaseRows(s.jobs, chosen, w, Stored(readAt + c.lease))))
  {
    ClaimedAreBest(s.jobs, home, s.clock, skipped, limit, chosen);
    hide IsFirst, ClaimRanks, BestOpen;
  }

  /** The job state machine: ready, leased, done, and back to ready only from an expired lease; nothing but a done row
      past the retention period disappears. */
  lemma JobStateMachine(c: Config, s: State, step: Step, r: RunId)
    requires Enabled(c, s, step)
    ensures RowMoves(c, s, step, r, RowAt(s.jobs, r), RowAt(Apply(c, s, step).jobs, r))
  {
    match step
    case ScheduleIteration(_, _) => ScheduleRow(c, s, step, r);
    case LeaseJobs(_, _, _, _, _, _) => GrantRow(c, s, step, r);
    case RenewLease(_, _, _) => GrantRow(c, s, step, r);
    case CompleteJob(_) => FinishRow(c, s, step, r);
    case CompleteUnanswered(_) => FinishRow(c, s, step, r);
    case CleanBatch(_, _, _) => CleanRow(c, s, step, r);
    case _ =>
  }

  /** What no step changes: only the scheduler makes rows, and a row keeps its monitor, region and time. */
  lemma RowKeepsPlace(c: Config, s: State, step: Step, r: RunId)
    requires Enabled(c, s, step) && r in Apply(c, s, step).jobs && (r in s.jobs || !step.ScheduleIteration?)
    ensures r in s.jobs
    ensures var j, k := s.jobs[r], Apply(c, s, step).jobs[r];
            k.monitor == j.monitor && k.region == j.region && k.at == j.at && (k.Active() ==> j.Active())
  {
    JobStateMachine(c, s, step, r);
    hide Apply, Enabled, Grants, Completes;
  }

  // ---------------------------------------------------------------------------------------------------------------
  // Lease safety

  lemma {:induction false} ClockMonotone(c: Config, ss: seq<State>, steps: seq<Step>, i: nat, k: nat)
    requires IsRun(c, ss, steps) && i <= k < |ss|
    ensures ss[i].clock <= ss[k].clock
  {
    if i < k {
      ClockMonotone(c, ss, steps, i, k - 1);
      assert Enabled(c, ss[k - 1], steps[k - 1]);
    }
  }

  /** `r` is leased to `w` and nobody may reclaim it up to `until`. */
  ghost predicate Holds(s: State, w: string, r: RunId, until: Time) {
    r in s.jobs && s.jobs[r].HeldBy(w) && s.jobs[r].expires.Some? && Stored(until) <= s.jobs[r].expires.value
  }

  ghost predicate CompletedBetween(ss: seq<State>, steps: seq<Step>, w: string, r: RunId, i: nat, k: nat) {
    exists p :: i <= p < k && p < |steps| && p < |ss| && Completes(ss[p], steps[p], w, r)
  }

  predicate Renews(step: Step, w: string, r: RunId) {
    step.RenewLease? && step.worker == w && step.run == r
  }

  /** The renewal writes an expiry that is not before what a grant at `t` promised, as the column holds both. */
  predicate NotEarlier(c: Config, step: Step, t: Time)
    requires step.RenewLease?
  {
    Stored(t + c.lease) <= Stored(step.readAt + c.lease)
  }

  /** Until the job is completed, no renewal of it by `w` writes an earlier expiry than a grant at `t` promised. */
  ghost predicate NoneEarlier(c: Config, ss: seq<State>, steps: seq<Step>, w: string, r: RunId, t: Time, i: nat,
                        k: nat) {
    forall p: nat {:trigger steps[p]} :: i < p < k && p < |steps| && Renews(steps[p], w, r) ==>
      CompletedBetween(ss, steps, w, r, i, p) || NotEarlier(c, steps[p], t)
  }

  lemma GrantHolds(c: Config, s: State, step: Step, w: string, r: RunId, t: Time)
    requires Enabled(c, s, step) && Grants(s, step, w, r, t)
    ensures Holds(Apply(c, s, step), w, r, t + c.lease)
  {
  }

  lemma HoldKept(c: Config, s: State, step: Step, w: string, r: RunId, t: Time)
    requires Enabled(c, s, step) && Holds(s, w, r, t + c.lease) && s.clock <= t + c.lease
    requires Renews(step, w, r) ==> NotEarlier(c, step, t)
    ensures Holds(Apply(c, s, step), w, r, t + c.lease) || Completes(s, step, w, r)
  {
    JobStateMachine(c, s, step, r);
    StoredMonotone(s.clock, t + c.lease);
  }

  lemma CompletedLater(ss: seq<State>, steps: seq<Step>, w: string, r: RunId, i: nat, k: nat)
    requires CompletedBetween(ss, steps, w, r, i, k)
    ensures CompletedBetween(ss, steps, w, r, i, k + 1)
  {
    var p :| i <= p < k && p < |steps| && p < |ss| && Completes(ss[p], steps[p], w, r);
    assert i <= p < k + 1 && Completes(ss[p], steps[p], w, r);
  }

  /** Lease safety: from a lease or renewal handled at `t`, the job stays leased to that worker until `t` plus the lease
      duration, or that worker has completed it, whatever everybody else does meanwhile and however late handlers run,
      unless a renewal by the worker itself writes an earlier expiry. */
  lemma {:induction false} LeaseSafety(c: Config, ss: seq<State>, steps: seq<Step>, w: string, r: RunId, t: Time,
                       i: nat, k: nat)
    requires IsRun(c, ss, steps) && i < k < |ss|
    requires Grants(ss[i], steps[i], w, r, t)
    requires NoneEarlier(c, ss, steps, w, r, t, i, k)
    requires ss[k].clock <= t + c.lease
    ensures Holds(ss[k], w, r, t + c.lease) || CompletedBetween(ss, steps, w, r, i, k)
  {
    hide Apply, Enabled, Grants, Completes, Holds, CompletedBetween, NotEarlier, Renews;
    assert Enabled(c, ss[k - 1], steps[k - 1]);
    if i + 1 == k {
      GrantHolds(c, ss[i], steps[i], w, r, t);
    } else {
      ClockMonotone(c, ss, steps, k - 1, k);
      LeaseSafety(c, ss, steps, w, r, t, i, k - 1);
      if CompletedBetween(ss, steps, w, r, i, k - 1) {
        CompletedLater(ss, steps, w, r, i, k - 1);
      } else {
        HoldKept(c, ss[k - 1], steps[k - 1], w, r, t);
        if Completes(ss[k - 1], steps[k - 1], w, r) {
          CompletedNow(ss, steps, w, r, i, k - 1);
        }
      }
    }
  }

  lemma CompletedNow(ss: seq<State>, steps: seq<Step>, w: string, r: RunId, i: nat, k: nat)
    requires i <= k && k < |steps| && k < |ss| && Completes(ss[k], steps[k], w, r)
    ensures CompletedBetween(ss, steps, w, r, i, k + 1)
  {
  }

  /** A renewal keeps what an earlier grant promised exactly when it does not write an earlier expiry: the statement does not
      compare. */
  lemma RenewalKeepsPromiseIff(c: Config, s: State, step: Step, w: string, r: RunId, until: Time)
    requires Enabled(c, s, step) && Renews(step, w, r)
    requires Holds(s, w, r, until)
    ensures Holds(Apply(c, s, step), w, r, until) <==> Stored(until) <= Stored(step.readAt + c.lease)
  {
  }

  /** Up to state `k` the job is always leased to the worker, at least until `t` plus the lease duration, or completed. */
  ghost predicate PromiseKept(c: Config, ss: seq<State>, steps: seq<Step>, w: string, r: RunId, t: Time, i: nat,
                        k: nat) {
    forall j: nat {:trigger ss[j]} :: i < j <= k && j < |ss| ==>
      Holds(ss[j], w, r, t + c.lease) || CompletedBetween(ss, steps, w, r, i, j)
  }

  lemma KeptMeansNotEarlier(c: Config, ss: seq<State>, steps: seq<Step>, w: string, r: RunId, t: Time, i: nat, k: nat,
                        p: nat)
    requires IsRun(c, ss, steps) && i < p < k < |ss| && Renews(steps[p], w, r)
    requires PromiseKept(c, ss, steps, w, r, t, i, k)
    ensures CompletedBetween(ss, steps, w, r, i, p) || NotEarlier(c, steps[p], t)
  {
    assert Enabled(c, ss[p], steps[p]);
    assert Holds(ss[p], w, r, t + c.lease) || CompletedBetween(ss, steps, w, r, i, p);
    assert Holds(ss[p + 1], w, r, t + c.lease) || CompletedBetween(ss, steps, w, r, i, p + 1);
    if !CompletedBetween(ss, steps, w, r, i, p) {
      NotCompletedNow(ss, steps, w, r, i, p);
      RenewalKeepsPromiseIff(c, ss[p], steps[p], w, r, t + c.lease);
    }
  }

  lemma NotCompletedNow(ss: seq<State>, steps: seq<Step>, w: string, r: RunId, i: nat, p: nat)
    requires i <= p && p < |steps| && steps[p].RenewLease? && !CompletedBetween(ss, steps, w, r, i, p)
    ensures !CompletedBetween(ss, steps, w, r, i, p + 1)
  {
  }

  /** Over every run the promise of a lease or renewal handled at `t` is kept exactly when no renewal by the same worker,
      before it completes the job, writes an earlier expiry. Nobody else can break it. */
  lemma PromiseKeptIff(c: Config, ss: seq<State>, steps: seq<Step>, w: string, r: RunId, t: Time, i: nat, k: nat)
    requires IsRun(c, ss, steps) && i < k < |ss| && Grants(ss[i], steps[i], w, r, t) && ss[k].clock <= t + c.lease
    ensures PromiseKept(c, ss, steps, w, r, t, i, k) <==> NoneEarlier(c, ss, steps, w, r, t, i, k)
  {
    hide Apply, Enabled, Grants, Completes, Holds, CompletedBetween, NotEarlier;
    if NoneEarlier(c, ss, steps, w, r, t, i, k) {
      forall j: nat {:trigger ss[j]} | i < j <= k && j < |ss|
        ensures Holds(ss[j], w, r, t + c.lease) || CompletedBetween(ss, steps, w, r, i, j)
      {
        ClockMonotone(c, ss, steps, j, k);
        LeaseSafety(c, ss, steps, w, r, t, i, j);
      }
    }
    if PromiseKept(c, ss, steps, w, r, t, i, k) {
      forall p: nat {:trigger steps[p]} | i < p < k && p < |steps| && Renews(steps[p], w, r)
        ensures CompletedBetween(ss, steps, w, r, i, p) || NotEarlier(c, steps[p], t)
      {
        KeptMeansNotEarlier(c, ss, steps, w, r, t, i, k, p);
      }
    }
  }

  /** The worker's renewals of the job read the clock as their statement runs; everybody else's handlers may be late. */
  ghost predicate Prompt(ss: seq<State>, steps: seq<Step>, w: string, r: RunId) {
    forall p {:trigger steps[p]} :: 0 <= p < |steps| && p < |ss| && Renews(steps[p], w, r) ==> steps[p].readAt == ss[p].clock
  }

  lemma PromptLeaseSafety(c: Config, ss: seq<State>, steps: seq<Step>, w: string, r: RunId, t: Time, i: nat, k: nat)
    requires IsRun(c, ss, steps) && Prompt(ss, steps, w, r) && i < k < |ss|
    requires Grants(ss[i], steps[i], w, r, t)
    requires ss[k].clock <= t + c.lease
    ensures Holds(ss[k], w, r, t + c.lease) || CompletedBetween(ss, steps, w, r, i, k)
  {
    GrantRead(c, ss[i], steps[i], w, r, t);
    forall p: nat {:trigger steps[p]} | i < p < k && p < |steps| && Renews(steps[p], w, r)
      ensures NotEarlier(c, steps[p], t)
    {
      ClockMonotone(c, ss, steps, i, p);
      StoredMonotone(t + c.lease, steps[p].readAt + c.lease);
    }
    hide Apply, Enabled, Grants, Completes, Holds, CompletedBetween;
    LeaseSafety(c, ss, steps, w, r, t, i, k);
  }

  lemma GrantRead(c: Config, s: State, step: Step, w: string, r: RunId, t: Time)
    requires Enabled(c, s, step) && Grants(s, step, w, r, t)
    ensures t <= s.clock
  {
  }

  // ---------------------------------------------------------------------------------------------------------------
  // Leasing twice

  ghost predicate TakenBack(s: State, step: Step, r: RunId) {
    || (step.ReclaimExpired? && r in s.jobs && s.jobs[r].Expired(s.clock))
    || (step.CleanBatch? && r in step.chosen)
  }

  /** Once leased, a row is not ready again before a reclaim (or before the cleaner has removed it and the scheduler has
      made a new row of the same id). */
  lemma {:induction false} NotReadyAgain(c: Config, ss: seq<State>, steps: seq<Step>, r: RunId, i: nat, k: nat)
    requires IsRun(c, ss, steps) && i < k < |ss|
    requires steps[i].LeaseJobs? && r in steps[i].chosen
    requires forall p :: i < p < k ==> !TakenBack(ss[p], steps[p], r)
    ensures r in ss[k].jobs && ss[k].jobs[r].status != Ready
  {
    hide Apply, Enabled, TakenBack;
    assert Enabled(c, ss[k - 1], steps[k - 1]);
    if i + 1 < k {
      NotReadyAgain(c, ss, steps, r, i, k - 1);
      StaysTaken(c, ss[k - 1], steps[k - 1], r);
    } else {
      LeasedNow(c, ss[i], steps[i], r);
    }
  }

  lemma LeasedNow(c: Config, s: State, step: Step, r: RunId)
    requires Enabled(c, s, step) && step.LeaseJobs? && r in step.chosen
    ensures r in Apply(c, s, step).jobs && Apply(c, s, step).jobs[r].status == Leased
  {
  }

  lemma StaysTaken(c: Config, s: State, step: Step, r: RunId)
    requires Enabled(c, s, step) && !TakenBack(s, step, r) && r in s.jobs && s.jobs[r].status != Ready
    ensures r in Apply(c, s, step).jobs && Apply(c, s, step).jobs[r].status != Ready
  {
    JobStateMachine(c, s, step, r);
  }

  /** Two polls never lease the same row unless it was taken back between them. */
  lemma LeasedTwice(c: Config, ss: seq<State>, steps: seq<Step>, r: RunId, i: nat, k: nat)
    requires IsRun(c, ss, steps) && i < k < |steps|
    requires steps[i].LeaseJobs? && r in steps[i].chosen && steps[k].LeaseJobs? && r in steps[k].chosen
    ensures exists p :: i < p < k && TakenBack(ss[p], steps[p], r)
  {
    assert Enabled(c, ss[k], steps[k]);
    if forall p :: i < p < k ==> !TakenBack(ss[p], steps[p], r) {
      NotReadyAgain(c, ss, steps, r, i, k);
    }
  }
}
