/** The run that breaks a lease: two renewals of one worker that the server runs in the wrong order. */
module StaleRenewals {
  import opened Wrappers
  import opened Times
  import opened Jobs
  import opened RunIds
  import opened Schedule
  import opened Protocol
  import opened Leases
  import opened Pace
  import opened Losses
  import Regions

  function FirstRun(c: Config): RunId {
    GenerateRunId(c.env, ONLY, Regions.GLOBAL, 0)
  }

  function LeasedUntil(w: string, until: Time): Job {
    Job(ONLY, Regions.GLOBAL, Leased, 0, Some(Stored(until)), Some(w), false)
  }

  ghost function Scheduled(c: Config): Monitors {
    map[ONLY := Advanced(c.env, ONLY, Fresh(60000, Regions.GLOBAL), 0)]
  }

  ghost function WithRow(c: Config, clock: Time, row: Job): State {
    OneJob(clock, FirstRun(c), row, Scheduled(c))
  }

  lemma LeaseOnlyJob(c: Config, w: string)
    ensures var step := LeaseJobs(w, Regions.GLOBAL, 1, 0, {}, {FirstRun(c)});
            var s := WithRow(c, 0, NewRow(ONLY, Regions.GLOBAL, 0));
            Enabled(c, s, step) && Apply(c, s, step) == WithRow(c, 0, LeasedUntil(w, c.lease))
  {
    var ranks := ClaimRanks(WithRow(c, 0, NewRow(ONLY, Regions.GLOBAL, 0)).jobs, Regions.GLOBAL, 0, {});
    hide GenerateRunId, Advanced;
    assert ranks == map[FirstRun(c) := Rank(0, 0)];
  }

  lemma RenewOnlyJob(c: Config, w: string, clock: Time, until: Time, readAt: Time)
    requires readAt <= clock
    ensures var step := RenewLease(w, FirstRun(c), readAt);
            var s := WithRow(c, clock, LeasedUntil(w, until));
            && Enabled(c, s, step) && Apply(c, s, step) == WithRow(c, clock, LeasedUntil(w, readAt + c.lease))
            && Grants(s, step, w, FirstRun(c), readAt)
  {
    hide GenerateRunId, Advanced;
  }

  lemma ReclaimOnlyJob(c: Config, w: string, clock: Time, until: Time)
    requires Stored(until) < Stored(clock)
    ensures var s := WithRow(c, clock, LeasedUntil(w, until));
            && Enabled(c, s, ReclaimExpired)
            && Apply(c, s, ReclaimExpired) == WithRow(c, clock, NewRow(ONLY, Regions.GLOBAL, 0))
  {
    hide GenerateRunId, Advanced;
  }

  lemma TickOnlyJob(c: Config, row: Job, clock: Time, to: Time)
    requires clock <= to
    ensures Enabled(c, WithRow(c, clock, row), Tick(to)) && Apply(c, WithRow(c, clock, row), Tick(to)) == WithRow(c, to, row)
  {
  }

  /** Create a monitor, schedule its first job, lease it. */
  lemma UpToLease(c: Config, w: string) returns (ss: seq<State>, steps: seq<Step>)
    ensures IsRun(c, ss, steps) && |steps| == 3 && |ss| == 4 && Init(ss[0]) && ss[3] == WithRow(c, 0, LeasedUntil(w, c.lease))
    ensures forall p :: 0 <= p < 3 ==> !steps[p].CompleteJob? && !steps[p].CompleteUnanswered?
  {
    hide Apply, Enabled, IsRun, GenerateRunId, Advanced, Regions.Normal, NewRow, LeasedUntil, Fresh;
    GlobalIsStored();
    Created(c, Empty(), ONLY, 60000, Regions.GLOBAL);
    AloneStart(c, ONLY, 60000, Regions.GLOBAL);
    LeaseOnlyJob(c, w);
    Begin(c, Empty());
    ss, steps := OneMore(c, [Empty()], [], CreateMonitor(ONLY, 60000, [Regions.GLOBAL], true), Alone(ONLY, Fresh(60000, Regions.GLOBAL)));
    ss, steps := OneMore(c, ss, steps, ScheduleIteration({}, [ONLY]), WithRow(c, 0, NewRow(ONLY, Regions.GLOBAL, 0)));
    ss, steps := OneMore(c, ss, steps, LeaseJobs(w, Regions.GLOBAL, 1, 0, {}, {FirstRun(c)}), WithRow(c, 0, LeasedUntil(w, c.lease)));
  }

  /** Then two renewals, the later one with the older reading. */
  lemma UpToStale(c: Config, w: string) returns (ss: seq<State>, steps: seq<Step>)
    ensures IsRun(c, ss, steps) && |steps| == 6 && |ss| == 7 && Init(ss[0]) && ss[6] == WithRow(c, MILLISECOND, LeasedUntil(w, c.lease))
    ensures Grants(ss[4], steps[4], w, FirstRun(c), MILLISECOND)
    ensures forall p :: 0 <= p < 6 ==> !steps[p].CompleteJob? && !steps[p].CompleteUnanswered?
  {
    var ms, r := MILLISECOND, FirstRun(c);
    hide Apply, Enabled, IsRun, Grants, FirstRun, LeasedUntil, Scheduled, Stored, WithRow;
    var early, late := LeasedUntil(w, c.lease), LeasedUntil(w, ms + c.lease);
    ss, steps := UpToLease(c, w);
    TickOnlyJob(c, early, 0, ms);
    RenewOnlyJob(c, w, ms, c.lease, ms);
    RenewOnlyJob(c, w, ms, ms + c.lease, 0);
    ss, steps := OneMore(c, ss, steps, Tick(ms), WithRow(c, ms, early));
    ss, steps := OneMore(c, ss, steps, RenewLease(w, r, ms), WithRow(c, ms, late));
    ss, steps := OneMore(c, ss, steps, RenewLease(w, r, 0), WithRow(c, ms, early));
  }

  lemma ReadyAgain(c: Config, clock: Time)
    ensures var s := WithRow(c, clock, NewRow(ONLY, Regions.GLOBAL, 0));
            s.clock == clock && FirstRun(c) in s.jobs && s.jobs[FirstRun(c)].status == Ready
  {
    hide FirstRun;
  }

  /** From empty tables, for every lease duration and worker: a renewal is granted at step 4, an older one of the same worker
      runs after it, and the reaper has taken the job at the promised time, with nobody having completed it. */
  lemma StaleRenewalBreaksPromise(c: Config, w: string) returns (ss: seq<State>, steps: seq<Step>)
    requires 0 < c.lease
    ensures IsRun(c, ss, steps) && Init(ss[0]) && |steps| == 8
    ensures Grants(ss[4], steps[4], w, FirstRun(c), MILLISECOND) && ss[8].clock == MILLISECOND + c.lease
    ensures FirstRun(c) in ss[8].jobs && ss[8].jobs[FirstRun(c)].status == Ready
    ensures forall p :: 0 <= p < 8 ==> !steps[p].CompleteJob? && !steps[p].CompleteUnanswered?
  {
    var ms, end := MILLISECOND, MILLISECOND + c.lease;
    StoredMonotone(c.lease + MICROSECOND, end);
    assert Stored(c.lease) < Stored(end);
    hide Apply, Enabled, IsRun, Grants, FirstRun, LeasedUntil, Scheduled, Stored, WithRow;
    var early := LeasedUntil(w, c.lease);
    ss, steps := UpToStale(c, w);
    TickOnlyJob(c, early, ms, end);
    ReclaimOnlyJob(c, w, end, c.lease);
    ss, steps := OneMore(c, ss, steps, Tick(end), WithRow(c, end, early));
    ss, steps := OneMore(c, ss, steps, ReclaimExpired, WithRow(c, end, NewRow(ONLY, Regions.GLOBAL, 0)));
    ReadyAgain(c, end);
  }
}
