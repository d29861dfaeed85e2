/** The worker service's handlers as they are written, proved to be runs of the protocol's steps. */
module WorkerApi {
  import opened Wrappers
  import opened Times
  import opened Jobs
  import opened Schedule
  import opened Results
  import opened Protocol
  import opened Database
  import opened Heartbeat
  import W = Workers

  datatype PollReply = NoSuchWorker | PollFailed | Given(runs: set<RunId>)

  const DEFAULT_LEASE: Time := 45 * SECOND

  function LeaseDuration(configured: Time): (lease: Time)
    ensures lease > 0
  {
    if configured <= 0 then DEFAULT_LEASE else configured
  }

  /** The steps take the tables from `s` to `t`, and the last one gives the answer. */
  ghost predicate Ran(c: Config, s: State, steps: seq<Step>, ss: seq<State>, t: State, committed: bool) {
    && Protocol.IsRun(c, ss, steps) && steps != [] && ss[0] == s && ss[|steps|] == t
    && Answer(ss[|steps| - 1], steps[|steps| - 1]) == Some(committed)
  }

  class WorkerService {
    const store: Store
    const registry: W.Registry
    const tracker: HeartbeatTracker
    const leaseDuration: Time

    constructor (store: Store, registry: W.Registry, leaseDuration: Time, heartbeatMinInterval: Time)
      ensures this.store == store && this.registry == registry
      ensures this.leaseDuration == if leaseDuration <= 0 then 45 * SECOND else leaseDuration
      ensures fresh(tracker) && tracker.lastSeen == map[]
      ensures tracker.interval == if heartbeatMinInterval <= 0 then 15 * SECOND else heartbeatMinInterval
    {
      this.store, this.registry := store, registry;
      this.leaseDuration := LeaseDuration(leaseDuration);
      tracker := new HeartbeatTracker(Heartbeat.Interval(heartbeatMinInterval));
    }

    /** The tables as a protocol state without pending submissions. */
    ghost function Tables(clock: Time): State
      reads store
    {
      State(clock, store.jobs, store.monitors, store.results, map[])
    }

    ghost predicate Serves(c: Config) {
      c.lease == leaseDuration
    }

    method TouchWorkerHeartbeat(worker: string, clock: Time, write: W.Write)
      modifies tracker, registry
      ensures var p := Touched(tracker.interval, Pulse(old(tracker.lastSeen), old(registry.workers), map[]), worker, clock, write);
              tracker.lastSeen == p.seen && registry.workers == p.workers
      ensures registry.workers.Keys == old(registry.workers.Keys)
      ensures forall id :: id in registry.workers ==> registry.workers[id].region == old(registry.workers)[id].region
    {
      var due := tracker.ShouldUpdate(worker, clock);
      if !due {
        return;
      }
      var ok := registry.UpdateWorkerHeartbeat(worker, clock, write);
      if !ok {
        tracker.Invalidate(worker);
      }
    }

    /** `found` is whether the lookup of the worker reaches the table; any failure of it is answered alike. `readAt` is the
        handler's reading of the clock. The second result names the rows leased, returned or not. */
    method GetJobs(ghost c: Config, worker: string, maxJobs: int, readAt: Time, clock: Time, skipped: set<RunId>,
                   beat: W.Write, found: bool, lease: W.Write) returns (reply: PollReply, leased: set<RunId>)
      requires Serves(c) && readAt <= clock
      modifies store`jobs, registry, tracker
      ensures reply == NoSuchWorker <==> !found || worker !in old(registry.workers)
      ensures reply == NoSuchWorker ==> Tables(clock) == old(Tables(clock))
      ensures found && worker in old(registry.workers) && lease.Refused? ==>
                reply == PollFailed && leased == {} && Tables(clock) == old(Tables(clock))
      ensures found && worker in old(registry.workers) && !lease.Refused? ==>
                var limit := if maxJobs <= 0 then 1 else maxJobs;
                var step := LeaseJobs(worker, old(registry.workers)[worker].region, limit, readAt, skipped, leased);
                && Enabled(c, old(Tables(clock)), step)
                && Tables(clock) == Apply(c, old(Tables(clock)), step)
                && reply == if lease.Unacked? then PollFailed else Given(Polled(old(Tables(clock)), step))
    {
      hide IsFirst, ClaimRanks, LeaseRows, Touched, Apply, Enabled, Polled;
      leased := {};
      TouchWorkerHeartbeat(worker, clock, beat);
      if !found {
        return NoSuchWorker, {};
      }
      var row := registry.GetWorkerByID(worker);
      if row.None? {
        return NoSuchWorker, {};
      }
      var limit := if maxJobs <= 0 then 1 else maxJobs;
      if lease.Refused? {
        return PollFailed, {};
      }
      ghost var s := Tables(clock);
      var runs;
      runs, leased := store.LeaseJobsWithMonitorData(worker, limit, row.value.region, readAt + leaseDuration, clock, skipped);
      reply := if lease.Unacked? then PollFailed else Given(runs);
      LeaseIsStep(c, s, worker, row.value.region, limit, readAt, skipped, leased);
    }

    method RenewLease(ghost c: Config, worker: string, run: RunId, readAt: Time, clock: Time, beat: W.Write,
                      write: W.Write)
      returns (renewed: bool)
      requires Serves(c) && readAt <= clock
      modifies store`jobs, registry, tracker
      ensures Tables(clock) == if write.Refused? then old(Tables(clock))
                               else Apply(c, old(Tables(clock)), Step.RenewLease(worker, run, readAt))
      ensures renewed <==> write.Done? && run in old(store.jobs) && old(store.jobs)[run].HeldBy(worker)
    {
      TouchWorkerHeartbeat(worker, clock, beat);
      if write.Refused? {
        return false;
      }
      var found := store.RenewLease(run, worker, readAt + leaseDuration);
      return found && write.Done?;
    }

    /** The three statements of a submission, here with nothing in between; None is a request without a result. */
    method SubmitResult(ghost c: Config, worker: string, result: Option<MonitorResult>, clock: Time,
                        beat: W.Write, upsert: W.Write, complete: W.Write, checked: bool)
      returns (committed: Option<bool>, ghost steps: seq<Step>, ghost ss: seq<State>)
      modifies store, registry, tracker
      ensures committed.None? <==> result.None?
      ensures committed.None? || (upsert.Refused? && committed == Some(false)) ==> Tables(clock) == old(Tables(clock))
      ensures result.Some? && !upsert.Refused? ==>
                Ran(c, old(Tables(clock)), steps, ss, Tables(clock), committed.value)
      ensures result.Some? && !upsert.Refused? && result.value.status in {"OK", "FAIL", "ERROR"} ==>
                var m, was := result.value, old(store.jobs);
                var held := m.run in was && was[m.run].status == Leased && was[m.run].worker == Some(worker);
                && ProcessResult(old(store.results), m) == Some(store.results)
                && store.jobs == (if held && upsert.Done? && !complete.Refused?
                                  then was[m.run := was[m.run].(status := Done, expires := None)] else was)
                && (committed == Some(true) <==>
                    upsert.Done? && complete.Done? && (held || (checked && m.run in was && was[m.run].status == Done)))
      ensures result.Some? && result.value.status !in {"OK", "FAIL", "ERROR"} ==>
                committed == Some(false) && store.jobs == old(store.jobs) && store.results == old(store.results)
    {
      if result.Some? {
        StoredIffKnown(store.results, result.value);
      }
      steps, ss := [], [Tables(clock)];
      TouchWorkerHeartbeat(worker, clock, beat);
      if result.None? {
        return None, steps, ss;
      }
      if upsert.Refused? {
        return Some(false), steps, ss;
      }
      ghost var s0 := Tables(clock);
      var stored := store.UpsertResult(result.value);
      ghost var first := StoreResult(0, worker, result.value);
      Begin(c, s0);
      Extend(c, [s0], [], first, Apply(c, s0, first));
      steps, ss := [first], [s0, Apply(c, s0, first)];
      if !stored {
        return Some(false), steps, ss;
      }
      assert ss[1] == Pending(Tables(clock), Submission(worker, result.value, false));
      if upsert.Unacked? {
        steps, ss := Close(c, steps, ss, FailSubmit(0), false, Tables(clock));
        return Some(false), steps, ss;
      }
      var ok;
      ok, steps, ss := CompleteJob(c, worker, result.value.run, result.value, clock, complete, checked, steps, ss);
      return Some(ok), steps, ss;
    }

    /** Complete the row the worker holds, and when there is none, look whether the run is already done. */
    method CompleteJob(ghost c: Config, worker: string, run: RunId, ghost result: MonitorResult, clock: Time,
                       complete: W.Write, checked: bool, ghost steps: seq<Step>, ghost ss: seq<State>)
      returns (ok: bool, ghost steps': seq<Step>, ghost ss': seq<State>)
      requires result.run == run && Protocol.IsRun(c, ss, steps)
      requires ss[|steps|] == Pending(Tables(clock), Submission(worker, result, false))
      modifies store`jobs
      ensures Ran(c, ss[0], steps', ss', Tables(clock), ok)
      ensures var was := old(store.jobs);
              var held := run in was && was[run].status == Leased && was[run].worker == Some(worker);
              && store.jobs == (if held && !complete.Refused?
                                then was[run := was[run].(status := Done, expires := None)] else was)
              && (ok <==> complete.Done? && (held || (checked && run in was && was[run].status == Done)))
    {
      CompletedColumns(store.jobs, run, worker);
      assert |ss| == |steps| + 1;
      hide IsRun, Ran, Apply, Enabled, Answer, Pending, Owns, CompleteRow;
      ghost var s, sub := Tables(clock), Submission(worker, result, false);
      Abandoned(c, s, sub);
      if complete.Refused? {
        steps', ss' := Close(c, steps, ss, FailSubmit(0), false, s);
        return false, steps', ss';
      }
      Completing(c, s, sub);
      var found := store.CompleteJob(run, worker);
      if complete.Unacked? {
        steps', ss' := Close(c, steps, ss, CompleteUnanswered(0), false, Tables(clock));
        return false, steps', ss';
      }
      if found {
        steps', ss' := Close(c, steps, ss, Step.CompleteJob(0), true, Tables(clock));
        return true, steps', ss';
      }
      ghost var missed := sub.(missed := true);
      ss', steps' := Protocol.OneMore(c, ss, steps, Step.CompleteJob(0), Pending(s, missed));
      Abandoned(c, s, missed);
      if !checked {
        steps', ss' := Close(c, steps', ss', FailSubmit(0), false, Tables(clock));
        return false, steps', ss';
      }
      Checking(c, s, missed);
      var job := store.GetJobByRunID(run);
      ok := job.Some? && job.value.status == Done;
      steps', ss' := Close(c, steps', ss', CheckDone(0), ok, Tables(clock));
    }
  }

  lemma CompletedColumns(jobs: Table, run: RunId, worker: string)
    ensures CompleteRow(jobs, run, worker) ==
            if run in jobs && jobs[run].status == Leased && jobs[run].worker == Some(worker)
            then jobs[run := jobs[run].(status := Done, expires := None)] else jobs
  {
  }

  /** The tables while this one submission is under way. */
  function Pending(s: State, p: Submission): State {
    s.(inflight := map[0 := p])
  }

  lemma Abandoned(c: Config, s: State, sub: Submission)
    requires s.inflight == map[]
    ensures var p := Pending(s, sub);
            && p.inflight.Keys == {0} && Enabled(c, p, FailSubmit(0)) && Answer(p, FailSubmit(0)) == Some(false)
            && Apply(c, p, FailSubmit(0)).(inflight := map[]) == s
  {
  }

  /** What the completing update makes of the tables, with and without its answer, and when it finds no row. */
  lemma Completing(c: Config, s: State, sub: Submission)
    requires s.inflight == map[] && !sub.missed
    ensures var p, run := Pending(s, sub), sub.result.run;
            var held := run in s.jobs && s.jobs[run].HeldBy(sub.worker);
            var after := s.(jobs := CompleteRow(s.jobs, run, sub.worker));
            && Enabled(c, p, CompleteUnanswered(0)) && Answer(p, CompleteUnanswered(0)) == Some(false)
            && Apply(c, p, CompleteUnanswered(0)).(inflight := map[]) == after
            && Enabled(c, p, Step.CompleteJob(0))
            && (held ==> Answer(p, Step.CompleteJob(0)) == Some(true) && Apply(c, p, Step.CompleteJob(0)).(inflight := map[]) == after)
            && (!held ==> after == s && Apply(c, p, Step.CompleteJob(0)) == Pending(s, sub.(missed := true)))
  {
  }

  lemma Checking(c: Config, s: State, sub: Submission)
    requires s.inflight == map[] && sub.missed
    ensures var p, run := Pending(s, sub), sub.result.run;
            && Enabled(c, p, CheckDone(0)) && Apply(c, p, CheckDone(0)).(inflight := map[]) == s
            && Answer(p, CheckDone(0)) == Some(run in s.jobs && s.jobs[run].status == Done)
  {
  }

  lemma LeaseIsStep(c: Config, s: State, worker: string, home: string, limit: nat, readAt: Time, skipped: set<RunId>,
                    chosen: set<RunId>)
    requires readAt <= s.clock && IsFirst(ClaimRanks(s.jobs, home, s.clock, skipped), limit, chosen)
    ensures chosen <= s.jobs.Keys
    ensures var step := LeaseJobs(worker, home, limit, readAt, skipped, chosen);
            && Enabled(c, s, step)
            && Apply(c, s, step) == s.(jobs := LeaseRows(s.jobs, chosen, worker, Stored(readAt + c.lease)))
            && Polled(s, step) == set r | r in chosen && s.jobs[r].monitor in s.monitors && !s.monitors[s.jobs[r].monitor].deleted
  {
  }

  /** The last step of a submission: it answers, and nothing is under way any more. */
  lemma Close(c: Config, steps: seq<Step>, ss: seq<State>, last: Step, committed: bool, t: State)
    returns (steps': seq<Step>, ss': seq<State>)
    requires Protocol.IsRun(c, ss, steps) && ss[|steps|].inflight.Keys == {0} && Enabled(c, ss[|steps|], last)
    requires Answer(ss[|steps|], last) == Some(committed)
    requires last == FailSubmit(0) || last == CheckDone(0) || last == CompleteUnanswered(0) || last == Step.CompleteJob(0)
    requires t == Apply(c, ss[|steps|], last).(inflight := map[])
    ensures Ran(c, ss[0], steps', ss', t, committed)
  {
    assert Forget(ss[|steps|], 0) == map[];
    Extend(c, ss, steps, last, t);
    steps', ss' := steps + [last], ss + [t];
  }
}
