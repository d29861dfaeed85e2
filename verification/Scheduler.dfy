/** The scheduler's loops over monitors and regions, proved to compute the iteration function. */
module Scheduler {
  import opened Wrappers
  import opened Times
  import opened Jobs
  import opened Cadence
  import opened RunIds
  import opened Schedule
  import opened Database
  import Regions

  /** A failed insert stays failed: the transaction cannot recover with later regions. */
  lemma {:induction false} FailureSticks(env: Env, jobs: Table, id: string, regions: seq<string>, k: nat, at: Time,
                        window: Time)
    requires k <= |regions| && InsertRegions(env, jobs, id, regions[..k], at, window).None?
    ensures InsertRegions(env, jobs, id, regions, at, window).None?
    decreases |regions|
  {
    if k == |regions| {
      assert regions[..k] == regions;
    } else {
      var init := regions[..|regions| - 1];
      assert init[..k] == regions[..k];
      FailureSticks(env, jobs, id, init, k, at, window);
    }
  }

  lemma OneMoreInsert(env: Env, jobs: Table, id: string, regions: seq<string>, k: nat, at: Time, window: Time, t: Table)
    requires k < |regions| && InsertRegions(env, jobs, id, regions[..k], at, window) == Some(t)
    ensures
      var out := InsertIfAbsent(t, GenerateRunId(env, id, regions[k], at), NewRow(id, regions[k], Stored(at)),
                                Stored(at - window), Stored(at + window));
      InsertRegions(env, jobs, id, regions[..k + 1], at, window) == if out.Violation? then None else Some(TablesAfter(t, out))
  {
    assert regions[..k + 1][..k] == regions[..k];
  }

  lemma {:induction false} RollbackSticks(env: Env, s: Schedules, due: seq<string>, k: nat, now: Time)
    requires forall id :: id in due ==> id in s.monitors
    requires k <= |due| && ScheduleAll(env, s, due[..k], now).None?
    ensures ScheduleAll(env, s, due, now).None?
    decreases |due|
  {
    if k == |due| {
      assert due[..k] == due;
    } else {
      var init := due[..|due| - 1];
      assert init[..k] == due[..k];
      RollbackSticks(env, s, init, k, now);
    }
  }

  class Scheduler {
    const store: Store
    const env: Env

    constructor (store: Store, env: Env)
      ensures this.store == store && this.env == env
    {
      this.store, this.env := store, env;
    }

    /** One region's insert; a row that is already there is no failure. */
    method CreateJob(id: string, region: string, at: Time, window: Time) returns (ok: bool)
      modifies store`jobs
      ensures var out := InsertIfAbsent(old(store.jobs), GenerateRunId(env, id, region, at), NewRow(id, region, Stored(at)),
                                        Stored(at - window), Stored(at + window));
              store.jobs == TablesAfter(old(store.jobs), out) && ok == !out.Violation?
    {
      hide InsertIfAbsent, GenerateRunId, NewRow, Stored;
      var reply := store.CreateJobIdempotent(GenerateRunId(env, id, region, at), id, region, at, at - window, at + window);
      ok := reply != Failed;
    }

    /** The loop over a monitor's regions; a failed insert ends it. */
    method CreateJobs(id: string, regions: seq<string>, at: Time, window: Time) returns (ok: bool)
      modifies store`jobs
      ensures var t := InsertRegions(env, old(store.jobs), id, regions, at, window);
              ok == t.Some? && (ok ==> store.jobs == t.value)
    {
      ghost var before := store.jobs;
      assert InsertRegions(env, before, id, regions[..0], at, window) == Some(before);
      hide *;
      for k := 0 to |regions|
        invariant InsertRegions(env, before, id, regions[..k], at, window) == Some(store.jobs)
      {
        OneMoreInsert(env, before, id, regions, k, at, window, store.jobs);
        var inserted := CreateJob(id, regions[k], at, window);
        if !inserted {
          FailureSticks(env, before, id, regions, k + 1, at, window);
          return false;
        }
      }
      assert regions[..|regions|] == regions;
      ok := true;
    }

    method ScheduleMonitorTx(id: string, monitor: Monitor, now: Time) returns (ok: bool)
      modifies store`jobs, store`monitors
      ensures var u := ScheduleMonitor(env, Schedules(old(store.jobs), old(store.monitors)), id, monitor, now);
              && ok == u.Some?
              && (ok ==> store.jobs == u.value.jobs && store.monitors == u.value.monitors)
    {
      var scheduledAt: Time;
      if monitor.nextDue.Some? && monitor.nextDue.value > now {
        scheduledAt := monitor.nextDue.value;
      } else {
        scheduledAt := now;
      }
      var interval := Interval(monitor.intervalMs);
      var nextDueAt := scheduledAt + ApplyJitter(interval, env.hash(id, monitor.seed));
      ok := CreateJobs(id, monitor.regions, scheduledAt, DedupWindow(interval));
      if ok {
        store.UpdateMonitorSchedulingTime(id, scheduledAt, nextDueAt);
      }
    }

    /** One transaction over the due monitors: either all of it, or nothing. */
    method ScheduleIteration(now: Time, locked: set<string>) returns (committed: bool, due: seq<string>)
      modifies store`jobs, store`monitors
      ensures IsDueList(old(store.monitors), now, locked, due)
      ensures var u := ScheduleAll(env, Schedules(old(store.jobs), old(store.monitors)), due, now);
              && committed == u.Some?
              && Schedules(store.jobs, store.monitors) == (if u.Some? then u.value else Schedules(old(store.jobs), old(store.monitors)))
    {
      var jobsBefore, monitorsBefore := store.jobs, store.monitors;
      ghost var s := Schedules(jobsBefore, monitorsBefore);
      due := store.ListDueMonitors(now, locked);
      for k := 0 to |due|
        invariant ScheduleAll(env, s, due[..k], now) == Some(Schedules(store.jobs, store.monitors))
      {
        assert due[..k + 1][..k] == due[..k];
        assert due[k] in due;
        var ok := ScheduleMonitorTx(due[k], monitorsBefore[due[k]], now);
        if !ok {
          RollbackSticks(env, s, due, k + 1, now);
          store.jobs, store.monitors := jobsBefore, monitorsBefore;
          return false, due;
        }
      }
      assert due[..|due|] == due;
      committed := true;
    }
  }
}
