/** The statements of the control plane over its tables, each proved to be the function or choice its step stands for. */
module Database {
  import opened Wrappers
  import opened Times
  import opened Jobs
  import opened Schedule
  import opened Results
  import Regions
  import W = Workers

  datatype InsertReply = Created | NoRows | Failed

  function TablesAfter(jobs: Table, outcome: InsertOutcome): Table {
    if outcome.Inserted? then outcome.table else jobs
  }

  function ReplyTo(outcome: InsertOutcome): InsertReply {
    match outcome
    case Inserted(_) => Created
    case Duplicate => NoRows
    case Violation => Failed
  }

  lemma {:induction false} EarliestExists(monitors: Monitors, rest: set<string>)
    requires rest <= monitors.Keys && rest != {}
    ensures exists b :: b in rest && forall o :: o in rest ==> NotLater(monitors[b].nextDue, monitors[o].nextDue)
  {
    var x :| x in rest;
    if rest == {x} {
      assert forall o :: o in rest ==> NotLater(monitors[x].nextDue, monitors[o].nextDue);
    } else {
      var fewer := rest - {x};
      EarliestExists(monitors, fewer);
      var b :| b in fewer && forall o :: o in fewer ==> NotLater(monitors[b].nextDue, monitors[o].nextDue);
      var best := if NotLater(monitors[x].nextDue, monitors[b].nextDue) then x else b;
      assert best in rest && forall o :: o in rest ==> NotLater(monitors[best].nextDue, monitors[o].nextDue);
    }
  }

  class Store {
    var jobs: Table
    var monitors: Monitors
    var results: ResultTable

    constructor ()
      ensures jobs == map[] && monitors == map[] && results == map[]
    {
      jobs, monitors, results := map[], map[], map[];
    }

    method CreateJobIdempotent(run: RunId, monitor: string, region: string, at: Time, from: Time,
                        to: Time) returns (reply: InsertReply)
      modifies this`jobs
      ensures var out := InsertIfAbsent(old(jobs), run, NewRow(monitor, region, Stored(at)), Stored(from), Stored(to));
              jobs == TablesAfter(old(jobs), out) && reply == ReplyTo(out)
      ensures reply == NoRows <==>
                exists r :: r in old(jobs) && old(jobs)[r].monitor == monitor && old(jobs)[r].region == region
                            && !old(jobs)[r].deleted && old(jobs)[r].status in {Ready, Leased}
                            && Stored(from) <= old(jobs)[r].at <= Stored(to)
      ensures reply == Created ==>
                run !in old(jobs) && jobs == old(jobs)[run := Job(monitor, region, Ready, Stored(at), None, None, false)]
      ensures reply != Created ==> jobs == old(jobs)
      ensures reply == Failed && from <= at <= to ==> run in old(jobs)
    {
      var row := NewRow(monitor, region, Stored(at));
      if ActiveWithin(jobs, monitor, region, Stored(from), Stored(to)) {
        reply := NoRows;
      } else if run in jobs || ActiveWithin(jobs, monitor, region, row.at, row.at) {
        reply := Failed;
      } else {
        jobs := jobs[run := row];
        reply := Created;
      }
    }

    /** Leases the first claimable rows and returns those whose monitor is live; the others stay leased, unreturned. */
    method LeaseJobsWithMonitorData(worker: string, limit: nat, home: string, expires: Time, clock: Time,
                        skipped: set<RunId>)
      returns (polled: set<RunId>, chosen: set<RunId>)
      modifies this`jobs
      ensures IsFirst(ClaimRanks(old(jobs), home, clock, skipped), limit, chosen)
      ensures jobs == LeaseRows(old(jobs), chosen, worker, Stored(expires))
      ensures jobs.Keys == old(jobs.Keys)
      ensures forall r :: r in jobs ==>
                var was := old(jobs)[r];
                jobs[r] == if r in chosen
                           then Job(was.monitor, was.region, Leased, was.at, Some(Stored(expires)), Some(worker), was.deleted)
                           else was
      ensures polled == set r | r in chosen && old(jobs)[r].monitor in monitors && !monitors[old(jobs)[r].monitor].deleted
      ensures BestOpen(old(jobs), home, clock, skipped, limit, chosen)
    {
      chosen := SelectFirst(ClaimRanks(jobs, home, clock, skipped), limit);
      ClaimedAreBest(jobs, home, clock, skipped, limit, chosen);
      polled := set r | r in chosen && jobs[r].monitor in monitors && !monitors[jobs[r].monitor].deleted;
      jobs := LeaseRows(jobs, chosen, worker, Stored(expires));
    }

    method RenewLease(run: RunId, worker: string, expires: Time) returns (found: bool)
      modifies this`jobs
      ensures jobs == RenewRow(old(jobs), run, worker, Stored(expires))
      ensures found <==> run in old(jobs) && old(jobs)[run].status == Leased && old(jobs)[run].worker == Some(worker)
      ensures jobs == if found then old(jobs)[run := old(jobs)[run].(expires := Some(Stored(expires)))] else old(jobs)
    {
      found := run in jobs && jobs[run].HeldBy(worker);
      if found {
        jobs := jobs[run := jobs[run].(expires := Some(Stored(expires)))];
      }
    }

    method CompleteJob(run: RunId, worker: string) returns (found: bool)
      modifies this`jobs
      ensures jobs == CompleteRow(old(jobs), run, worker)
      ensures found <==> run in old(jobs) && old(jobs)[run].status == Leased && old(jobs)[run].worker == Some(worker)
      ensures jobs == if found then old(jobs)[run := old(jobs)[run].(status := Done, expires := None)] else old(jobs)
    {
      found := run in jobs && jobs[run].HeldBy(worker);
      if found {
        jobs := jobs[run := jobs[run].(status := Done, expires := None)];
      }
    }

    method GetJobByRunID(run: RunId) returns (job: Option<Job>)
      ensures job == if run in jobs then Some(jobs[run]) else None
    {
      job := if run in jobs then Some(jobs[run]) else None;
    }

    method ReclaimExpiredLeases(clock: Time)
      modifies this`jobs
      ensures jobs == ReclaimRows(old(jobs), clock)
      ensures jobs.Keys == old(jobs.Keys)
      ensures forall r :: r in jobs ==>
                var was := old(jobs)[r];
                jobs[r] == if was.status == Leased && !was.deleted && was.expires.Some? && was.expires.value < Stored(clock)
                           then Job(was.monitor, was.region, Ready, was.at, None, None, false) else was
    {
      jobs := map r | r in jobs ::
        if jobs[r].Expired(clock) then jobs[r].(status := Ready, expires := None, worker := None) else jobs[r];
    }

    method DeleteDoneJobsBefore(cutoff: Time, limit: nat) returns (deleted: nat, chosen: set<RunId>)
      modifies this`jobs
      ensures IsFirst(CleanRanks(old(jobs), Stored(cutoff)), limit, chosen)
      ensures jobs == DeleteRows(old(jobs), chosen) && deleted == |chosen|
      ensures OldestOverdue(old(jobs), Stored(cutoff), limit, chosen) && ExactlyGone(old(jobs), jobs, chosen)
    {
      chosen := SelectFirst(CleanRanks(jobs, Stored(cutoff)), limit);
      CleanedAreOldest(jobs, Stored(cutoff), limit, chosen);
      deleted := |chosen|;
      jobs := DeleteRows(jobs, chosen);
    }

    method UpsertResult(m: MonitorResult) returns (ok: bool)
      modifies this`results
      ensures ok == ProcessResult(old(results), m).Some?
      ensures results == if ok then ProcessResult(old(results), m).value else old(results)
    {
      var row := RowOf(m);
      ok := StatusAllowed(row.status);
      if ok {
        var key := KeyOf(m);
        if key in results {
          row := row.(monitor := results[key].monitor, region := results[key].region);
        }
        results := results[key := row];
      }
    }

    method ListDueMonitors(now: Time, locked: set<string>) returns (due: seq<string>)
      ensures IsDueList(monitors, now, locked, due)
      ensures forall id :: id in due <==>
                id in monitors && id !in locked && monitors[id].enabled && !monitors[id].deleted
                && (monitors[id].nextDue.None? || monitors[id].nextDue.value <= Stored(now + 5 * SECOND))
      ensures forall i, j :: 0 <= i < j < |due| ==>
                var a, b := monitors[due[i]].nextDue, monitors[due[j]].nextDue;
                a.None? || (b.Some? && a.value <= b.value)
    {
      due := [];
      var rest := set id | id in monitors && id !in locked && monitors[id].Due(now);
      ghost var all := rest;
      while rest != {}
        invariant rest <= all
        invariant forall id :: id in all <==> id in monitors && id !in locked && monitors[id].Due(now)
        invariant Regions.NoRepeats(due)
        invariant forall id :: id in due <==> id in all && id !in rest
        invariant forall i, j :: 0 <= i < j < |due| ==> NotLater(monitors[due[i]].nextDue, monitors[due[j]].nextDue)
        invariant forall i, o :: 0 <= i < |due| && o in rest ==> NotLater(monitors[due[i]].nextDue, monitors[o].nextDue)
        decreases rest
      {
        EarliestExists(monitors, rest);
        var first :| first in rest && forall o :: o in rest ==> NotLater(monitors[first].nextDue, monitors[o].nextDue);
        due := due + [first];
        rest := rest - {first};
      }
    }

    /** The primary key refuses a second monitor of the same id, deleted or not. */
    method CreateMonitor(id: string, row: Monitor, write: W.Write) returns (ok: bool)
      modifies this`monitors
      ensures ok <==> write.Done? && id !in old(monitors)
      ensures monitors == if id in old(monitors) || write.Refused? then old(monitors) else old(monitors)[id := row]
    {
      ok := write.Done? && id !in monitors;
      if id !in monitors && !write.Refused? {
        monitors := monitors[id := row];
      }
    }

    /** GetMonitorByUser: a deleted monitor is not found. */
    method GetMonitor(id: string) returns (row: Option<Monitor>)
      ensures row == if id in monitors && !monitors[id].deleted then Some(monitors[id]) else None
    {
      row := if id in monitors && !monitors[id].deleted then Some(monitors[id]) else None;
    }

    /** UpdateMonitorByUser does not look whether the monitor was deleted meanwhile, and answers with the row it wrote. */
    method UpdateMonitor(id: string, row: Monitor, write: W.Write) returns (ok: bool)
      modifies this`monitors
      ensures ok <==> write.Done? && id in old(monitors)
      ensures monitors == if id in old(monitors) && !write.Refused?
                          then old(monitors)[id := old(monitors)[id].(intervalMs := row.intervalMs, seed := row.seed,
                                                                      regions := row.regions, enabled := row.enabled)]
                          else old(monitors)
    {
      ok := write.Done? && id in monitors;
      if id in monitors && !write.Refused? {
        monitors := monitors[id := monitors[id].(intervalMs := row.intervalMs, seed := row.seed, regions := row.regions,
                                                 enabled := row.enabled)];
      }
    }

    method DeleteMonitor(id: string, write: W.Write) returns (ok: bool)
      modifies this`monitors
      ensures ok <==> write.Done?
      ensures monitors == if id in old(monitors) && !write.Refused? then old(monitors)[id := old(monitors)[id].(deleted := true)]
                          else old(monitors)
    {
      ok := write.Done?;
      if id in monitors && !monitors[id].deleted && !write.Refused? {
        monitors := monitors[id := monitors[id].(deleted := true)];
      }
    }

    method UpdateMonitorSchedulingTime(id: string, last: Time, next: Time)
      modifies this`monitors
      ensures monitors == if id in old(monitors)
                          then old(monitors)[id := old(monitors)[id].(last := Some(Stored(last)), nextDue := Some(Stored(next)))]
                          else old(monitors)
    {
      if id in monitors {
        monitors := monitors[id := monitors[id].(last := Some(Stored(last)), nextDue := Some(Stored(next)))];
      }
    }
  }
}
