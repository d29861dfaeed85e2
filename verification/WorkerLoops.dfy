/** The worker: its settings, its active jobs, and its loops, statement by statement. */
module WorkerLoops {
  import opened Wrappers
  import opened Times
  import opened Jobs
  import Polling
  import ResultRetry
  import Renewal

  type Poll = Polling.Poll
  type Turn = ResultRetry.Turn
  type Exit = ResultRetry.Exit

  /** The answers as they look to a job that is not active to begin with. */
  function SeenBy(active: bool, turns: seq<Turn>): seq<Turn> {
    if active || turns == [] then turns else turns[0 := turns[0].(gone := true)]
  }

  /** A poll is negative exactly when there is no room, and otherwise tells what the request brought. */
  predicate Asked(maxConcurrency: int, active: set<RunId>, reply: Option<nat>, poll: Poll) {
    && (poll.jobs < 0 <==> maxConcurrency <= |active|)
    && (maxConcurrency > |active| ==> poll.failed == reply.None? && poll.jobs == if reply.None? then 0 else reply.value)
  }

  class Worker {
    var activeJobs: set<RunId>
    var cancelled: set<RunId>
    var maxConcurrency: int
    var pollBase: Time
    var pollMax: Time
    var renewalThreshold: int
    var renewalInterval: Time
    var submitMaxAttempts: int
    var submitRetryInterval: Time
    var submitTimeout: Time

    /** What the settings keep, whatever they were set from. */
    ghost predicate Configured()
      reads this
    {
      && Polling.Bounds(pollBase, pollMax)
      && renewalThreshold > 0 && renewalInterval > 0
      && submitMaxAttempts >= 1 && submitRetryInterval > 0 && submitTimeout > 0
    }

    constructor (maxConcurrency: int)
      ensures Configured() && activeJobs == {} && cancelled == {} && this.maxConcurrency == maxConcurrency
      ensures pollBase == 1 * SECOND && pollMax == 10 * SECOND
      ensures renewalThreshold == 20000 && renewalInterval == 10 * SECOND
      ensures submitMaxAttempts == 6 && submitRetryInterval == 5 * SECOND && submitTimeout == 10 * SECOND
    {
      activeJobs, cancelled := {}, {};
      this.maxConcurrency := maxConcurrency;
      pollBase, pollMax := SECOND, 10 * SECOND;
      renewalThreshold, renewalInterval := 20000, 10 * SECOND;
      submitMaxAttempts, submitRetryInterval, submitTimeout := 6, 5 * SECOND, 10 * SECOND;
    }

    method WithLeaseRenewalConfig(threshold: int, interval: Time)
      requires Configured()
      modifies `renewalThreshold, `renewalInterval
      ensures Configured()
      ensures renewalThreshold == if threshold > 0 then threshold else old(renewalThreshold)
      ensures renewalInterval == if interval > 0 then interval else old(renewalInterval)
    {
      if threshold > 0 {
        renewalThreshold := threshold;
      }
      if interval > 0 {
        renewalInterval := interval;
      }
    }

    method WithPollingConfig(baseInterval: Time, maxInterval: Time)
      requires Polling.IsDuration(baseInterval) && Polling.IsDuration(maxInterval)
      modifies `pollBase, `pollMax
      ensures old(Configured()) ==> Configured()
      ensures Polling.Bounds(pollBase, pollMax)
      ensures 0 < baseInterval <= maxInterval ==> pollBase == baseInterval && pollMax == maxInterval
      ensures pollBase == if baseInterval <= 0 then SECOND else baseInterval
      ensures pollMax == if maxInterval < pollBase then pollBase else maxInterval
    {
      var base := if baseInterval <= 0 then SECOND else baseInterval;
      pollBase := base;
      pollMax := if maxInterval < base then base else maxInterval;
    }

    method WithResultRetryConfig(maxAttempts: int, retryInterval: Time, timeout: Time)
      modifies `submitMaxAttempts, `submitRetryInterval, `submitTimeout
      ensures old(Configured()) ==> Configured()
      ensures submitMaxAttempts == if maxAttempts <= 0 then 1 else maxAttempts
      ensures submitRetryInterval == if retryInterval <= 0 then 5 * SECOND else retryInterval
      ensures submitTimeout == if timeout <= 0 then 10 * SECOND else timeout
    {
      submitMaxAttempts := if maxAttempts <= 0 then 1 else maxAttempts;
      submitRetryInterval := if retryInterval <= 0 then 5 * SECOND else retryInterval;
      submitTimeout := if timeout <= 0 then 10 * SECOND else timeout;
    }

    method CompleteJob(run: RunId)
      modifies `activeJobs, `cancelled
      ensures activeJobs == old(activeJobs) - {run}
      ensures cancelled == old(cancelled) + (old(activeJobs) * {run})
    {
      if run in activeJobs {
        cancelled := cancelled + {run};
        activeJobs := activeJobs - {run};
      }
    }

    method CancelAllJobs()
      modifies `activeJobs, `cancelled
      ensures activeJobs == {} && cancelled == old(cancelled) + old(activeJobs)
    {
      while activeJobs != {}
        invariant activeJobs <= old(activeJobs)
        invariant cancelled == old(cancelled) + (old(activeJobs) - activeJobs)
        decreases activeJobs
      {
        var run :| run in activeJobs;
        cancelled := cancelled + {run};
        activeJobs := activeJobs - {run};
      }
    }

    method NextPollInterval(current: Time, poll: Poll) returns (interval: Time)
      requires Configured() && Polling.IsDuration(current)
      ensures interval == Polling.NextInterval(pollBase, pollMax, current, poll)
      ensures pollBase <= interval <= pollMax && (poll.Resets() ==> interval == pollBase)
    {
      var start := if current < pollBase then pollBase else current;
      if poll.jobs < 0 {
        return pollBase;
      }
      if !poll.failed && poll.jobs > 0 {
        return pollBase;
      }
      var next := Polling.Wrapped(start * 2);
      if next < pollBase {
        next := pollBase;
      }
      if next > pollMax {
        next := pollMax;
      }
      return next;
    }

    /** `reply` is the number of jobs a request would bring, None if it fails. */
    method PollForJobs(reply: Option<nat>) returns (poll: Poll)
      ensures Asked(maxConcurrency, activeJobs, reply, poll)
    {
      if maxConcurrency - |activeJobs| <= 0 {
        return Polling.Poll(-1, false);
      }
      return if reply.None? then Polling.Poll(0, true) else Polling.Poll(reply.value, false);
    }

    /** The polling loop up to the end of its context, when every active job is cancelled. Jobs start and end in their own
        goroutines: `active` is what they left active at each poll and, last, at the end. */
    method PollLoop(replies: seq<Option<nat>>, active: seq<set<RunId>>) returns (interval: Time, polls: seq<Poll>)
      requires Configured() && |active| == |replies| + 1
      modifies `activeJobs, `cancelled
      ensures |polls| == |replies| && interval == Polling.IntervalAfter(pollBase, pollMax, polls)
      ensures forall i :: 0 <= i < |polls| ==>
                Asked(maxConcurrency, active[i], replies[i], polls[i])
      ensures pollBase <= interval <= pollMax
      ensures activeJobs == {} && cancelled == old(cancelled) + active[|replies|]
    {
      interval, polls := pollBase, [];
      while |polls| < |replies|
        invariant |polls| <= |replies|
        invariant cancelled == old(cancelled)
        invariant forall i :: 0 <= i < |polls| ==>
                    Asked(maxConcurrency, active[i], replies[i], polls[i])
        invariant interval == Polling.IntervalAfter(pollBase, pollMax, polls)
        invariant pollBase <= interval <= pollMax
      {
        activeJobs := active[|polls|];
        var poll := PollForJobs(replies[|polls|]);
        interval := NextPollInterval(interval, poll);
        assert (polls + [poll])[..|polls|] == polls;
        polls := polls + [poll];
      }
      activeJobs := active[|replies|];
      CancelAllJobs();
    }

    /** sendResult against the given turns. A turn may find that the job was taken out of the active ones meanwhile. */
    method SendResult(run: RunId, turns: seq<Turn>) returns (exit: Exit, submitted: nat, refreshed: nat)
      requires Configured()
      modifies `activeJobs, `cancelled
      ensures exit == ResultRetry.ExitOf(submitMaxAttempts, 1, SeenBy(run in old(activeJobs), turns))
      ensures submitted <= submitMaxAttempts + refreshed
      ensures exit == ResultRetry.Running ==> submitted == |turns|
      ensures activeJobs == if exit == ResultRetry.Cancelled || exit == ResultRetry.Running then old(activeJobs)
                            else old(activeJobs) - {run}
      ensures cancelled == if exit == ResultRetry.Sent || exit == ResultRetry.GivenUp then old(cancelled) + (old(activeJobs) * {run})
                           else old(cancelled)
    {
      ghost var all := SeenBy(run in activeJobs, turns);
      submitted, refreshed := 0, 0;
      var attempt := 1;
      var committed := false;
      while attempt <= submitMaxAttempts
        invariant 1 <= attempt <= submitMaxAttempts && submitted == attempt - 1 + refreshed && submitted <= |turns|
        invariant !committed && activeJobs == old(activeJobs) && cancelled == old(cancelled)
        invariant submitted > 0 ==> run in activeJobs
        invariant ResultRetry.ExitOf(submitMaxAttempts, 1, all) == ResultRetry.ExitOf(submitMaxAttempts, attempt, all[submitted..])
        decreases |turns| - submitted
      {
        if submitted == |turns| {
          return ResultRetry.Running, submitted, refreshed;
        }
        var turn := turns[submitted];
        if turn.gone {
          activeJobs := activeJobs - {run};
        }
        if run !in activeJobs {
          return ResultRetry.Vanished, submitted, refreshed;
        }
        assert all[submitted..][0] == turn && all[submitted..][1..] == all[submitted + 1..];
        submitted := submitted + 1;
        match turn.answer {
          case Committed =>
            committed := true;
            break;
          case Unauthenticated(ok) =>
            if ok {
              refreshed := refreshed + 1;
              continue;
            }
          case _ =>
        }
        if attempt == submitMaxAttempts {
          break;
        }
        if turn.cancelled {
          return ResultRetry.Cancelled, submitted, refreshed;
        }
        attempt := attempt + 1;
      }
      CompleteJob(run);
      exit := if committed then ResultRetry.Sent else ResultRetry.GivenUp;
    }

    /** renewLease over the given turns: it goes on exactly while the lease is renewed. `through` is the number of turns
        that renewed it. */
    method RenewLease(turns: seq<Renewal.Turn>) returns (through: nat, running: bool)
      requires Configured()
      ensures through <= |turns| && (running <==> through == |turns|)
      ensures forall i :: 0 <= i < through ==> Renewal.Last(turns[i]).reply == Renewal.Renewed
      ensures !running ==> Renewal.Last(turns[through]).reply != Renewal.Renewed
      ensures Renewal.IsTrace(renewalInterval, turns) ==>
                forall i :: 0 < i < through ==>
                  Renewal.Last(turns[i]).served - Renewal.Last(turns[i - 1]).read <= Renewal.RenewalGap(renewalInterval)
    {
      through := 0;
      if Renewal.IsTrace(renewalInterval, turns) {
        Renewal.TraceGaps(renewalInterval, turns);
      }
      hide Renewal.IsTrace, Renewal.RenewalGap;
      while through < |turns|
        invariant through <= |turns|
        invariant forall i :: 0 <= i < through ==> Renewal.Last(turns[i]).reply == Renewal.Renewed
      {
        var turn := turns[through];
        var reply := turn.first.reply;
        if reply == Renewal.Unauthenticated && turn.refreshed {
          reply := turn.again.reply;
        }
        if reply == Renewal.Unauthenticated || reply == Renewal.Failed {
          return through, false;
        }
        if reply == Renewal.Declined {
          return through, false;
        }
        through := through + 1;
      }
      return through, true;
    }
  }
}
