/** The job cleaner: what its batch loop removes on its own, and why it ends whatever else runs between its batches. */
module Cleaning {
  import opened Wrappers
  import opened Times
  import opened Jobs
  import opened Protocol
  import opened Leases
  import opened Database
  import Spacing

  const DEFAULT_RETENTION: Time := 7 * 24 * HOUR
  const DEFAULT_BATCH: nat := 1000

  /** The rows a cleaner with this cutoff may take. */
  function Finished(jobs: Table, cutoff: Time): set<RunId> {
    CleanRanks(jobs, cutoff).Keys
  }

  lemma FinishedAreOverdue(jobs: Table, cutoff: Time)
    ensures Finished(jobs, cutoff) == OverdueRows(jobs, cutoff)
  {
  }

  lemma DeletedAreGone(jobs: Table, gone: set<RunId>)
    ensures ExactlyGone(jobs, DeleteRows(jobs, gone), gone)
  {
  }

  lemma BatchShrinks(jobs: Table, cutoff: Time, limit: nat, chosen: set<RunId>)
    requires IsFirst(CleanRanks(jobs, cutoff), limit, chosen)
    ensures chosen <= Finished(jobs, cutoff)
    ensures Finished(DeleteRows(jobs, chosen), cutoff) == Finished(jobs, cutoff) - chosen
    ensures |Finished(jobs, cutoff) - chosen| == |Finished(jobs, cutoff)| - |chosen|
    ensures |chosen| < limit ==> Finished(DeleteRows(jobs, chosen), cutoff) == {}
  {
    var f := Finished(jobs, cutoff);
    assert |CleanRanks(jobs, cutoff)| == |f|;
    assert f == chosen + (f - chosen);
    assert |f - chosen| == 0 ==> f - chosen == {};
  }

  lemma DeleteNone(jobs: Table)
    ensures DeleteRows(jobs, {}) == jobs
  {
  }

  /** One more batch of a cleaner that has so far removed `gone` from `start`. */
  lemma OneMoreBatch(start: Table, gone: set<RunId>, jobs: Table, cutoff: Time, limit: nat, chosen: set<RunId>)
    requires limit > 0 && gone <= Finished(start, cutoff) && jobs == DeleteRows(start, gone)
    requires Finished(jobs, cutoff) == Finished(start, cutoff) - gone && IsFirst(CleanRanks(jobs, cutoff), limit, chosen)
    ensures var gone' := gone + chosen;
            && gone' <= Finished(start, cutoff) && |gone'| == |gone| + |chosen|
            && DeleteRows(jobs, chosen) == DeleteRows(start, gone')
            && Finished(DeleteRows(jobs, chosen), cutoff) == Finished(start, cutoff) - gone'
            && (|chosen| < limit ==> gone' == Finished(start, cutoff))
            && (|chosen| >= limit ==> Finished(start, cutoff) - gone' < Finished(start, cutoff) - gone)
  {
    hide IsFirst, CleanRanks, Finished, DeleteRows;
    BatchShrinks(jobs, cutoff, limit, chosen);
    DeleteTwice(start, gone, chosen);
    UsedUp(Finished(start, cutoff), gone, chosen);
  }

  lemma DeleteTwice(jobs: Table, a: set<RunId>, b: set<RunId>)
    ensures DeleteRows(DeleteRows(jobs, a), b) == DeleteRows(jobs, a + b)
  {
  }

  lemma UsedUp(all: set<RunId>, gone: set<RunId>, more: set<RunId>)
    requires gone <= all && more <= all - gone
    ensures gone + more <= all && |gone + more| == |gone| + |more|
    ensures all - gone - more == all - (gone + more)
    ensures all - gone - more == {} ==> gone + more == all
    ensures |more| > 0 ==> all - (gone + more) < all - gone
  {
    assert all - gone - more == {} ==> all <= gone + more;
    if |more| > 0 {
      var x :| x in more;
      assert x in all - gone && x !in all - (gone + more);
    }
  }

  class JobCleaner {
    const store: Store
    const retention: Time
    const batchSize: nat

    constructor (store: Store, retention: Time, batchSize: int)
      ensures this.store == store
      ensures this.retention == if retention <= 0 then 7 * 24 * 60 * MINUTE else retention
      ensures this.batchSize == if batchSize <= 0 then 1000 else batchSize
      ensures this.retention > 0 && this.batchSize > 0
    {
      this.store := store;
      this.retention := if retention <= 0 then DEFAULT_RETENTION else retention;
      this.batchSize := if batchSize <= 0 then DEFAULT_BATCH else batchSize;
    }

    /** runCleanup under its lock, alone on the table. `failing` is the number of the batch whose statement fails, if one
        does; then nothing is reported. `gone` names the rows deleted. */
    method RunCleanup(readAt: Time, failing: Option<nat>) returns (total: nat, ok: bool, ghost gone: set<RunId>)
      requires batchSize > 0
      modifies store`jobs
      ensures failing.None? ==> ok
      ensures total == |gone| && ExactlyGone(old(store.jobs), store.jobs, gone)
      ensures gone <= OverdueRows(old(store.jobs), Stored(readAt - retention))
      ensures ok ==> gone == OverdueRows(old(store.jobs), Stored(readAt - retention))
    {
      hide IsFirst, CleanRanks, Finished, DeleteRows, OldestOverdue, ExactlyGone, OverdueRows;
      var cutoff := readAt - retention;
      FinishedAreOverdue(store.jobs, Stored(cutoff));
      ghost var finished := Finished(store.jobs, Stored(cutoff));
      gone, total, ok := {}, 0, true;
      var batch := 0;
      DeleteNone(store.jobs);
      while true
        invariant gone <= finished && |gone| == total && ok
        invariant store.jobs == DeleteRows(old(store.jobs), gone)
        invariant Finished(store.jobs, Stored(cutoff)) == finished - gone
        decreases finished - gone
      {
        if failing == Some(batch) {
          DeletedAreGone(old(store.jobs), gone);
          return total, false, gone;
        }
        ghost var before := store.jobs;
        var deleted, chosen := store.DeleteDoneJobsBefore(cutoff, batchSize);
        OneMoreBatch(old(store.jobs), gone, before, Stored(cutoff), batchSize, chosen);
        gone := gone + chosen;
        total := total + deleted;
        batch := batch + 1;
        if deleted < batchSize {
          DeletedAreGone(old(store.jobs), gone);
          return;
        }
      }
    }
  }

  // ---------------------------------------------------------------------------------------------------------------
  // Between the batches anything may run

  /** The rows scheduled before the cutoff, finished or not. */
  function Old(jobs: Table, cutoff: Time): set<RunId> {
    set r | r in jobs && jobs[r].at < cutoff
  }

  /** Step `p` is a batch of the cleaner that read its clock at `readAt`. */
  ghost predicate IsBatch(steps: seq<Step>, p: nat, readAt: Time) {
    p < |steps| && steps[p].CleanBatch? && steps[p].readAt == readAt
  }

  lemma StepKeepsOld(c: Config, s: State, step: Step, cutoff: Time)
    requires Enabled(c, s, step) && cutoff <= Stored(s.clock)
    ensures Old(Apply(c, s, step).jobs, cutoff) <= Old(s.jobs, cutoff)
  {
    forall r | r in Old(Apply(c, s, step).jobs, cutoff) ensures r in Old(s.jobs, cutoff) {
      JobStateMachine(c, s, step, r);
    }
  }

  lemma BatchTakesOld(c: Config, s: State, step: Step)
    requires Enabled(c, s, step) && step.CleanBatch?
    ensures |Old(Apply(c, s, step).jobs, Cutoff(c, step.readAt))| + |step.chosen| == |Old(s.jobs, Cutoff(c, step.readAt))|
    ensures |step.chosen| < step.limit ==> Finished(Apply(c, s, step).jobs, Cutoff(c, step.readAt)) == {}
  {
    hide IsFirst, CleanRanks, DeleteRows, Old, Finished;
    BatchShrinks(s.jobs, Cutoff(c, step.readAt), step.limit, step.chosen);
    OldWithout(s.jobs, Cutoff(c, step.readAt), step.chosen);
  }

  /** The protocol's cleaning steps are the batches of `DeleteDoneJobsBefore`, with the retention taken off
      the cleaner's clock. */
  lemma BatchStepIff(c: Config, s: State, readAt: Time, limit: nat, chosen: set<RunId>)
    requires readAt <= s.clock
    ensures var step := CleanBatch(readAt, limit, chosen);
            && (Enabled(c, s, step) <==> OldestOverdue(s.jobs, Stored(readAt - c.retention), limit, chosen))
            && (Enabled(c, s, step) ==> Apply(c, s, step) == s.(jobs := DeleteRows(s.jobs, chosen))
                                        && ExactlyGone(s.jobs, Apply(c, s, step).jobs, chosen))
  {
    CleanedAreOldest(s.jobs, Stored(readAt - c.retention), limit, chosen);
    hide IsFirst, CleanRanks, OldestOverdue;
  }

  lemma OldWithout(jobs: Table, cutoff: Time, chosen: set<RunId>)
    requires chosen <= Finished(jobs, cutoff)
    ensures |Old(DeleteRows(jobs, chosen), cutoff)| + |chosen| == |Old(jobs, cutoff)|
  {
    var before, now := Old(jobs, cutoff), Old(DeleteRows(jobs, chosen), cutoff);
    assert before == now + chosen;
  }

  /** How many rows the cleaner's batches removed between states `i` and `k`. */
  ghost function Taken(steps: seq<Step>, readAt: Time, i: nat, k: nat): nat
    requires i <= k <= |steps|
  {
    if i == k then 0
    else Taken(steps, readAt, i, k - 1) + if IsBatch(steps, k - 1, readAt) then |steps[k - 1].chosen| else 0
  }

  /** How many of those batches were full, so that the loop goes on. */
  ghost function FullBatches(steps: seq<Step>, readAt: Time, limit: nat, i: nat, k: nat): nat
    requires i <= k <= |steps|
  {
    if i == k then 0
    else FullBatches(steps, readAt, limit, i, k - 1)
         + if IsBatch(steps, k - 1, readAt) && |steps[k - 1].chosen| == limit then 1 else 0
  }

  /** Rows scheduled before the cutoff are only ever used up: no lease, completion, reclaim or scheduling adds one. */
  lemma {:induction false} OldIsUsedUp(c: Config, ss: seq<State>, steps: seq<Step>, readAt: Time, i: nat, k: nat)
    requires IsRun(c, ss, steps) && i <= k < |ss| && Cutoff(c, readAt) <= Stored(ss[i].clock)
    ensures Taken(steps, readAt, i, k) + |Old(ss[k].jobs, Cutoff(c, readAt))| <= |Old(ss[i].jobs, Cutoff(c, readAt))|
  {
    if i < k {
      OldIsUsedUp(c, ss, steps, readAt, i, k - 1);
      var s, step := ss[k - 1], steps[k - 1];
      assert Enabled(c, s, step);
      ClockMonotone(c, ss, steps, i, k - 1);
      StoredMonotone(ss[i].clock, s.clock);
      StepKeepsOld(c, s, step, Cutoff(c, readAt));
      SubsetCount(Old(ss[k].jobs, Cutoff(c, readAt)), Old(s.jobs, Cutoff(c, readAt)));
      if IsBatch(steps, k - 1, readAt) {
        BatchTakesOld(c, s, step);
      }
    }
  }

  lemma {:induction false} FullTakesLimit(steps: seq<Step>, readAt: Time, limit: nat, i: nat, k: nat)
    requires i <= k <= |steps|
    ensures FullBatches(steps, readAt, limit, i, k) * limit <= Taken(steps, readAt, i, k)
  {
    if i < k {
      FullTakesLimit(steps, readAt, limit, i, k - 1);
      var n := FullBatches(steps, readAt, limit, i, k - 1);
      assert (n + 1) * limit == n * limit + limit;
    }
  }

  /** The cleaner's loop goes on only after a full batch, and however the other actors run in between there can be at most
      as many of those as the old rows at its start fill. */
  lemma CleanerEnds(c: Config, ss: seq<State>, steps: seq<Step>, readAt: Time, limit: nat, i: nat, k: nat)
    requires IsRun(c, ss, steps) && i <= k < |ss| && readAt <= ss[i].clock && c.retention > 0 && limit > 0
    ensures FullBatches(steps, readAt, limit, i, k) <= |Old(ss[i].jobs, Cutoff(c, readAt))| / limit
  {
    StoredMonotone(readAt - c.retention, ss[i].clock);
    OldIsUsedUp(c, ss, steps, readAt, i, k);
    FullTakesLimit(steps, readAt, limit, i, k);
    Spacing.QuotientAtLeast(FullBatches(steps, readAt, limit, i, k), limit, |Old(ss[i].jobs, Cutoff(c, readAt))|);
  }
}
