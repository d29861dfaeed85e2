/** The job table: its rows, the statements that change them, and the choice that ORDER BY and LIMIT make. */
module Jobs {
  import opened Wrappers
  import opened Times

  type RunId = string

  datatype Status = Ready | Leased | Done

  /** A row of app.jobs; its primary key, the run id, is the key of the table. */
  datatype Job = Job(
    monitor: string,
    region: string,
    status: Status,
    at: Time,
    expires: Option<Time>,
    worker: Option<string>,
    deleted: bool)
  {
    /** The rows the partial unique index and the duplicate check look at. */
    predicate Active() {
      !deleted && status != Done
    }

    /** Due, ready, and in reach of a worker of `home`. */
    predicate Claimable(home: string, clock: Time) {
      status == Ready && !deleted && at <= Stored(clock) && (region == home || region == "global")
    }

    predicate HeldBy(w: string) {
      status == Leased && worker == Some(w)
    }

    predicate Expired(clock: Time) {
      status == Leased && !deleted && expires.Some? && expires.value < Stored(clock)
    }

    /** A finished row the cleaner may take: `cutoff` is already a column value. */
    predicate Cleanable(cutoff: Time) {
      status == Done && !deleted && at < cutoff
    }
  }

  type Table = map<RunId, Job>

  function NewRow(monitor: string, region: string, at: Time): Job {
    Job(monitor, region, Ready, at, None, None, false)
  }

  // ---------------------------------------------------------------------------------------------------------------
  // Insertion

  datatype InsertOutcome = Inserted(table: Table) | Duplicate | Violation

  predicate ActiveWithin(jobs: Table, monitor: string, region: string, from: Time, to: Time) {
    exists r :: r in jobs && jobs[r].monitor == monitor && jobs[r].region == region && jobs[r].Active()
                && from <= jobs[r].at <= to
  }

  /** CreateJobIdempotent. The insert is refused by the primary key or by the partial unique index over active rows. */
  function InsertIfAbsent(jobs: Table, run: RunId, row: Job, from: Time, to: Time): InsertOutcome {
    if ActiveWithin(jobs, row.monitor, row.region, from, to) then Duplicate
    else if run in jobs || ActiveWithin(jobs, row.monitor, row.region, row.at, row.at) then Violation
    else Inserted(jobs[run := row])
  }

  // ---------------------------------------------------------------------------------------------------------------
  // Updates

  function LeaseRows(jobs: Table, chosen: set<RunId>, worker: string, expires: Time): Table {
    map r | r in jobs ::
      if r in chosen then jobs[r].(status := Leased, expires := Some(expires), worker := Some(worker)) else jobs[r]
  }

  function RenewRow(jobs: Table, run: RunId, worker: string, expires: Time): Table {
    if run in jobs && jobs[run].HeldBy(worker) then jobs[run := jobs[run].(expires := Some(expires))] else jobs
  }

  function CompleteRow(jobs: Table, run: RunId, worker: string): Table {
    if run in jobs && jobs[run].HeldBy(worker) then jobs[run := jobs[run].(status := Done, expires := None)] else jobs
  }

  function ReclaimRows(jobs: Table, clock: Time): Table {
    map r | r in jobs ::
      if jobs[r].Expired(clock) then jobs[r].(status := Ready, expires := None, worker := None) else jobs[r]
  }

  function DeleteRows(jobs: Table, chosen: set<RunId>): Table {
    map r | r in jobs && r !in chosen :: jobs[r]
  }

  // ---------------------------------------------------------------------------------------------------------------
  // ORDER BY ... LIMIT

  /** A sort key: exact region before global, then the older row. */
  datatype Rank = Rank(tier: nat, at: Time)

  predicate Before(a: Rank, b: Rank) {
    a.tier < b.tier || (a.tier == b.tier && a.at < b.at)
  }

  type Ranks = map<RunId, Rank>

  function Min(a: nat, b: nat): nat {
    if a < b then a else b
  }

  /** `chosen` is a possible answer of ORDER BY rank LIMIT `limit`; ties may fall either way. */
  ghost predicate IsFirst(ranks: Ranks, limit: nat, chosen: set<RunId>) {
    && chosen <= ranks.Keys
    && |chosen| == Min(limit, |ranks|)
    && forall c, o :: c in chosen && o in ranks && o !in chosen ==> !Before(ranks[o], ranks[c])
  }

  /** The claimable rows that no other transaction has locked, as LeaseJobsWithMonitorData ranks them. */
  function ClaimRanks(jobs: Table, home: string, clock: Time, locked: set<RunId>): Ranks {
    map r | r in jobs && r !in locked && jobs[r].Claimable(home, clock) ::
      Rank(if jobs[r].region == home then 0 else 1, jobs[r].at)
  }

  function CleanRanks(jobs: Table, cutoff: Time): Ranks {
    map r | r in jobs && jobs[r].Cleanable(cutoff) :: Rank(0, jobs[r].at)
  }

  lemma {:induction false} FirstExists(ranks: Ranks, rest: set<RunId>)
    requires rest <= ranks.Keys && rest != {}
    ensures exists b :: b in rest && forall o :: o in rest ==> !Before(ranks[o], ranks[b])
  {
    var x :| x in rest;
    if rest == {x} {
      assert forall o :: o in rest ==> !Before(ranks[o], ranks[x]);
    } else {
      var fewer := rest - {x};
      FirstExists(ranks, fewer);
      var b :| b in fewer && forall o :: o in fewer ==> !Before(ranks[o], ranks[b]);
      var best := if Before(ranks[x], ranks[b]) then x else b;
      assert best in rest && forall o :: o in rest ==> !Before(ranks[o], ranks[best]);
    }
  }

  ghost predicate NoneAhead(ranks: Ranks, rest: set<RunId>, chosen: set<RunId>)
    requires rest <= ranks.Keys && chosen <= ranks.Keys
  {
    forall c, o :: c in chosen && o in rest ==> !Before(ranks[o], ranks[c])
  }

  lemma TakeOne(ranks: Ranks, chosen: set<RunId>, rest: set<RunId>, best: RunId)
    requires chosen !! rest && chosen + rest == ranks.Keys && NoneAhead(ranks, rest, chosen)
    requires best in rest && forall o :: o in rest ==> !Before(ranks[o], ranks[best])
    ensures chosen + {best} !! rest - {best} && chosen + {best} + (rest - {best}) == ranks.Keys
    ensures |chosen + {best}| == |chosen| + 1 && |rest - {best}| == |rest| - 1
    ensures NoneAhead(ranks, rest - {best}, chosen + {best})
  {
  }

  /** Takes rows one by one, each time one that none of the others comes before. */
  method SelectFirst(ranks: Ranks, limit: nat) returns (chosen: set<RunId>)
    ensures IsFirst(ranks, limit, chosen)
  {
    chosen := {};
    var rest := ranks.Keys;
    while |chosen| < limit && rest != {}
      invariant chosen !! rest && chosen + rest == ranks.Keys
      invariant |chosen| + |rest| == |ranks.Keys|
      invariant |chosen| <= limit
      invariant NoneAhead(ranks, rest, chosen)
      decreases rest
    {
      FirstExists(ranks, rest);
      var best :| best in rest && forall o :: o in rest ==> !Before(ranks[o], ranks[best]);
      TakeOne(ranks, chosen, rest, best);
      chosen, rest := chosen + {best}, rest - {best};
    }
    assert rest == {} ==> |rest| == 0;
    assert |ranks| == |ranks.Keys|;
    assert rest == ranks.Keys - chosen;
  }

  /** The rows a poll may lease, column by column: ready, not deleted, due, in the worker's own region or in "global", and
      not locked by another transaction. */
  function OpenRows(jobs: Table, home: string, clock: Time, locked: set<RunId>): set<RunId> {
    set r | r in jobs && r !in locked && jobs[r].status == Ready && !jobs[r].deleted && jobs[r].at <= Stored(clock)
            && jobs[r].region in {home, "global"}
  }

  /** As many open rows as the limit allows, all of the worker's own region before any global one, and within a region kind
      the older ones. */
  ghost predicate BestOpen(jobs: Table, home: string, clock: Time, locked: set<RunId>, limit: nat, chosen: set<RunId>) {
    var open := OpenRows(jobs, home, clock, locked);
    && chosen <= open && |chosen| == Min(limit, |open|)
    && forall c, o :: c in chosen && o in open - chosen ==>
         && (jobs[o].region == home ==> jobs[c].region == home)
         && ((jobs[o].region == home <==> jobs[c].region == home) ==> jobs[c].at <= jobs[o].at)
  }

  /** What a poll leases: the possible choices of its statement are the best open rows. */
  lemma ClaimedAreBest(jobs: Table, home: string, clock: Time, locked: set<RunId>, limit: nat, chosen: set<RunId>)
    ensures IsFirst(ClaimRanks(jobs, home, clock, locked), limit, chosen) <==> BestOpen(jobs, home, clock, locked, limit, chosen)
  {
    var ranks := ClaimRanks(jobs, home, clock, locked);
    assert ranks.Keys == OpenRows(jobs, home, clock, locked);
    assert |ranks| == |ranks.Keys|;
    forall c, o | c in ranks.Keys && o in ranks.Keys
      ensures !Before(ranks[o], ranks[c]) <==>
                && (jobs[o].region == home ==> jobs[c].region == home)
                && ((jobs[o].region == home <==> jobs[c].region == home) ==> jobs[c].at <= jobs[o].at)
    {
    }
  }

  /** A worker of any region gets a ready global job that is due, when its limit covers the open rows. */
  lemma GlobalIsLeased(jobs: Table, home: string, clock: Time, locked: set<RunId>, limit: nat, chosen: set<RunId>, r: RunId)
    requires IsFirst(ClaimRanks(jobs, home, clock, locked), limit, chosen)
    requires |OpenRows(jobs, home, clock, locked)| <= limit
    requires r in jobs && r !in locked && jobs[r].status == Ready && !jobs[r].deleted && jobs[r].at <= Stored(clock)
    requires jobs[r].region == "global" || jobs[r].region == home
    ensures r in chosen
  {
    var open := OpenRows(jobs, home, clock, locked);
    ClaimedAreBest(jobs, home, clock, locked, limit, chosen);
    assert r in open;
    assert open == chosen + (open - chosen);
    assert |open - chosen| == 0 ==> open - chosen == {};
  }

  /** The rows the cleaner may take, column by column. */
  function OverdueRows(jobs: Table, cutoff: Time): set<RunId> {
    set r | r in jobs && jobs[r].status == Done && !jobs[r].deleted && jobs[r].at < cutoff
  }

  /** As many of them as the limit allows, the older ones first. */
  ghost predicate OldestOverdue(jobs: Table, cutoff: Time, limit: nat, chosen: set<RunId>) {
    var overdue := OverdueRows(jobs, cutoff);
    && chosen <= overdue && |chosen| == Min(limit, |overdue|)
    && forall c, o :: c in chosen && o in overdue - chosen ==> jobs[c].at <= jobs[o].at
  }

  /** Exactly these rows are gone, and every other one is as it was. */
  ghost predicate ExactlyGone(before: Table, after: Table, gone: set<RunId>) {
    && (forall r :: r in after ==> r in before && after[r] == before[r])
    && forall r :: r in before ==> (r !in after <==> r in gone)
  }

  /** What a cleaning batch takes: the possible choices of its statement are the oldest overdue rows. */
  lemma CleanedAreOldest(jobs: Table, cutoff: Time, limit: nat, chosen: set<RunId>)
    ensures IsFirst(CleanRanks(jobs, cutoff), limit, chosen) <==> OldestOverdue(jobs, cutoff, limit, chosen)
  {
    var ranks := CleanRanks(jobs, cutoff);
    assert ranks.Keys == OverdueRows(jobs, cutoff);
    assert |ranks| == |ranks.Keys|;
    forall c, o | c in ranks.Keys && o in ranks.Keys ensures !Before(ranks[o], ranks[c]) <==> jobs[c].at <= jobs[o].at {
    }
  }

  lemma SubsetCount<T>(a: set<T>, b: set<T>)
    requires a <= b
    ensures |a| <= |b|
  {
    var d := b - a;
    assert b == a + d;
  }

  /** The same choice by counting: a chosen row has fewer than `limit` rows before it, and a row that fewer than
      `limit` others come before or tie with is always chosen. */
  lemma FirstByCounting(ranks: Ranks, limit: nat, chosen: set<RunId>, r: RunId)
    requires IsFirst(ranks, limit, chosen) && r in ranks
    ensures r in chosen ==> |set o | o in ranks && Before(ranks[o], ranks[r])| < limit
    ensures |set o | o in ranks && o != r && !Before(ranks[r], ranks[o])| < limit ==> r in chosen
  {
    var ahead := set o | o in ranks && Before(ranks[o], ranks[r]);
    var notBehind := set o | o in ranks && o != r && !Before(ranks[r], ranks[o]);
    if r in chosen {
      assert ahead <= chosen - {r};
      SubsetCount(ahead, chosen - {r});
      assert |chosen - {r}| == |chosen| - 1;
    } else {
      forall c | c in chosen ensures c in notBehind {
        assert !Before(ranks[r], ranks[c]);
      }
      SubsetCount(chosen, notBehind);
      SubsetCount(chosen + {r}, ranks.Keys);
    }
  }
}
