/** The timing of lease renewals, and that renewals in time keep the lease. */
module Renewal {
  import opened Wrappers
  import opened Times
  import opened Jobs
  import opened Protocol
  import opened Leases

  const TRY_TIMEOUT: Time := 5 * SECOND
  const REFRESH_TIMEOUT: Time := 10 * SECOND

  datatype Reply = Renewed | Declined | Unauthenticated | Failed

  /** One request: when it was sent, when its handler read the clock and its statement ran, when its reply or time-out
      came. */
  datatype Request = Request(sent: Time, read: Time, served: Time, done: Time, reply: Reply)

  /** One turn of the loop: the tick it woke up at, its first request, and what follows an unauthenticated one. */
  datatype Turn = Turn(tick: Time, first: Request, refreshed: bool, refreshDone: Time, again: Request)

  predicate InTime(r: Request) {
    r.sent <= r.read <= r.served <= r.done <= r.sent + TRY_TIMEOUT
  }

  /** The deadlines of the contexts the loop makes. */
  predicate Timely(t: Turn) {
    && t.first.sent == t.tick && InTime(t.first)
    && t.first.done <= t.refreshDone <= t.first.done + REFRESH_TIMEOUT
    && t.again.sent == t.refreshDone && InTime(t.again)
  }

  predicate Retries(t: Turn) {
    t.first.reply == Unauthenticated && t.refreshed
  }

  function Last(t: Turn): Request {
    if Retries(t) then t.again else t.first
  }

  /** A ticker of period `interval` has a tick ready no later than one period after the last one was taken; a late reader
      finds it waiting. */
  predicate Ticks(interval: Time, before: Turn, after: Turn) {
    && Last(before).done <= after.tick
    && after.tick <= Larger(Last(before).done, before.tick + interval)
  }

  function Larger(a: Time, b: Time): Time {
    if a < b then b else a
  }

  function RenewalGap(interval: Time): Time {
    Larger(interval, TRY_TIMEOUT) + 2 * TRY_TIMEOUT + REFRESH_TIMEOUT
  }

  /** From the clock reading of one turn's handler to the statement of the next one's, and so between the statements. */
  lemma GapBetween(interval: Time, before: Turn, after: Turn)
    requires Timely(before) && Timely(after) && Ticks(interval, before, after) && interval > 0
    ensures Last(after).served - Last(before).read <= RenewalGap(interval)
    ensures RenewalGap(interval) == if interval < 5 * SECOND then 25 * SECOND else interval + 20 * SECOND
    ensures Last(before).read <= Last(after).read
  {
  }

  function Answered(sent: Time, read: Time, served: Time, reply: Reply): Request {
    Request(sent, read, served, sent + TRY_TIMEOUT, reply)
  }

  /** And the bound is reached: a first turn served at once, and a second one that comes late and needs a new token. */
  lemma GapReached(interval: Time) returns (before: Turn, after: Turn)
    requires interval > 0
    ensures Timely(before) && Timely(after) && Ticks(interval, before, after)
    ensures Last(before).reply == Renewed && Last(after).reply == Renewed
    ensures Last(after).served - Last(before).served == if interval < 5 * SECOND then 25 * SECOND else interval + 20 * SECOND
  {
    before := Turn(0, Answered(0, 0, 0, Renewed), false, TRY_TIMEOUT, Answered(TRY_TIMEOUT, TRY_TIMEOUT, TRY_TIMEOUT, Failed));
    var tick := Larger(interval, TRY_TIMEOUT);
    var again := tick + TRY_TIMEOUT + REFRESH_TIMEOUT;
    after := Turn(tick, Answered(tick, tick, tick, Unauthenticated), true, again,
                  Answered(again, again + TRY_TIMEOUT, again + TRY_TIMEOUT, Renewed));
  }

  /** The turns the loop got through, as the server saw them. */
  ghost predicate IsTrace(interval: Time, turns: seq<Turn>) {
    && (forall i :: 0 <= i < |turns| ==> Timely(turns[i]))
    && forall i :: 0 < i < |turns| ==> Ticks(interval, turns[i - 1], turns[i])
  }

  lemma TraceGaps(interval: Time, turns: seq<Turn>)
    requires interval > 0 && IsTrace(interval, turns)
    ensures forall i :: 0 < i < |turns| ==> Last(turns[i]).served - Last(turns[i - 1]).read <= RenewalGap(interval)
  {
    forall i | 0 < i < |turns| ensures Last(turns[i]).served - Last(turns[i - 1]).read <= RenewalGap(interval) {
      GapBetween(interval, turns[i - 1], turns[i]);
    }
  }

  // ---------------------------------------------------------------------------------------------------------------
  // Keeping the lease

  /** The steps whose handler reads the clock for an expiry. */
  predicate HasReading(step: Step) {
    step.LeaseJobs? || step.RenewLease?
  }

  /** The steps at `ps` are a lease of `r` to `w` and then renewals by `w`, the statement of each at most `gap` after the
      clock reading of the one before. */
  ghost predicate KeepsAsking(ss: seq<State>, steps: seq<Step>, w: string, r: RunId, ps: seq<nat>, gap: Time) {
    && |ss| == |steps| + 1 && ps != [] && (forall j :: 0 <= j < |ps| ==> ps[j] < |steps|)
    && HasReading(steps[ps[0]])
    && Grants(ss[ps[0]], steps[ps[0]], w, r, steps[ps[0]].readAt)
    && forall j {:trigger ps[j]} :: 0 < j < |ps| ==> Follows(ss, steps, w, r, ps[j - 1], ps[j], gap)
  }

  /** Step `q` is a renewal whose statement runs at most `gap` after the reading of step `p`. */
  ghost predicate Follows(ss: seq<State>, steps: seq<Step>, w: string, r: RunId, p: nat, q: nat, gap: Time)
    requires |ss| == |steps| + 1
  {
    p < q < |steps| && HasReading(steps[p]) && Renews(steps[q], w, r) && ss[q].clock - steps[p].readAt <= gap
  }

  /** The handlers of the worker's renewals after step `p` read the clock no earlier than that step's handler. */
  ghost predicate ReadsNoEarlier(steps: seq<Step>, w: string, r: RunId, p: nat, k: nat)
    requires p < |steps| && HasReading(steps[p])
  {
    forall q: nat {:trigger steps[q]} :: p < q < k && q < |steps| && Renews(steps[q], w, r) ==> steps[p].readAt <= steps[q].readAt
  }

  lemma KeepsAskingBefore(ss: seq<State>, steps: seq<Step>, w: string, r: RunId, ps: seq<nat>, gap: Time)
    requires KeepsAsking(ss, steps, w, r, ps, gap) && |ps| > 1
    ensures KeepsAsking(ss, steps, w, r, ps[..|ps| - 1], gap)
    ensures Follows(ss, steps, w, r, ps[|ps| - 2], ps[|ps| - 1], gap)
  {
    hide Follows, Grants;
    var front := ps[..|ps| - 1];
    assert forall j :: 0 <= j < |front| ==> front[j] == ps[j];
    assert Follows(ss, steps, w, r, ps[|ps| - 1 - 1], ps[|ps| - 1], gap);
  }

  lemma {:induction false} Ordered(ss: seq<State>, steps: seq<Step>, w: string, r: RunId, ps: seq<nat>, gap: Time)
    requires KeepsAsking(ss, steps, w, r, ps, gap)
    ensures ps[0] <= ps[|ps| - 1] && HasReading(steps[ps[|ps| - 1]])
  {
    if |ps| > 1 {
      KeepsAskingBefore(ss, steps, w, r, ps, gap);
      Ordered(ss, steps, w, r, ps[..|ps| - 1], gap);
    }
  }

  lemma NoneEarlierAfter(c: Config, ss: seq<State>, steps: seq<Step>, w: string, r: RunId, p: nat, k: nat)
    requires p < |steps| && HasReading(steps[p]) && ReadsNoEarlier(steps, w, r, p, k)
    ensures NoneEarlier(c, ss, steps, w, r, steps[p].readAt, p, k)
  {
    forall q: nat {:trigger steps[q]} | p < q < k && q < |steps| && Renews(steps[q], w, r)
      ensures NotEarlier(c, steps[q], steps[p].readAt)
    {
      StoredMonotone(steps[p].readAt + c.lease, steps[q].readAt + c.lease);
    }
  }

  /** Renewals whose statements run within a lease duration of the reading before each find the job still leased to the
      worker, or completed by it: no reclaim takes it, and it stays leased for a lease duration from the last reading. Late
      handlers, of this worker or of others, are allowed for; only the order of this worker's readings matters. */
  lemma {:induction false} RenewalsKeepLease(c: Config, ss: seq<State>, steps: seq<Step>, w: string, r: RunId,
                        ps: seq<nat>,
                           gap: Time, k: nat)
    requires IsRun(c, ss, steps) && KeepsAsking(ss, steps, w, r, ps, gap) && gap <= c.lease
    requires forall j :: 0 <= j < |ps| ==> HasReading(steps[ps[j]]) && ReadsNoEarlier(steps, w, r, ps[j], k)
    requires ps[|ps| - 1] < k < |ss| && ss[k].clock <= steps[ps[|ps| - 1]].readAt + c.lease
    ensures Holds(ss[k], w, r, steps[ps[|ps| - 1]].readAt + c.lease) || CompletedBetween(ss, steps, w, r, ps[0], k)
    decreases |ps|
  {
    hide Apply, Enabled, Grants, Completes, Holds, IsRun, CompletedBetween, NoneEarlier;
    var last := ps[|ps| - 1];
    NoneEarlierAfter(c, ss, steps, w, r, last, k);
    if |ps| == 1 {
      LeaseSafety(c, ss, steps, w, r, steps[last].readAt, last, k);
    } else {
      var front := ps[..|ps| - 1];
      KeepsAskingBefore(ss, steps, w, r, ps, gap);
      Ordered(ss, steps, w, r, front, gap);
      var before := ps[|ps| - 2];
      forall j | 0 <= j < |front|
        ensures HasReading(steps[front[j]]) && ReadsNoEarlier(steps, w, r, front[j], last)
      {
        assert front[j] == ps[j];
      }
      RenewalsKeepLease(c, ss, steps, w, r, front, gap, last);
      OneMoreRenewal(c, ss, steps, w, r, ps[0], last, steps[before].readAt + c.lease, k);
    }
  }

  lemma GrantedAgain(c: Config, ss: seq<State>, steps: seq<Step>, w: string, r: RunId, last: nat, until: Time, k: nat)
    requires IsRun(c, ss, steps) && last < k < |ss| && Renews(steps[last], w, r)
    requires NoneEarlier(c, ss, steps, w, r, steps[last].readAt, last, k)
    requires Holds(ss[last], w, r, until) && ss[k].clock <= steps[last].readAt + c.lease
    ensures Holds(ss[k], w, r, steps[last].readAt + c.lease) || CompletedBetween(ss, steps, w, r, last, k)
  {
    RenewalGrants(ss[last], steps[last], w, r, until);
    hide *;
    LeaseSafety(c, ss, steps, w, r, steps[last].readAt, last, k);
  }

  lemma OneMoreRenewal(c: Config, ss: seq<State>, steps: seq<Step>, w: string, r: RunId, first: nat, last: nat,
                       until: Time, k: nat)
    requires IsRun(c, ss, steps) && first <= last < k < |ss| && Renews(steps[last], w, r)
    requires NoneEarlier(c, ss, steps, w, r, steps[last].readAt, last, k)
    requires Holds(ss[last], w, r, until) || CompletedBetween(ss, steps, w, r, first, last)
    requires ss[k].clock <= steps[last].readAt + c.lease
    ensures Holds(ss[k], w, r, steps[last].readAt + c.lease) || CompletedBetween(ss, steps, w, r, first, k)
  {
    assert |ss| == |steps| + 1 && steps[last].RenewLease?;
    hide *;
    LaterToo(ss, steps, w, r, first, first, last, k);
    LaterToo(ss, steps, w, r, first, last, k, k);
    if !CompletedBetween(ss, steps, w, r, first, last) {
      GrantedAgain(c, ss, steps, w, r, last, until, k);
    }
  }

  lemma RenewalGrants(s: State, step: Step, w: string, r: RunId, until: Time)
    requires Holds(s, w, r, until) && Renews(step, w, r)
    ensures Grants(s, step, w, r, step.readAt)
  {
  }

  lemma LaterToo(ss: seq<State>, steps: seq<Step>, w: string, r: RunId, i0: nat, i: nat, k: nat, k1: nat)
    requires i0 <= i && k <= k1
    ensures CompletedBetween(ss, steps, w, r, i, k) ==> CompletedBetween(ss, steps, w, r, i0, k1)
  {
    hide Completes;
    if CompletedBetween(ss, steps, w, r, i, k) {
      var p :| i <= p < k && p < |steps| && p < |ss| && Completes(ss[p], steps[p], w, r);
      assert i0 <= p < k1 && Completes(ss[p], steps[p], w, r);
    }
  }

  // ---------------------------------------------------------------------------------------------------------------
  // The loop

  /** Request `j` of the loop is what the server runs at step `ps[j + 1]`; step `ps[0]` is the lease it started from. */
  ghost predicate Serves(ss: seq<State>, steps: seq<Step>, w: string, r: RunId, turns: seq<Turn>, ps: seq<nat>) {
    && |ss| == |steps| + 1 && |ps| == |turns| + 1 && (forall j :: 0 <= j < |ps| ==> ps[j] < |steps|)
    && steps[ps[0]].LeaseJobs?
    && Grants(ss[ps[0]], steps[ps[0]], w, r, steps[ps[0]].readAt)
    && (turns != [] ==> steps[ps[0]].readAt <= turns[0].tick)
    && forall j {:trigger ps[j]} :: 0 < j < |ps| ==>
         && ps[j - 1] < ps[j]
         && Renews(steps[ps[j]], w, r)
         && steps[ps[j]].readAt == Last(turns[j - 1]).read && ss[ps[j]].clock == Last(turns[j - 1]).served
  }

  /** The server runs no other renewal of the job by the worker. */
  ghost predicate OnlyThese(steps: seq<Step>, w: string, r: RunId, ps: seq<nat>, k: nat)
    requires ps != []
  {
    forall q: nat {:trigger steps[q]} :: ps[0] < q < k && q < |steps| && Renews(steps[q], w, r) ==>
      exists j :: 0 < j < |ps| && ps[j] == q
  }

  lemma ServedInTime(ss: seq<State>, steps: seq<Step>, w: string, r: RunId, interval: Time, turns: seq<Turn>,
                     ps: seq<nat>, j: nat)
    requires interval > 0 && IsTrace(interval, turns) && Serves(ss, steps, w, r, turns, ps) && 1 < j < |ps|
    ensures Renews(steps[ps[j - 1]], w, r) && ss[ps[j]].clock - steps[ps[j - 1]].readAt <= RenewalGap(interval)
  {
    hide Timely, Ticks, Last, RenewalGap;
    GapBetween(interval, turns[j - 2], turns[j - 1]);
    assert ss[ps[j]].clock == Last(turns[j - 1]).served && steps[ps[j - 1]].readAt == Last(turns[j - 2]).read;
  }

  lemma {:induction false} ReadingsOrdered(ss: seq<State>, steps: seq<Step>, w: string, r: RunId, interval: Time,
                           turns: seq<Turn>, ps: seq<nat>, i: nat, j: nat)
    requires interval > 0 && IsTrace(interval, turns) && Serves(ss, steps, w, r, turns, ps) && i <= j < |ps|
    ensures HasReading(steps[ps[i]]) && HasReading(steps[ps[j]])
    ensures steps[ps[i]].readAt <= steps[ps[j]].readAt && ps[i] <= ps[j]
  {
    assert i > 0 ==> Renews(steps[ps[i]], w, r);
    if i < j {
      ReadingsOrdered(ss, steps, w, r, interval, turns, ps, i, j - 1);
      assert Renews(steps[ps[j]], w, r);
      if j > 1 {
        GapBetween(interval, turns[j - 2], turns[j - 1]);
        assert steps[ps[j - 1]].readAt == Last(turns[j - 2]).read;
      }
    }
  }

  lemma LoopReadsInOrder(ss: seq<State>, steps: seq<Step>, w: string, r: RunId, interval: Time, turns: seq<Turn>,
                         ps: seq<nat>, k: nat, j: nat)
    requires interval > 0 && IsTrace(interval, turns) && Serves(ss, steps, w, r, turns, ps) && OnlyThese(steps, w, r, ps, k)
    requires j < |ps|
    ensures HasReading(steps[ps[j]]) && ReadsNoEarlier(steps, w, r, ps[j], k)
  {
    ReadingsOrdered(ss, steps, w, r, interval, turns, ps, 0, j);
    forall q: nat {:trigger steps[q]} | ps[j] < q < k && q < |steps| && Renews(steps[q], w, r)
      ensures steps[ps[j]].readAt <= steps[q].readAt
    {
      var i :| 0 < i < |ps| && ps[i] == q;
      if j <= i {
        ReadingsOrdered(ss, steps, w, r, interval, turns, ps, j, i);
      } else {
        ReadingsOrdered(ss, steps, w, r, interval, turns, ps, i, j);
      }
    }
  }

  /** So a worker whose loop keeps running keeps its lease when the renewal gap fits into the lease duration and its first
      request comes in time, however late any handler runs. */
  lemma LoopKeepsLease(c: Config, ss: seq<State>, steps: seq<Step>, w: string, r: RunId, interval: Time,
                       turns: seq<Turn>, ps: seq<nat>, k: nat)
    requires IsRun(c, ss, steps) && interval > 0 && RenewalGap(interval) <= c.lease
    requires IsTrace(interval, turns) && Serves(ss, steps, w, r, turns, ps) && OnlyThese(steps, w, r, ps, k)
    requires turns != [] ==> Last(turns[0]).served - steps[ps[0]].readAt <= c.lease
    requires HasReading(steps[ps[|ps| - 1]])
    requires ps[|ps| - 1] < k < |ss| && ss[k].clock <= steps[ps[|ps| - 1]].readAt + c.lease
    ensures Holds(ss[k], w, r, steps[ps[|ps| - 1]].readAt + c.lease) || CompletedBetween(ss, steps, w, r, ps[0], k)
  {
    hide Apply, Enabled, Grants, Completes, Holds, IsRun, IsTrace, RenewalGap, CompletedBetween, ReadsNoEarlier, OnlyThese, Last;
    LoopKeepsAsking(c, ss, steps, w, r, interval, turns, ps);
    forall j | 0 <= j < |ps| ensures HasReading(steps[ps[j]]) && ReadsNoEarlier(steps, w, r, ps[j], k) {
      LoopReadsInOrder(ss, steps, w, r, interval, turns, ps, k, j);
    }
    hide Serves, KeepsAsking;
    RenewalsKeepLease(c, ss, steps, w, r, ps, c.lease, k);
  }

  lemma LoopKeepsAsking(c: Config, ss: seq<State>, steps: seq<Step>, w: string, r: RunId, interval: Time,
                        turns: seq<Turn>,
                        ps: seq<nat>)
    requires interval > 0 && RenewalGap(interval) <= c.lease && IsTrace(interval, turns) && Serves(ss, steps, w, r, turns, ps)
    requires turns != [] ==> Last(turns[0]).served - steps[ps[0]].readAt <= c.lease
    ensures KeepsAsking(ss, steps, w, r, ps, c.lease)
  {
    hide Grants, IsTrace, RenewalGap, Last;
    forall j {:trigger ps[j]} | 0 < j < |ps|
      ensures Follows(ss, steps, w, r, ps[j - 1], ps[j], c.lease)
    {
      if j > 1 {
        ServedInTime(ss, steps, w, r, interval, turns, ps, j);
      }
    }
  }
}
