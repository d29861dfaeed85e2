/** The cached token lookup against the uncached one: when they agree, exactly what breaks the agreement, and how long a
    broken one can last. */
module Agreement {
  import opened Wrappers
  import opened Times
  import opened Workers
  import opened AuthCache
  import opened Enrollment

  ghost predicate TokensDistinct(ws: WorkerTable) {
    forall a, b :: a in ws && b in ws && ws[a].token.Some? && ws[a].token == ws[b].token ==> a == b
  }

  ghost predicate TokensIssued(ws: WorkerTable, issued: set<string>) {
    forall a :: a in ws && ws[a].token.Some? ==> ws[a].token.value in issued
  }

  /** Every entry that has not expired is what the table says, and every cached token was issued. */
  ghost predicate EntriesAgree(ws: WorkerTable, e: Entries, clock: Time, issued: set<string>) {
    forall h :: h in e ==> h in issued && (clock <= e[h].expires ==> Bears(ws, e[h].worker, h))
  }

  ghost predicate Agreeing(s: World) {
    && TokensDistinct(s.workers) && TokensIssued(s.workers, s.issued) && "" !in s.issued
    && EntriesAgree(s.workers, s.cache, s.clock, s.issued)
  }

  /** A lookup that hits answers exactly what the table would have answered. */
  ghost predicate HitsAgree(lim: Limits, s: World) {
    forall h :: Lookup(lim, s.cache, h, s.clock).Some? ==>
      forall answer :: IsLookup(s.workers, h, answer) <==> answer == Lookup(lim, s.cache, h, s.clock)
  }

  lemma AgreeingHits(lim: Limits, s: World)
    requires Agreeing(s)
    ensures HitsAgree(lim, s)
  {
    forall h, answer | Lookup(lim, s.cache, h, s.clock).Some?
      ensures IsLookup(s.workers, h, answer) <==> answer == Lookup(lim, s.cache, h, s.clock)
    {
      assert Bears(s.workers, s.cache[h].worker, h);
    }
  }

  /** A renewal whose token write takes effect but is reported as failed, of a worker that can be renewed and that has an
      entry still to expire. */
  ghost predicate Harmful(s: World, call: Call) {
    && call.Renew? && call.setToken.Unacked?
    && call.id in s.workers && s.workers[call.id].status != Revoked
    && exists h :: h in s.cache && s.cache[h].worker == call.id && s.clock <= s.cache[h].expires
  }

  lemma RecachedAgrees(lim: Limits, s: World, id: string, hash: string, s': World)
    requires Agreeing(s) && CachedLive(lim, s) && id != "" && s'.clock == s.clock && s'.issued == s.issued + {hash}
    requires Recached(lim, s.cache, id, hash, s.clock, s'.cache) && Bears(s'.workers, id, hash)
    requires forall x :: x in s.workers && x != id ==> x in s'.workers && s'.workers[x] == s.workers[x]
    ensures EntriesAgree(s'.workers, s'.cache, s'.clock, s'.issued)
  {
    forall h | h in s'.cache
      ensures h in s'.issued && (s'.clock <= s'.cache[h].expires ==> Bears(s'.workers, s'.cache[h].worker, h))
    {
      if lim.On() {
        RecachedOnly(lim, s.cache, id, hash, s.clock, s'.cache, h);
      }
    }
  }

  lemma EnrollTable(lim: Limits, s: World, id: string, row: Worker, hash: string, insert: Write, setToken: Write,
                    s': World)
    requires Agreeing(s) && Next(lim, s, Enroll(id, row, hash, insert, setToken), s')
    ensures TokensDistinct(s'.workers) && TokensIssued(s'.workers, s'.issued)
    ensures forall x :: x in s.workers ==> x in s'.workers && s'.workers[x] == s.workers[x]
    ensures s'.cache != s.cache ==> Bears(s'.workers, id, hash) && Recached(lim, s.cache, id, hash, s.clock, s'.cache)
  {
    hide Recached, EntriesAgree;
  }

  lemma SameEntries(s: World, s': World)
    requires EntriesAgree(s.workers, s.cache, s.clock, s.issued) && s'.cache == s.cache && s.clock <= s'.clock
    requires s.issued <= s'.issued
    requires forall h :: h in s.cache && s.clock <= s.cache[h].expires && Bears(s.workers, s.cache[h].worker, h) ==>
               Bears(s'.workers, s.cache[h].worker, h)
    ensures EntriesAgree(s'.workers, s'.cache, s'.clock, s'.issued)
  {
  }

  lemma EnrollAgrees(lim: Limits, s: World, id: string, row: Worker, hash: string, insert: Write, setToken: Write,
                     s': World)
    requires Agreeing(s) && CachedLive(lim, s) && Next(lim, s, Enroll(id, row, hash, insert, setToken), s')
    ensures Agreeing(s')
  {
    EnrollTable(lim, s, id, row, hash, insert, setToken, s');
    hide TokensDistinct, TokensIssued, EnrollStep, Recached, CachedLive, EntriesAgree;
    if s'.cache != s.cache {
      RecachedAgrees(lim, s, id, hash, s');
    } else {
      SameEntries(s, s');
    }
  }

  /** The table after a renewal: at most that worker's token has changed, to one that was not issued before. */
  lemma RenewTable(lim: Limits, s: World, id: string, hash: string, setToken: Write, s': World)
    requires Agreeing(s) && Next(lim, s, Renew(id, hash, setToken), s')
    ensures TokensDistinct(s'.workers) && TokensIssued(s'.workers, s'.issued)
    ensures forall x :: x in s.workers && x != id ==> x in s'.workers && s'.workers[x] == s.workers[x]
    ensures s'.cache != s.cache || (setToken.Done? && s'.workers != s.workers) ==>
              id != "" && Bears(s'.workers, id, hash) && Recached(lim, s.cache, id, hash, s.clock, s'.cache)
  {
    hide Recached, EntriesAgree;
  }

  lemma RenewAgrees(lim: Limits, s: World, id: string, hash: string, setToken: Write, s': World)
    requires Agreeing(s) && CachedLive(lim, s) && Next(lim, s, Renew(id, hash, setToken), s')
    requires !Harmful(s, Renew(id, hash, setToken))
    ensures Agreeing(s')
  {
    RenewTable(lim, s, id, hash, setToken, s');
    if s'.cache != s.cache || (setToken.Done? && s'.workers != s.workers) {
      RecachedAgrees(lim, s, id, hash, s');
    } else {
      forall h | h in s.cache && s.clock <= s.cache[h].expires && Bears(s.workers, s.cache[h].worker, h)
        ensures Bears(s'.workers, s.cache[h].worker, h)
      {
        if s.cache[h].worker == id {
          assert s'.workers == s.workers;
        }
      }
      SameEntries(s, s');
    }
  }

  lemma RevokeTable(lim: Limits, s: World, id: string, reason: string, clear: Write, revoke: Write, s': World)
    requires Agreeing(s) && Next(lim, s, Revoke(id, reason, clear, revoke), s')
    ensures TokensDistinct(s'.workers) && TokensIssued(s'.workers, s'.issued)
  {
    hide EntriesAgree, AfterInvalidate;
  }

  lemma RevokeAgrees(lim: Limits, s: World, id: string, reason: string, clear: Write, revoke: Write, s': World)
    requires Agreeing(s) && CachedLive(lim, s) && Next(lim, s, Revoke(id, reason, clear, revoke), s')
    ensures Agreeing(s')
  {
    RevokeTable(lim, s, id, reason, clear, revoke, s');
    hide TokensDistinct, TokensIssued;
    forall h | h in s'.cache
      ensures h in s'.issued && (s'.clock <= s'.cache[h].expires ==> Bears(s'.workers, s'.cache[h].worker, h))
    {
      assert h in s.cache && s'.cache[h] == s.cache[h];
    }
  }

  lemma CallTable(lim: Limits, s: World, hash: string, queried: bool, answer: Option<string>, beat: bool,
                  heartbeat: Write,
                  s': World)
    requires Agreeing(s) && Next(lim, s, Authenticated(hash, queried, answer, beat, heartbeat), s')
    ensures TokensDistinct(s'.workers) && TokensIssued(s'.workers, s'.issued)
    ensures answer.Some? ==> Bears(s.workers, answer.value, hash)
    ensures forall x, h :: Bears(s.workers, x, h) ==> Bears(s'.workers, x, h)
  {
  }

  lemma CallAgrees(lim: Limits, s: World, hash: string, queried: bool, answer: Option<string>, beat: bool,
                   heartbeat: Write, s': World)
    requires Agreeing(s) && Next(lim, s, Authenticated(hash, queried, answer, beat, heartbeat), s')
    ensures Agreeing(s')
  {
    CallTable(lim, s, hash, queried, answer, beat, heartbeat, s');
    var kept := AfterGet(lim, s.cache, hash, s.clock);
    hide TokensDistinct;
    forall h | h in s'.cache
      ensures h in s'.issued && (s'.clock <= s'.cache[h].expires ==> Bears(s'.workers, s'.cache[h].worker, h))
    {
      if s'.cache != kept {
        SetAdds(lim, kept, hash, answer.value, s.clock, s'.cache, h);
      }
    }
  }

  lemma TickAgrees(s: World, s': World)
    requires Agreeing(s) && s'.workers == s.workers && s'.cache == s.cache && s'.issued == s.issued && s.clock <= s'.clock
    ensures Agreeing(s')
  {
  }

  lemma SweepAgrees(s: World, s': World)
    requires Agreeing(s) && s' == s.(workers := WithInactive(s.workers, s.clock))
    ensures Agreeing(s')
  {
    forall h | h in s.cache && Bears(s.workers, s.cache[h].worker, h) ensures Bears(s'.workers, s.cache[h].worker, h) {
    }
    SameEntries(s, s');
  }

  lemma StepAgrees(lim: Limits, s: World, call: Call, s': World)
    requires Agreeing(s) && CachedLive(lim, s) && Next(lim, s, call, s') && !Harmful(s, call)
    ensures Agreeing(s')
  {
    hide EnrollStep, RenewStep, CallStep, RevokeStep, Agreeing, CachedLive, Harmful;
    match call
    case Tick(to) => TickAgrees(s, s');
    case Enroll(id, row, hash, insert, setToken) => EnrollAgrees(lim, s, id, row, hash, insert, setToken, s');
    case Renew(id, hash, setToken) => RenewAgrees(lim, s, id, hash, setToken, s');
    case Revoke(id, reason, clear, revoke) => RevokeAgrees(lim, s, id, reason, clear, revoke, s');
    case Authenticated(hash, queried, answer, beat, heartbeat) =>
      CallAgrees(lim, s, hash, queried, answer, beat, heartbeat, s');
    case SweepInactive => SweepAgrees(s, s');
  }

  lemma {:induction false} RunsAgree(lim: Limits, ss: seq<World>, calls: seq<Call>, i: nat)
    requires IsRun(lim, ss, calls) && i < |ss|
    requires forall k :: 0 <= k < i ==> !Harmful(ss[k], calls[k])
    ensures Agreeing(ss[i])
  {
    if i > 0 {
      RunsAgree(lim, ss, calls, i - 1);
      RunsStayLive(lim, ss, calls, i - 1);
      hide Next, Agreeing, CachedLive, Harmful;
      assert Next(lim, ss[i - 1], calls[i - 1], ss[i]);
      assert !Harmful(ss[i - 1], calls[i - 1]);
      StepAgrees(lim, ss[i - 1], calls[i - 1], ss[i]);
    }
  }

  /** Such a renewal breaks the agreement at once. */
  lemma HarmfulBreaks(lim: Limits, s: World, call: Call, s': World)
    requires Agreeing(s) && CachedLive(lim, s) && KnownNames(s) && Next(lim, s, call, s') && Harmful(s, call)
    ensures !HitsAgree(lim, s')
  {
    var id := call.id;
    var h :| h in s.cache && s.cache[h].worker == id && s.clock <= s.cache[h].expires;
    assert Bears(s.workers, id, h) && h != call.hash && h != "";
    assert Lookup(lim, s'.cache, h, s'.clock) == Some(id);
    assert !IsLookup(s'.workers, h, Some(id));
  }

  /** An unacknowledged renewal leaves all hits right exactly when the worker has no entry still to expire. */
  lemma UnackedRenewalBreaksIff(lim: Limits, s: World, id: string, hash: string, s': World)
    requires Agreeing(s) && CachedLive(lim, s) && KnownNames(s) && Next(lim, s, Renew(id, hash, Unacked), s')
    requires id in s.workers && s.workers[id].status != Revoked
    ensures HitsAgree(lim, s') <==> forall h :: h in s.cache && s.cache[h].worker == id ==> s.cache[h].expires < s.clock
  {
    var call := Renew(id, hash, Unacked);
    if Harmful(s, call) {
      HarmfulBreaks(lim, s, call, s');
    } else {
      StepAgrees(lim, s, call, s');
      AgreeingHits(lim, s');
    }
  }

  ghost predicate NoneHarmful(ss: seq<World>, calls: seq<Call>, n: nat)
    requires n <= |calls| && n <= |ss|
  {
    forall k :: 0 <= k < n ==> !Harmful(ss[k], calls[k])
  }

  ghost predicate AllHitsAgree(lim: Limits, ss: seq<World>, n: nat)
    requires n < |ss|
  {
    forall i :: 0 <= i <= n ==> HitsAgree(lim, ss[i])
  }

  lemma {:induction false} FirstHarmful(ss: seq<World>, calls: seq<Call>, n: nat) returns (k: nat)
    requires n <= |calls| && n <= |ss| && !NoneHarmful(ss, calls, n)
    ensures k < n && Harmful(ss[k], calls[k]) && NoneHarmful(ss, calls, k)
  {
    hide Harmful;
    if NoneHarmful(ss, calls, n - 1) {
      k := n - 1;
    } else {
      k := FirstHarmful(ss, calls, n - 1);
    }
  }

  /** Over every run, whatever writes fail: every hit agrees with the table in all states up to the n-th exactly when none of
      the calls before was such a renewal. */
  lemma HitsAgreeIff(lim: Limits, ss: seq<World>, calls: seq<Call>, n: nat)
    requires IsRun(lim, ss, calls) && n < |ss|
    ensures AllHitsAgree(lim, ss, n) <==> NoneHarmful(ss, calls, n)
  {
    hide Next, Agreeing, CachedLive, KnownNames, Harmful, HitsAgree;
    if NoneHarmful(ss, calls, n) {
      forall i | 0 <= i <= n ensures HitsAgree(lim, ss[i]) {
        RunsAgree(lim, ss, calls, i);
        AgreeingHits(lim, ss[i]);
      }
    } else {
      var k := FirstHarmful(ss, calls, n);
      RunsAgree(lim, ss, calls, k);
      RunsStayLive(lim, ss, calls, k);
      assert Next(lim, ss[k], calls[k], ss[k + 1]);
      HarmfulBreaks(lim, ss[k], calls[k], ss[k + 1]);
      assert !HitsAgree(lim, ss[k + 1]);
    }
  }

  /** As long as no such renewal has happened, an authenticated call that reaches the table gets the same answer with the
      cache as it would get without one. */
  lemma CacheIsTransparent(lim: Limits, ss: seq<World>, calls: seq<Call>, j: nat)
    requires IsRun(lim, ss, calls) && j < |calls| && calls[j].Authenticated? && calls[j].queried
    requires NoneHarmful(ss, calls, j)
    ensures forall answer :: IsLookup(ss[j].workers, calls[j].hash, answer) <==> answer == calls[j].answer
  {
    RunsAgree(lim, ss, calls, j);
    AgreeingHits(lim, ss[j]);
    assert Next(lim, ss[j], calls[j], ss[j + 1]);
  }

  // ---------------------------------------------------------------------------------------------------------------
  // A token works until it is replaced or revoked

  /** The row of this worker carries the token and is not revoked. */
  predicate Carries(s: World, id: string, hash: string) {
    id in s.workers && s.workers[id].token == Some(hash) && s.workers[id].status in {Enrolled, Active, Inactive}
  }

  predicate TouchesToken(call: Call, id: string) {
    (call.Renew? || call.Revoke?) && call.id == id
  }

  lemma StepKeepsToken(lim: Limits, s: World, call: Call, s': World, id: string, hash: string)
    requires Next(lim, s, call, s') && Carries(s, id, hash) && !TouchesToken(call, id)
    ensures Carries(s', id, hash)
  {
    hide AfterSet, AfterInvalidate, AuthStep;
  }

  lemma {:induction false} TokenStays(lim: Limits, ss: seq<World>, calls: seq<Call>, i: nat, j: nat, id: string, hash: string)
    requires IsRun(lim, ss, calls) && i <= j < |ss| && Carries(ss[i], id, hash)
    requires forall k :: i <= k < j ==> !TouchesToken(calls[k], id)
    ensures Carries(ss[j], id, hash)
  {
    if i < j {
      hide Next, Carries;
      TokenStays(lim, ss, calls, i, j - 1, id, hash);
      assert Next(lim, ss[j - 1], calls[j - 1], ss[j]);
      StepKeepsToken(lim, ss[j - 1], calls[j - 1], ss[j], id, hash);
    }
  }

  /** A token that the table has for an unrevoked worker authenticates that worker and no other on every later call that
      reaches the table, cached or not and however heartbeats, sweeps and other workers' calls go, until that worker is renewed
      or revoked. */
  lemma TokenWorks(lim: Limits, ss: seq<World>, calls: seq<Call>, i: nat, j: nat, id: string, hash: string)
    requires IsRun(lim, ss, calls) && i <= j < |calls| && NoneHarmful(ss, calls, j)
    requires id in ss[i].workers && ss[i].workers[id].token == Some(hash)
             && ss[i].workers[id].status in {Enrolled, Active, Inactive}
    requires forall k :: i <= k < j && (calls[k].Renew? || calls[k].Revoke?) ==> calls[k].id != id
    requires calls[j].Authenticated? && calls[j].queried
    ensures calls[j].answer == Some(id) <==> calls[j].hash == hash
  {
    TokenStays(lim, ss, calls, i, j, id, hash);
    CacheIsTransparent(lim, ss, calls, j);
    RunsAgree(lim, ss, calls, j);
    assert IsLookup(ss[j].workers, calls[j].hash, calls[j].answer);
  }

  // ---------------------------------------------------------------------------------------------------------------
  // A run that breaks the agreement

  const WORKER: string := "worker"
  const FIRST: string := "first"
  const SECOND_TOKEN: string := "second"

  function FirstEntry(lim: Limits): Entries {
    map[FIRST := Entry(WORKER, lim.ttl)]
  }

  lemma FirstCached(lim: Limits)
    requires lim.On()
    ensures Recached(lim, map[], WORKER, FIRST, 0, FirstEntry(lim))
  {
    assert AfterInvalidate(lim, map[], WORKER) == map[];
    var written := Written(lim, map[], FIRST, WORKER, 0);
    assert written == FirstEntry(lim) && Live(written, 0) == written;
    assert |written| == 1;
  }

  function Holding(row: Worker, hash: string, e: Entries, issued: set<string>): World {
    World(0, map[WORKER := row.(token := Some(hash))], e, issued)
  }

  lemma FirstEnrolled(lim: Limits, row: Worker)
    requires lim.On() && row.status == Enrolled && row.token == None
    ensures Next(lim, World(0, map[], map[], {}), Enroll(WORKER, row, FIRST, Done, Done), Holding(row, FIRST, FirstEntry(lim), {FIRST}))
  {
    FirstCached(lim);
    hide Recached, FirstEntry;
  }

  lemma ThenRenewed(lim: Limits, row: Worker)
    requires row.status == Enrolled
    ensures Next(lim, Holding(row, FIRST, FirstEntry(lim), {FIRST}), Renew(WORKER, SECOND_TOKEN, Unacked),
                 Holding(row, SECOND_TOKEN, FirstEntry(lim), {FIRST, SECOND_TOKEN}))
  {
    hide Recached, FirstEntry;
  }

  lemma EnrollThenRenew(lim: Limits, row: Worker) returns (ss: seq<World>, calls: seq<Call>)
    requires lim.On() && row.status == Enrolled && row.token == None
    ensures IsRun(lim, ss, calls)
    ensures calls == [Enroll(WORKER, row, FIRST, Done, Done), Renew(WORKER, SECOND_TOKEN, Unacked)]
    ensures ss[1] == Holding(row, FIRST, FirstEntry(lim), {FIRST})
  {
    hide Next, FirstEntry, Holding;
    FirstEnrolled(lim, row);
    ThenRenewed(lim, row);
    calls := [Enroll(WORKER, row, FIRST, Done, Done), Renew(WORKER, SECOND_TOKEN, Unacked)];
    ss := [World(0, map[], map[], {}), Holding(row, FIRST, FirstEntry(lim), {FIRST}),
           Holding(row, SECOND_TOKEN, FirstEntry(lim), {FIRST, SECOND_TOKEN})];
    forall i {:trigger calls[i]} | 0 <= i < 2 ensures Next(lim, ss[i], calls[i], ss[i + 1]) {
      assert i == 0 || i == 1;
    }
  }

  /** With any cache that is on: a worker enrols and its renewal is not acknowledged; its old token still hits. */
  lemma OldTokenStillHits(lim: Limits, row: Worker) returns (ss: seq<World>, calls: seq<Call>)
    requires lim.On() && row.status == Enrolled && row.token == None
    ensures IsRun(lim, ss, calls) && |calls| == 2 && Harmful(ss[1], calls[1])
    ensures !AllHitsAgree(lim, ss, 2)
  {
    ss, calls := EnrollThenRenew(lim, row);
    assert FIRST in ss[1].cache && ss[1].cache[FIRST].worker == WORKER;
    assert Harmful(ss[1], calls[1]);
    hide Next, Harmful, HitsAgree;
    HitsAgreeIff(lim, ss, calls, 2);
  }

  // ---------------------------------------------------------------------------------------------------------------
  // However the writes go

  /** At state `i` the table named this worker for the token, and the entry dates from then. */
  ghost predicate NamedAt(lim: Limits, ss: seq<World>, hash: string, entry: Entry, i: nat) {
    i < |ss| && Bears(ss[i].workers, entry.worker, hash) && entry.expires == ss[i].clock + lim.ttl
  }

  lemma NewEntryNamed(lim: Limits, ss: seq<World>, calls: seq<Call>, n: nat, hash: string)
    requires IsRun(lim, ss, calls) && n < |calls| && hash in ss[n + 1].cache
    requires CachedLive(lim, ss[n])
    ensures (hash in ss[n].cache && ss[n].cache[hash] == ss[n + 1].cache[hash])
            || NamedAt(lim, ss, hash, ss[n + 1].cache[hash], n)
            || NamedAt(lim, ss, hash, ss[n + 1].cache[hash], n + 1)
  {
    var s, s' := ss[n], ss[n + 1];
    assert Next(lim, s, calls[n], s');
    match calls[n]
    case Tick(to) =>
    case Enroll(id, row, h, insert, setToken) =>
      if s'.cache != s.cache {
        SetAdds(lim, AfterInvalidate(lim, s.cache, id), h, id, s.clock, s'.cache, hash);
      }
    case Renew(id, h, setToken) =>
      if s'.cache != s.cache {
        SetAdds(lim, AfterInvalidate(lim, s.cache, id), h, id, s.clock, s'.cache, hash);
      }
    case Revoke(id, reason, clear, revoke) =>
    case Authenticated(h, queried, answer, beat, heartbeat) =>
      var kept := AfterGet(lim, s.cache, h, s.clock);
      if s'.cache != kept {
        SetAdds(lim, kept, h, answer.value, s.clock, s'.cache, hash);
      }
    case SweepInactive =>
  }

  lemma {:induction false} EntriesWereNamed(lim: Limits, ss: seq<World>, calls: seq<Call>, n: nat, hash: string)
    requires IsRun(lim, ss, calls) && n < |ss| && hash in ss[n].cache
    ensures exists i: nat :: i <= n && NamedAt(lim, ss, hash, ss[n].cache[hash], i)
  {
    if n > 0 {
      RunsStayLive(lim, ss, calls, n - 1);
      NewEntryNamed(lim, ss, calls, n - 1, hash);
      if hash in ss[n - 1].cache && ss[n - 1].cache[hash] == ss[n].cache[hash] {
        EntriesWereNamed(lim, ss, calls, n - 1, hash);
      }
    }
  }

  /** Whatever writes fail and however, a call is only ever authenticated as a worker that the table named for that token
      at most the time to live ago. */
  lemma StaleAtMostTtl(lim: Limits, ss: seq<World>, calls: seq<Call>, j: nat)
    requires IsRun(lim, ss, calls) && j < |calls| && calls[j].Authenticated? && calls[j].answer.Some?
    ensures exists i :: 0 <= i <= j && Bears(ss[i].workers, calls[j].answer.value, calls[j].hash)
                        && (i == j || ss[j].clock - ss[i].clock <= lim.ttl)
  {
    var hash, s := calls[j].hash, ss[j];
    assert Next(lim, s, calls[j], ss[j + 1]);
    if Lookup(lim, s.cache, hash, s.clock).Some? {
      EntriesWereNamed(lim, ss, calls, j, hash);
      var i: nat :| i <= j && NamedAt(lim, ss, hash, s.cache[hash], i);
    } else {
      assert Bears(s.workers, calls[j].answer.value, hash);
    }
  }
}
