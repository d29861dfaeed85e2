/** Enrolment, renewal and revocation as writers of the worker table and of the auth cache, and the runs they make with
    authenticated calls. */
module Enrollment {
  import opened Wrappers
  import opened Times
  import opened Workers
  import opened AuthCache

  /** One replica: the clock, the table, the cache, and every token hash handed to a write so far. */
  datatype World = World(clock: Time, workers: WorkerTable, cache: Entries, issued: set<string>)

  /** Each call is atomic. The `Write` fields say what became of its statements; `queried` is whether the lookup
      reached the table. */
  datatype Call =
    | Tick(to: Time)
    | Enroll(id: string, row: Worker, hash: string, insert: Write, setToken: Write)
    | Renew(id: string, hash: string, setToken: Write)
    | Revoke(id: string, reason: string, clear: Write, revoke: Write)
    | Authenticated(hash: string, queried: bool, answer: Option<string>, beat: bool, heartbeat: Write)
    | SweepInactive

  predicate IsHash(hash: string) {
    hash != ""
  }

  /** A fresh token replaces whatever the cache knew about the worker. */
  ghost predicate Recached(lim: Limits, e: Entries, id: string, hash: string, clock: Time, e': Entries) {
    AfterSet(lim, AfterInvalidate(lim, e, id), hash, id, clock, e')
  }

  ghost predicate EnrollStep(lim: Limits, s: World, id: string, row: Worker, hash: string, insert: Write,
                        setToken: Write, s': World) {
    var inserted := if id in s.workers then s.workers else Through(insert, s.workers, s.workers[id := row]);
    if id in s.workers || !insert.Done? then
      s'.workers == inserted && s'.cache == s.cache
    else
      && s'.workers == Through(setToken, inserted, WithToken(inserted, id, Some(hash)))
      && if setToken.Done? then Recached(lim, s.cache, id, hash, s.clock, s'.cache) else s'.cache == s.cache
  }

  ghost predicate RenewStep(lim: Limits, s: World, id: string, hash: string, setToken: Write, s': World) {
    if id == "" || id !in s.workers || s.workers[id].status == Revoked then
      s'.workers == s.workers && s'.cache == s.cache
    else
      && s'.workers == Through(setToken, s.workers, WithToken(s.workers, id, Some(hash)))
      && if setToken.Done? then Recached(lim, s.cache, id, hash, s.clock, s'.cache) else s'.cache == s.cache
  }

  /** The revocation goes on when clearing the token fails. */
  ghost predicate RevokeStep(lim: Limits, s: World, id: string, reason: string, clear: Write, revoke: Write,
                        s': World) {
    if id == "" || id !in s.workers then
      s'.workers == s.workers && s'.cache == s.cache
    else
      var cleared := Through(clear, s.workers, WithToken(s.workers, id, None));
      && s'.workers == Through(revoke, cleared, WithRevoked(cleared, id, reason))
      && s'.cache == AfterInvalidate(lim, s.cache, id)
  }

  /** authenticateWorkerToken on a hash: the cache first, then the table, whose answer is cached. */
  ghost predicate AuthStep(lim: Limits, s: World, hash: string, queried: bool, answer: Option<string>, cache: Entries) {
    var kept := AfterGet(lim, s.cache, hash, s.clock);
    match Lookup(lim, s.cache, hash, s.clock)
    case Some(id) => answer == Some(id) && cache == kept
    case None =>
      if queried then
        && IsLookup(s.workers, hash, answer)
        && if answer.Some? then AfterSet(lim, kept, hash, answer.value, s.clock, cache) else cache == kept
      else answer == None && cache == kept
  }

  /** `beat`: whether the call's heartbeat was due for writing. */
  ghost predicate CallStep(lim: Limits, s: World, hash: string, queried: bool, answer: Option<string>, beat: bool,
                        heartbeat: Write, s': World) {
    && AuthStep(lim, s, hash, queried, answer, s'.cache)
    && s'.workers == if answer.Some? && beat
                     then Through(heartbeat, s.workers, WithHeartbeat(s.workers, answer.value, s.clock))
                     else s.workers
  }

  ghost predicate Next(lim: Limits, s: World, call: Call, s': World) {
    match call
    case Tick(to) => s.clock <= to && s' == s.(clock := to)
    case Enroll(id, row, hash, insert, setToken) =>
      && IsHash(hash) && hash !in s.issued && id != "" && row.status == Enrolled && row.token == None
      && s'.clock == s.clock && s'.issued == s.issued + {hash}
      && EnrollStep(lim, s, id, row, hash, insert, setToken, s')
    case Renew(id, hash, setToken) =>
      && IsHash(hash) && hash !in s.issued
      && s'.clock == s.clock && s'.issued == s.issued + {hash}
      && RenewStep(lim, s, id, hash, setToken, s')
    case Revoke(id, reason, clear, revoke) =>
      && s'.clock == s.clock && s'.issued == s.issued
      && RevokeStep(lim, s, id, reason, clear, revoke, s')
    case Authenticated(hash, queried, answer, beat, heartbeat) =>
      && IsHash(hash)
      && s'.clock == s.clock && s'.issued == s.issued
      && CallStep(lim, s, hash, queried, answer, beat, heartbeat, s')
    case SweepInactive => s' == s.(workers := WithInactive(s.workers, s.clock))
  }

  ghost predicate Start(s: World) {
    s.workers == map[] && s.cache == map[] && s.issued == {}
  }

  ghost predicate IsRun(lim: Limits, ss: seq<World>, calls: seq<Call>) {
    && |ss| == |calls| + 1
    && Start(ss[0])
    && forall i {:trigger calls[i]} :: 0 <= i < |calls| ==> Next(lim, ss[i], calls[i], ss[i + 1])
  }

  // ---------------------------------------------------------------------------------------------------------------
  // Facts about the cache operations

  /** After a write of the token, an entry is either the new one or was there before. */
  lemma SetAdds(lim: Limits, e: Entries, hash: string, worker: string, now: Time, e': Entries, h: string)
    requires AfterSet(lim, e, hash, worker, now, e') && h in e'
    ensures (h in e && e'[h] == e[h]) || (lim.On() && h == hash && e'[h] == Entry(worker, now + lim.ttl))
  {
  }

  /** A successful renewal leaves the new token as the only entry of the worker. */
  lemma RecachedOnly(lim: Limits, e: Entries, id: string, hash: string, clock: Time, e': Entries, h: string)
    requires lim.On() && id != "" && Recached(lim, e, id, hash, clock, e') && h in e'
    ensures (h in e && e'[h] == e[h] && e[h].worker != id) || (h == hash && e'[h] == Entry(id, clock + lim.ttl))
  {
    SetAdds(lim, AfterInvalidate(lim, e, id), hash, id, clock, e', h);
  }

  // ---------------------------------------------------------------------------------------------------------------
  // Revocation is for good

  /** Every cached worker is enrolled and not revoked, and a cache that is off stays empty. */
  ghost predicate CachedLive(lim: Limits, s: World) {
    && (!lim.On() ==> s.cache == map[])
    && forall h :: h in s.cache ==> s.cache[h].worker != "" && s.cache[h].worker in s.workers
                                    && s.workers[s.cache[h].worker].status != Revoked
  }

  ghost predicate KnownNames(s: World) {
    "" !in s.workers
  }

  /** No table write but a revocation or a heartbeat changes which workers are revoked. */
  ghost predicate SameRevoked(ws: WorkerTable, ws': WorkerTable) {
    ws.Keys <= ws'.Keys && forall id :: id in ws ==> (ws'[id].status == Revoked <==> ws[id].status == Revoked)
  }

  lemma AuthAnswersLive(lim: Limits, s: World, hash: string, queried: bool, answer: Option<string>, cache: Entries)
    requires CachedLive(lim, s) && AuthStep(lim, s, hash, queried, answer, cache) && answer.Some?
    ensures answer.value in s.workers && s.workers[answer.value].status != Revoked
  {
  }

  lemma EnrollKeepsLive(lim: Limits, s: World, id: string, row: Worker, hash: string, insert: Write, setToken: Write,
                        s': World)
    requires CachedLive(lim, s) && EnrollStep(lim, s, id, row, hash, insert, setToken, s') && id != "" && row.status == Enrolled
    ensures CachedLive(lim, s') && SameRevoked(s.workers, s'.workers)
  {
    forall h | h in s'.cache
      ensures s'.cache[h].worker != "" && s'.cache[h].worker in s'.workers && s'.workers[s'.cache[h].worker].status != Revoked
    {
      if s'.cache != s.cache {
        SetAdds(lim, AfterInvalidate(lim, s.cache, id), hash, id, s.clock, s'.cache, h);
      }
    }
  }

  lemma RenewKeepsLive(lim: Limits, s: World, id: string, hash: string, setToken: Write, s': World)
    requires CachedLive(lim, s) && RenewStep(lim, s, id, hash, setToken, s')
    ensures CachedLive(lim, s') && SameRevoked(s.workers, s'.workers)
  {
    forall h | h in s'.cache
      ensures s'.cache[h].worker != "" && s'.cache[h].worker in s'.workers && s'.workers[s'.cache[h].worker].status != Revoked
    {
      if s'.cache != s.cache {
        SetAdds(lim, AfterInvalidate(lim, s.cache, id), hash, id, s.clock, s'.cache, h);
      }
    }
  }

  lemma RevokeKeepsLive(lim: Limits, s: World, id: string, reason: string, clear: Write, revoke: Write, s': World)
    requires CachedLive(lim, s) && RevokeStep(lim, s, id, reason, clear, revoke, s')
    ensures CachedLive(lim, s')
  {
  }

  lemma CallKeepsLive(lim: Limits, s: World, hash: string, queried: bool, answer: Option<string>, beat: bool,
                      heartbeat: Write, s': World)
    requires CachedLive(lim, s) && KnownNames(s) && CallStep(lim, s, hash, queried, answer, beat, heartbeat, s')
    ensures CachedLive(lim, s') && SameRevoked(s.workers, s'.workers)
  {
    if answer.Some? {
      AuthAnswersLive(lim, s, hash, queried, answer, s'.cache);
    }
    forall h | h in s'.cache
      ensures s'.cache[h].worker != "" && s'.cache[h].worker in s'.workers && s'.workers[s'.cache[h].worker].status != Revoked
    {
      var kept := AfterGet(lim, s.cache, hash, s.clock);
      if s'.cache != kept {
        SetAdds(lim, kept, hash, answer.value, s.clock, s'.cache, h);
      }
    }
  }

  /** One call keeps the cached workers live and takes nobody out of the revoked state. */
  lemma StepKeepsLive(lim: Limits, s: World, call: Call, s': World)
    requires CachedLive(lim, s) && KnownNames(s) && Next(lim, s, call, s')
    ensures CachedLive(lim, s') && KnownNames(s')
    ensures forall id :: id in s.workers ==>
              id in s'.workers && (s.workers[id].status == Revoked ==> s'.workers[id].status == Revoked)
  {
    hide EnrollStep, RenewStep, CallStep, AuthStep, RevokeStep, AfterSet, CachedLive;
    match call
    case Tick(to) => TickKeepsLive(lim, s, s');
    case Enroll(id, row, hash, insert, setToken) =>
      EnrollKeepsLive(lim, s, id, row, hash, insert, setToken, s');
      EnrollKeepsNames(lim, s, id, row, hash, insert, setToken, s');
    case Renew(id, hash, setToken) =>
      RenewKeepsLive(lim, s, id, hash, setToken, s');
      RenewKeepsNames(lim, s, id, hash, setToken, s');
    case Revoke(id, reason, clear, revoke) =>
      RevokeKeepsLive(lim, s, id, reason, clear, revoke, s');
      RevokeKeepsNames(lim, s, id, reason, clear, revoke, s');
    case Authenticated(hash, queried, answer, beat, heartbeat) =>
      CallKeepsLive(lim, s, hash, queried, answer, beat, heartbeat, s');
      CallKeepsNames(lim, s, hash, queried, answer, beat, heartbeat, s');
    case SweepInactive => TickKeepsLive(lim, s, s');
  }

  lemma TickKeepsLive(lim: Limits, s: World, s': World)
    requires CachedLive(lim, s) && s'.cache == s.cache && SameRevoked(s.workers, s'.workers)
    ensures CachedLive(lim, s')
  {
  }

  lemma EnrollKeepsNames(lim: Limits, s: World, id: string, row: Worker, hash: string, insert: Write, setToken: Write,
                        s': World)
    requires KnownNames(s) && EnrollStep(lim, s, id, row, hash, insert, setToken, s') && id != ""
    ensures KnownNames(s')
  {
  }

  lemma RenewKeepsNames(lim: Limits, s: World, id: string, hash: string, setToken: Write, s': World)
    requires KnownNames(s) && RenewStep(lim, s, id, hash, setToken, s')
    ensures KnownNames(s')
  {
  }

  lemma RevokeKeepsNames(lim: Limits, s: World, id: string, reason: string, clear: Write, revoke: Write, s': World)
    requires KnownNames(s) && RevokeStep(lim, s, id, reason, clear, revoke, s')
    ensures s'.workers.Keys == s.workers.Keys
    ensures forall x :: x in s.workers && s.workers[x].status == Revoked ==> s'.workers[x].status == Revoked
  {
  }

  lemma CallKeepsNames(lim: Limits, s: World, hash: string, queried: bool, answer: Option<string>, beat: bool,
                       heartbeat: Write, s': World)
    requires KnownNames(s) && CallStep(lim, s, hash, queried, answer, beat, heartbeat, s')
    ensures KnownNames(s')
  {
  }

  lemma {:induction false} RunsStayLive(lim: Limits, ss: seq<World>, calls: seq<Call>, i: nat)
    requires IsRun(lim, ss, calls) && i < |ss|
    ensures CachedLive(lim, ss[i]) && KnownNames(ss[i])
  {
    if i > 0 {
      RunsStayLive(lim, ss, calls, i - 1);
      hide Next, CachedLive;
      assert Next(lim, ss[i - 1], calls[i - 1], ss[i]);
      StepKeepsLive(lim, ss[i - 1], calls[i - 1], ss[i]);
    }
  }

  /** Once revoked, a worker is revoked for the rest of the run: the heartbeat, which writes 'active' without looking,
      is only ever written for a worker that is not revoked. No write has to succeed for this. */
  lemma {:induction false} RevokedForGood(lim: Limits, ss: seq<World>, calls: seq<Call>, i: nat, j: nat, id: string)
    requires IsRun(lim, ss, calls) && i <= j < |ss|
    requires id in ss[i].workers && ss[i].workers[id].status == Revoked
    ensures id in ss[j].workers && ss[j].workers[id].status == Revoked
    decreases j - i
  {
    if i < j {
      RunsStayLive(lim, ss, calls, i);
      hide Next, CachedLive;
      assert Next(lim, ss[i], calls[i], ss[i + 1]);
      StepKeepsLive(lim, ss[i], calls[i], ss[i + 1]);
      RevokedForGood(lim, ss, calls, i + 1, j, id);
    }
  }

  /** From then on no call is authenticated as that worker, cached or not. */
  lemma RevokedIsRefused(lim: Limits, ss: seq<World>, calls: seq<Call>, i: nat, j: nat, id: string)
    requires IsRun(lim, ss, calls) && i <= j < |calls|
    requires id in ss[i].workers && ss[i].workers[id].status == Revoked
    requires calls[j].Authenticated?
    ensures calls[j].answer != Some(id)
  {
    RevokedForGood(lim, ss, calls, i, j, id);
    RunsStayLive(lim, ss, calls, j);
    var call := calls[j];
    if call.answer.Some? {
      assert Next(lim, ss[j], call, ss[j + 1]);
      AuthAnswersLive(lim, ss[j], call.hash, call.queried, call.answer, ss[j + 1].cache);
    }
  }
}
