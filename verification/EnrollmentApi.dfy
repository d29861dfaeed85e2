/** The enrolment service and the token check as they are written, statement by statement, proved to be the calls of the
    enrolment model. */
module EnrollmentApi {
  import opened Wrappers
  import opened Times
  import opened Workers
  import opened AuthCache
  import opened Enrollment
  import opened Tokens
  import Regions

  datatype Reply = Accepted | Unauthenticated | InvalidArgument | NotFound | Internal | AlreadyRevoked

  const BEARER := "Bearer "

  function ParseBearer(header: string): Option<string> {
    if BEARER <= header && WellFormed(header[|BEARER|..]) then Some(header[|BEARER|..]) else None
  }

  /** The header form carries every well-formed token and nothing else. */
  lemma BearerRoundTrip(header: string, token: string)
    ensures ParseBearer(header) == Some(token) <==> header == "Bearer " + token && WellFormed(token)
  {
    if BEARER <= header {
      assert header == BEARER + header[|BEARER|..];
    }
  }

  /** What the two writes of an accepted enrolment leave in the table. */
  lemma AcceptedTable(ws: WorkerTable, id: string, region: string, hostname: string, version: string, clock: Time, hash: string)
    ensures var inserted := Through(Done, ws, ws[id := NewWorker(region, hostname, version, clock)]);
            Through(Done, inserted, WithToken(inserted, id, Some(hash))) ==
            ws[id := Worker(region, hostname, version, Enrolled, Stored(clock), Some(hash), None)]
  {
  }

  class EnrollmentService {
    const registry: Registry
    const cache: WorkerAuthCache
    const clusterToken: string
    const hashOf: string -> string

    constructor (registry: Registry, cache: WorkerAuthCache, clusterToken: string, hashOf: string -> string)
      ensures this.registry == registry && this.cache == cache
      ensures this.clusterToken == clusterToken && this.hashOf == hashOf
    {
      this.registry, this.cache, this.clusterToken, this.hashOf := registry, cache, clusterToken, hashOf;
    }

    ghost function Now(clock: Time): World
      reads registry, cache
    {
      World(clock, registry.workers, cache.entries, {})
    }

    /** `id` and `hash` are the identity and the hash of the token drawn for this call. */
    method EnrollWorker(token: string, hostname: string, version: string, region: string,
                        id: string, hash: string, clock: Time, insert: Write, setToken: Write) returns (reply: Reply)
      requires cache.Valid()
      modifies registry, cache
      ensures cache.Valid()
      ensures reply == Unauthenticated <==> token == "" || (hostname != "" && version != "" && token != clusterToken)
      ensures reply == InvalidArgument <==> token != "" && (hostname == "" || version == "")
      ensures reply == Unauthenticated || reply == InvalidArgument ==> Now(clock) == old(Now(clock))
      ensures reply != Unauthenticated && reply != InvalidArgument ==>
                var row := NewWorker(Regions.Normalize(region), hostname, version, clock);
                && EnrollStep(cache.limits, old(Now(clock)), id, row, hash, insert, setToken, Now(clock))
                && reply == if id !in old(registry.workers) && insert.Done? && setToken.Done? then Accepted else Internal
      ensures reply == Accepted ==>
                registry.workers == old(registry.workers)[id :=
                  Worker(Regions.Normalize(region), hostname, version, Enrolled, Stored(clock), Some(hash), None)]
    {
      AcceptedTable(registry.workers, id, Regions.Normalize(region), hostname, version, clock, hash);
      hide Through, WithToken, NewWorker, AfterSet, AfterInvalidate, Regions.Normalize;
      if token == "" {
        return Unauthenticated;
      }
      if hostname == "" || version == "" {
        return InvalidArgument;
      }
      if token != clusterToken {
        return Unauthenticated;
      }
      var ok := registry.EnrollWorker(id, NewWorker(Regions.Normalize(region), hostname, version, clock), insert);
      if !ok {
        return Internal;
      }
      ok := registry.SetWorkerToken(id, Some(hash), setToken);
      if !ok {
        return Internal;
      }
      cache.InvalidateWorker(id);
      cache.Set(hash, id, clock);
      return Accepted;
    }

    method RenewEnrollment(id: string, hash: string, clock: Time, setToken: Write) returns (reply: Reply)
      requires cache.Valid()
      modifies registry, cache
      ensures cache.Valid()
      ensures RenewStep(cache.limits, old(Now(clock)), id, hash, setToken, Now(clock))
      ensures reply == InvalidArgument <==> id == ""
      ensures reply == NotFound <==> id != "" && id !in old(registry.workers)
      ensures id != "" && id in old(registry.workers) ==>
                reply == if old(registry.workers)[id].status == Revoked then AlreadyRevoked
                         else if setToken.Done? then Accepted
                         else Internal
      ensures reply == Accepted ==>
                registry.workers == old(registry.workers)[id := old(registry.workers)[id].(token := Some(hash))]
    {
      if id == "" {
        return InvalidArgument;
      }
      var row := registry.GetWorkerByID(id);
      if row.None? {
        return NotFound;
      }
      if row.value.status == Revoked {
        return AlreadyRevoked;
      }
      var ok := registry.SetWorkerToken(id, Some(hash), setToken);
      if !ok {
        return Internal;
      }
      cache.InvalidateWorker(id);
      cache.Set(hash, id, clock);
      return Accepted;
    }

    /** A failure to clear the token is logged and passed over. */
    method RevokeEnrollment(id: string, reason: string, clock: Time, clear: Write, revoke: Write) returns (reply: Reply)
      requires cache.Valid()
      modifies registry, cache
      ensures cache.Valid()
      ensures RevokeStep(cache.limits, old(Now(clock)), id, reason, clear, revoke, Now(clock))
      ensures reply == InvalidArgument <==> id == ""
      ensures reply == NotFound <==> id != "" && id !in old(registry.workers)
      ensures id != "" && id in old(registry.workers) ==> reply == if revoke.Done? then Accepted else Internal
      ensures reply == Accepted ==>
                var was := old(registry.workers)[id];
                registry.workers == old(registry.workers)[id := was.(status := Revoked,
                  token := if clear.Refused? then was.token else None, reason := if reason == "" then None else Some(reason))]
    {
      if id == "" {
        return InvalidArgument;
      }
      var row := registry.GetWorkerByID(id);
      if row.None? {
        return NotFound;
      }
      var _ := registry.SetWorkerToken(id, None, clear);
      cache.InvalidateWorker(id);
      var ok := registry.RevokeWorker(id, reason, revoke);
      return if ok then Accepted else Internal;
    }

    /** authenticateWorkerToken. `queried` is whether the lookup, if it comes to one, reaches the table. */
    method Authenticate(header: string, clock: Time, queried: bool) returns (worker: Option<string>)
      requires cache.Valid()
      modifies cache
      ensures cache.Valid()
      ensures ParseBearer(header).None? ==> worker == None && cache.entries == old(cache.entries)
      ensures ParseBearer(header).Some? ==>
                AuthStep(cache.limits, old(Now(clock)), hashOf(ParseBearer(header).value), queried, worker, cache.entries)
    {
      var token := ParseBearer(header);
      if token.None? {
        return None;
      }
      var hash := hashOf(token.value);
      worker := cache.Get(hash, clock);
      if worker.Some? {
        return;
      }
      if !queried {
        return None;
      }
      worker := registry.GetWorkerByTokenHash(hash);
      if worker.Some? {
        cache.Set(hash, worker.value, clock);
      }
    }
  }
}
