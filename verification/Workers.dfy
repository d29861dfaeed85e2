/** The worker table and the statements that change it. */
module Workers {
  import opened Wrappers
  import opened Times

  datatype WorkerStatus = Enrolled | Active | Inactive | Revoked

  datatype Worker = Worker(
    region: string,
    hostname: string,
    version: string,
    status: WorkerStatus,
    lastSeen: Time,
    token: Option<string>,
    reason: Option<string>)

  /** app.workers by its primary key. */
  type WorkerTable = map<string, Worker>

  const INACTIVE_AFTER: Time := 2 * MINUTE

  /** What became of one write: it took effect and was acknowledged, it never took effect, or it took effect and the
      caller was told that it failed. */
  datatype Write = Done | Refused | Unacked

  /** The table after a write that would turn it from `before` into `after`. */
  function Through(write: Write, before: WorkerTable, after: WorkerTable): WorkerTable {
    if write.Refused? then before else after
  }

  function NewWorker(region: string, hostname: string, version: string, clock: Time): Worker {
    Worker(region, hostname, version, Enrolled, Stored(clock), None, None)
  }

  function WithToken(ws: WorkerTable, id: string, token: Option<string>): WorkerTable {
    if id in ws then ws[id := ws[id].(token := token)] else ws
  }

  function WithRevoked(ws: WorkerTable, id: string, reason: string): WorkerTable {
    if id in ws
    then ws[id := ws[id].(status := Revoked, reason := if reason == "" then None else Some(reason))]
    else ws
  }

  /** UpdateWorkerHeartbeat looks at no status. */
  function WithHeartbeat(ws: WorkerTable, id: string, clock: Time): WorkerTable {
    if id in ws then ws[id := ws[id].(lastSeen := Stored(clock), status := Active)] else ws
  }

  predicate Overdue(w: Worker, clock: Time) {
    (w.status == Active || w.status == Enrolled) && w.lastSeen < Stored(clock) - INACTIVE_AFTER
  }

  function WithInactive(ws: WorkerTable, clock: Time): WorkerTable {
    map id | id in ws :: if Overdue(ws[id], clock) then ws[id].(status := Inactive) else ws[id]
  }

  /** A row that GetWorkerByTokenHash may answer with. */
  predicate Bears(ws: WorkerTable, id: string, hash: string) {
    id in ws && ws[id].token == Some(hash) && ws[id].status != Revoked
  }

  ghost predicate IsLookup(ws: WorkerTable, hash: string, answer: Option<string>) {
    match answer
    case Some(id) => Bears(ws, id, hash)
    case None => forall id :: id in ws ==> !Bears(ws, id, hash)
  }

  /** The worker table as the services reach it. `write` says what becomes of the statement. */
  class Registry {
    var workers: WorkerTable

    constructor ()
      ensures workers == map[]
    {
      workers := map[];
    }

    /** The primary key refuses a second row for the same worker, whatever else happens. */
    method EnrollWorker(id: string, row: Worker, write: Write) returns (ok: bool)
      modifies this
      ensures ok <==> write.Done? && id !in old(workers)
      ensures workers == if id in old(workers) then old(workers) else Through(write, old(workers), old(workers)[id := row])
    {
      ok := write.Done? && id !in workers;
      if id !in workers && !write.Refused? {
        workers := workers[id := row];
      }
    }

    method SetWorkerToken(id: string, token: Option<string>, write: Write) returns (ok: bool)
      modifies this
      ensures ok <==> write.Done?
      ensures workers == Through(write, old(workers), WithToken(old(workers), id, token))
      ensures workers == if id in old(workers) && write in {Done, Unacked}
                         then old(workers)[id := old(workers)[id].(token := token)]
                         else old(workers)
    {
      ok := write.Done?;
      if id in workers && !write.Refused? {
        workers := workers[id := workers[id].(token := token)];
      }
    }

    method RevokeWorker(id: string, reason: string, write: Write) returns (ok: bool)
      modifies this
      ensures ok <==> write.Done?
      ensures workers == Through(write, old(workers), WithRevoked(old(workers), id, reason))
      ensures workers == if id in old(workers) && write in {Done, Unacked}
                         then old(workers)[id := old(workers)[id].(status := Revoked,
                                                                   reason := if reason == "" then None else Some(reason))]
                         else old(workers)
    {
      ok := write.Done?;
      if id in workers && !write.Refused? {
        workers := workers[id := workers[id].(status := Revoked, reason := if reason == "" then None else Some(reason))];
      }
    }

    method UpdateWorkerHeartbeat(id: string, clock: Time, write: Write) returns (ok: bool)
      modifies this
      ensures ok <==> write.Done?
      ensures workers == Through(write, old(workers), WithHeartbeat(old(workers), id, clock))
      ensures workers == if id in old(workers) && write in {Done, Unacked}
                         then old(workers)[id := old(workers)[id].(lastSeen := Stored(clock), status := Active)] else old(workers)
    {
      ok := write.Done?;
      if id in workers && !write.Refused? {
        workers := workers[id := workers[id].(lastSeen := Stored(clock), status := Active)];
      }
    }

    method MarkWorkerInactive(clock: Time)
      modifies this
      ensures workers == WithInactive(old(workers), clock)
      ensures workers.Keys == old(workers.Keys)
      ensures forall id :: id in workers ==>
                var was := old(workers)[id];
                workers[id] == if was.status in {Enrolled, Active} && was.lastSeen < Stored(clock) - 120 * SECOND
                               then was.(status := Inactive) else was
    {
      workers := map id | id in workers :: if Overdue(workers[id], clock) then workers[id].(status := Inactive) else workers[id];
    }

    method GetWorkerByTokenHash(hash: string) returns (answer: Option<string>)
      ensures IsLookup(workers, hash, answer)
      ensures answer.Some? ==> answer.value in workers && workers[answer.value].token == Some(hash)
                               && workers[answer.value].status in {Enrolled, Active, Inactive}
      ensures answer.None? ==> forall id :: id in workers && workers[id].token == Some(hash) ==> workers[id].status == Revoked
    {
      if id :| id in workers && Bears(workers, id, hash) {
        answer := Some(id);
      } else {
        answer := None;
      }
    }

    method GetWorkerByID(id: string) returns (row: Option<Worker>)
      ensures row == if id in workers then Some(workers[id]) else None
    {
      row := if id in workers then Some(workers[id]) else None;
    }
  }
}
