/** Heartbeats: which calls write one, how fresh that keeps the worker's row, and how few writes it takes. */
module Heartbeat {
  import opened Wrappers
  import opened Times
  import opened Workers
  import opened Spacing

  type Seen = map<string, Time>

  const DEFAULT_INTERVAL: Time := 15 * SECOND

  function Interval(configured: Time): (interval: Time)
    ensures interval > 0
  {
    if configured <= 0 then DEFAULT_INTERVAL else configured
  }

  /** ShouldUpdate's answer. */
  predicate Due(interval: Time, seen: Seen, id: string, now: Time) {
    id != "" && (interval <= 0 || id !in seen || now - seen[id] >= interval)
  }

  function Asked(interval: Time, seen: Seen, id: string, now: Time): Seen {
    if interval > 0 && Due(interval, seen, id, now) then seen[id := now] else seen
  }

  function Dropped(seen: Seen, id: string): Seen {
    if id == "" then seen else seen - {id}
  }

  class HeartbeatTracker {
    const interval: Time
    var lastSeen: Seen

    constructor (interval: Time)
      ensures this.interval == interval && lastSeen == map[]
    {
      this.interval := interval;
      lastSeen := map[];
    }

    method ShouldUpdate(id: string, now: Time) returns (due: bool)
      modifies this
      ensures due == Due(interval, old(lastSeen), id, now)
      ensures lastSeen == Asked(interval, old(lastSeen), id, now)
    {
      if id == "" {
        return false;
      }
      if interval <= 0 {
        return true;
      }
      if id in lastSeen && now - lastSeen[id] < interval {
        return false;
      }
      lastSeen := lastSeen[id := now];
      return true;
    }

    method Invalidate(id: string)
      modifies this
      ensures lastSeen == Dropped(old(lastSeen), id)
    {
      if id != "" {
        lastSeen := lastSeen - {id};
      }
    }
  }

  /** Tracker and table together. `missed` counts a worker's failed heartbeat writes since the last one that succeeded. */
  datatype Pulse = Pulse(seen: Seen, workers: WorkerTable, missed: map<string, nat>)

  function Missed(p: Pulse, id: string): nat {
    if id in p.missed then p.missed[id] else 0
  }

  /** touchWorkerHeartbeat: write if due, and forget the attempt when the write fails. */
  function Touched(interval: Time, p: Pulse, id: string, now: Time, write: Write): Pulse {
    var asked := Asked(interval, p.seen, id, now);
    if !Due(interval, p.seen, id, now) then p
    else Pulse(
      if write.Done? then asked else Dropped(asked, id),
      Through(write, p.workers, WithHeartbeat(p.workers, id, now)),
      p.missed[id := if write.Done? then 0 else Missed(p, id) + 1])
  }

  /** A call of a worker, or the inactivity monitor. */
  datatype Beat = Touch(id: string, at: Time, write: Write) | Sweep(at: Time)

  function After(interval: Time, p: Pulse, beats: seq<Beat>): Pulse {
    if beats == [] then p
    else
      var before, last := After(interval, p, beats[..|beats| - 1]), beats[|beats| - 1];
      match last
      case Touch(id, at, write) => Touched(interval, before, id, at, write)
      case Sweep(at) => before.(workers := WithInactive(before.workers, at))
  }

  predicate InOrder(start: Time, beats: seq<Beat>) {
    && (forall i :: 0 <= i < |beats| ==> start <= beats[i].at)
    && forall i, j :: 0 <= i <= j < |beats| ==> beats[i].at <= beats[j].at
  }

  /** When the worker was last heard, `start` if never. */
  function LastCall(start: Time, beats: seq<Beat>, id: string): Time {
    if beats == [] then start
    else
      var last := beats[|beats| - 1];
      if last.Touch? && last.id == id then last.at else LastCall(start, beats[..|beats| - 1], id)
  }

  // ---------------------------------------------------------------------------------------------------------------
  // Freshness

  /** The worker is never silent for longer than `g`, up to and including each sweep. */
  ghost predicate Regular(start: Time, beats: seq<Beat>, id: string, g: Time) {
    forall i {:trigger beats[i]} :: 0 <= i < |beats| && (beats[i].Sweep? || beats[i].id == id) ==>
      beats[i].at - LastCall(start, beats[..i], id) <= g
  }

  /** What is known after any number of beats: `last` is the worker's last call. */
  ghost predicate Fresh(interval: Time, p: Pulse, id: string, last: Time, g: Time) {
    && id in p.workers
    && Stored(last - interval - Missed(p, id) * g) <= p.workers[id].lastSeen
    && (id in p.seen ==> Missed(p, id) == 0 && last - p.seen[id] < interval && Stored(p.seen[id]) <= p.workers[id].lastSeen)
  }

  lemma OneMore(n: nat, g: Time)
    ensures (n + 1) * g == n * g + g
  {
  }

  lemma TouchKeepsFresh(interval: Time, p: Pulse, id: string, last: Time, g: Time, at: Time, write: Write)
    requires interval > 0 && id != "" && 0 <= at - last <= g && Fresh(interval, p, id, last, g)
    ensures Fresh(interval, Touched(interval, p, id, at, write), id, at, g)
  {
    var p' := Touched(interval, p, id, at, write);
    OneMore(Missed(p, id), g);
    if !Due(interval, p.seen, id, at) {
      StoredMonotone(at - interval, p.seen[id]);
    } else if write.Refused? {
      StoredMonotone(at - interval - Missed(p', id) * g, last - interval - Missed(p, id) * g);
    } else {
      assert Missed(p', id) * g >= 0;
      StoredMonotone(at - interval - Missed(p', id) * g, at);
    }
  }

  lemma OthersKeepFresh(interval: Time, p: Pulse, id: string, last: Time, g: Time, beat: Beat)
    requires Fresh(interval, p, id, last, g) && (beat.Touch? ==> beat.id != id)
    ensures beat.Touch? ==> Fresh(interval, Touched(interval, p, beat.id, beat.at, beat.write), id, last, g)
    ensures beat.Sweep? ==> Fresh(interval, p.(workers := WithInactive(p.workers, beat.at)), id, last, g)
  {
  }

  lemma PrefixOf(start: Time, beats: seq<Beat>, id: string, g: Time)
    requires beats != [] && InOrder(start, beats) && Regular(start, beats, id, g)
    ensures InOrder(start, beats[..|beats| - 1]) && Regular(start, beats[..|beats| - 1], id, g)
  {
    var front := beats[..|beats| - 1];
    forall i {:trigger front[i]} | 0 <= i < |front| && (front[i].Sweep? || front[i].id == id)
      ensures front[i].at - LastCall(start, front[..i], id) <= g
    {
      assert front[..i] == beats[..i] && front[i] == beats[i];
    }
  }

  lemma {:induction false} LastIsPast(start: Time, beats: seq<Beat>, id: string, at: Time)
    requires start <= at && forall i :: 0 <= i < |beats| ==> beats[i].at <= at
    ensures LastCall(start, beats, id) <= at
  {
    if beats != [] {
      LastIsPast(start, beats[..|beats| - 1], id, at);
    }
  }

  lemma {:induction false} StaysFresh(interval: Time, p: Pulse, start: Time, beats: seq<Beat>, id: string, g: Time)
    requires interval > 0 && id != "" && InOrder(start, beats) && Regular(start, beats, id, g)
    requires Fresh(interval, p, id, start, g)
    ensures Fresh(interval, After(interval, p, beats), id, LastCall(start, beats, id), g)
  {
    if beats != [] {
      var n := |beats| - 1;
      var front, beat := beats[..n], beats[n];
      PrefixOf(start, beats, id, g);
      StaysFresh(interval, p, start, front, id, g);
      hide Fresh, Touched;
      var before := After(interval, p, front);
      if beat.Touch? && beat.id == id {
        LastIsPast(start, front, id, beat.at);
        TouchKeepsFresh(interval, before, id, LastCall(start, front, id), g, beat.at, beat.write);
      } else {
        OthersKeepFresh(interval, before, id, LastCall(start, front, id), g, beat);
      }
    }
  }

  /** A row enrolled at `start`, of a worker the tracker has not seen. */
  ghost predicate JustEnrolled(p: Pulse, id: string, start: Time) {
    id in p.workers && p.workers[id].lastSeen == Stored(start) && id !in p.seen && Missed(p, id) == 0
  }

  lemma BoundByStreak(m: nat, k: nat, g: Time)
    requires m <= k && 0 <= g
    ensures m * g <= k * g
  {
  }

  lemma SweepFinds(interval: Time, p: Pulse, id: string, last: Time, g: Time, k: nat, at: Time)
    requires Fresh(interval, p, id, last, g) && 0 <= g && at - last <= g && Missed(p, id) <= k
    ensures Stored(at - interval - (k + 1) * g) <= p.workers[id].lastSeen
    ensures interval + (k + 1) * g <= INACTIVE_AFTER ==> WithInactive(p.workers, at)[id] == p.workers[id]
  {
    BoundByStreak(Missed(p, id), k, g);
    OneMore(k, g);
    var bound := at - interval - (k + 1) * g;
    StoredMonotone(bound, last - interval - Missed(p, id) * g);
    if interval + (k + 1) * g <= INACTIVE_AFTER {
      StoredMonotone(at - INACTIVE_AFTER, bound);
      StoredSum(at - INACTIVE_AFTER, INACTIVE_AFTER);
    }
  }

  /** A worker never silent for longer than `g`, with at most `k` failed heartbeat writes in a row, has a row that is
      fresher than the interval plus k + 1 silences; when that is within two minutes, no sweep ever changes the row.
      Other workers' calls may run in between. */
  lemma NeverMarkedInactive(interval: Time, p: Pulse, start: Time, beats: seq<Beat>, id: string, g: Time, k: nat,
                        i: nat)
    requires interval > 0 && id != "" && 0 <= g && InOrder(start, beats) && Regular(start, beats, id, g)
    requires JustEnrolled(p, id, start) && i < |beats| && beats[i].Sweep?
    requires Missed(After(interval, p, beats[..i]), id) <= k
    ensures var before := After(interval, p, beats[..i]).workers;
            && id in before && Stored(beats[i].at - interval - (k + 1) * g) <= before[id].lastSeen
            && (interval + (k + 1) * g <= INACTIVE_AFTER ==> WithInactive(before, beats[i].at)[id] == before[id])
  {
    var front, at := beats[..i], beats[i].at;
    PrefixTo(start, beats, id, g, i);
    StoredMonotone(start - interval, start);
    StaysFresh(interval, p, start, front, id, g);
    hide Fresh, After, WithInactive;
    assert at - LastCall(start, front, id) <= g;
    SweepFinds(interval, After(interval, p, front), id, LastCall(start, front, id), g, k, at);
  }

  lemma {:induction false} PrefixTo(start: Time, beats: seq<Beat>, id: string, g: Time, i: nat)
    requires i <= |beats| && InOrder(start, beats) && Regular(start, beats, id, g)
    ensures InOrder(start, beats[..i]) && Regular(start, beats[..i], id, g)
    decreases |beats|
  {
    if i < |beats| {
      PrefixOf(start, beats, id, g);
      PrefixTo(start, beats[..|beats| - 1], id, g, i);
      assert beats[..|beats| - 1][..i] == beats[..i];
    } else {
      assert beats[..i] == beats;
    }
  }

  // ---------------------------------------------------------------------------------------------------------------
  // Rate

  /** The last beat is a call of the worker that tries to write its heartbeat. */
  ghost predicate Attempts(interval: Time, p: Pulse, beats: seq<Beat>, id: string) {
    && beats != [] && beats[|beats| - 1].Touch? && beats[|beats| - 1].id == id
    && Due(interval, After(interval, p, beats[..|beats| - 1]).seen, id, beats[|beats| - 1].at)
  }

  /** When the worker's acknowledged heartbeat writes happened. */
  ghost function WriteTimes(interval: Time, p: Pulse, beats: seq<Beat>, id: string): seq<Time> {
    if beats == [] then []
    else
      var before, last := WriteTimes(interval, p, beats[..|beats| - 1], id), beats[|beats| - 1];
      if Attempts(interval, p, beats, id) && last.write.Done? then before + [last.at] else before
  }

  /** Since the last acknowledged write the tracker either remembers it or has seen a due attempt fail. */
  ghost predicate Remembers(interval: Time, seen: Seen, id: string, times: seq<Time>, now: Time) {
    times != [] ==>
      var t := times[|times| - 1];
      t <= now && (if id in seen then seen[id] == t else t + interval <= now)
  }

  /** Acknowledged heartbeat writes of one worker are at least the interval apart, whatever fails in between. */
  lemma {:induction false} WritesSpaced(interval: Time, p: Pulse, start: Time, beats: seq<Beat>, id: string)
    requires interval > 0 && InOrder(start, beats)
    ensures Spaced(WriteTimes(interval, p, beats, id), interval)
    ensures beats != [] ==> Remembers(interval, After(interval, p, beats).seen, id, WriteTimes(interval, p, beats, id), beats[|beats| - 1].at)
    ensures beats == [] ==> WriteTimes(interval, p, beats, id) == []
  {
    if beats != [] {
      WritesSpaced(interval, p, start, beats[..|beats| - 1], id);
    }
  }

  /** So a window of length `length` holds at most length / interval + 1 of them. */
  lemma FewWrites(interval: Time, p: Pulse, start: Time, beats: seq<Beat>, id: string, length: Time, i: nat, j: nat)
    requires interval > 0 && InOrder(start, beats)
    requires i <= j < |WriteTimes(interval, p, beats, id)|
    requires WriteTimes(interval, p, beats, id)[j] - WriteTimes(interval, p, beats, id)[i] <= length
    ensures j - i + 1 <= length / interval + 1
  {
    WritesSpaced(interval, p, start, beats, id);
    WindowHolds(WriteTimes(interval, p, beats, id), interval, length, i, j);
  }
}
