/** The cache against its own history: what a hit, a miss and the size bound mean over every run of operations. */
module CacheHistory {
  import opened Wrappers
  import opened Times
  import opened AuthCache

  /** One call, with the clock reading it made; readings need not be in order unless a lemma says so. */
  datatype Op = Get(hash: string, at: Time) | Set(hash: string, worker: string, at: Time) | Invalidate(worker: string)
  {
    predicate Writes(h: string) {
      Set? && hash == h && hash != "" && worker != ""
    }
  }

  ghost predicate Does(lim: Limits, e: Entries, op: Op, e': Entries) {
    match op
    case Get(h, t) => e' == AfterGet(lim, e, h, t)
    case Set(h, w, t) => AfterSet(lim, e, h, w, t, e')
    case Invalidate(w) => e' == AfterInvalidate(lim, e, w)
  }

  ghost predicate IsHistory(lim: Limits, es: seq<Entries>, ops: seq<Op>) {
    && |es| == |ops| + 1
    && es[0] == map[]
    && forall i :: 0 <= i < |ops| ==> Does(lim, es[i], ops[i], es[i + 1])
  }

  /** What the calls alone say about a token: its last write, unless its worker was invalidated since. */
  function Remembered(lim: Limits, ops: seq<Op>, hash: string): Option<Entry> {
    if ops == [] then None
    else
      var op, before := ops[|ops| - 1], Remembered(lim, ops[..|ops| - 1], hash);
      if op.Writes(hash) then Some(Entry(op.worker, op.at + lim.ttl))
      else if op.Invalidate? && before.Some? && before.value.worker == op.worker then None
      else before
  }

  /** Call `i` wrote the token for `entry`, and no later call wrote it again or invalidated that worker. */
  predicate LastWrite(lim: Limits, ops: seq<Op>, hash: string, entry: Entry, i: nat) {
    && i < |ops| && ops[i].Writes(hash) && entry == Entry(ops[i].worker, ops[i].at + lim.ttl)
    && forall j :: i < j < |ops| ==> !ops[j].Writes(hash) && ops[j] != Invalidate(entry.worker)
  }

  lemma {:induction false} RememberedIsLastWrite(lim: Limits, ops: seq<Op>, hash: string, entry: Entry)
    ensures Remembered(lim, ops, hash) == Some(entry) <==> exists i :: LastWrite(lim, ops, hash, entry, i)
  {
    if ops != [] {
      var n := |ops| - 1;
      var op, front := ops[n], ops[..n];
      RememberedIsLastWrite(lim, front, hash, entry);
      if op.Writes(hash) && entry == Entry(op.worker, op.at + lim.ttl) {
        assert LastWrite(lim, ops, hash, entry, n);
      } else if !op.Writes(hash) && op != Invalidate(entry.worker) {
        forall i: nat ensures LastWrite(lim, ops, hash, entry, i) <==> LastWrite(lim, front, hash, entry, i) {
          assert forall j :: 0 <= j < n ==> ops[j] == front[j];
        }
      }
    }
  }

  lemma Prefix(lim: Limits, es: seq<Entries>, ops: seq<Op>)
    requires IsHistory(lim, es, ops) && ops != []
    ensures IsHistory(lim, es[..|ops|], ops[..|ops| - 1])
  {
  }

  lemma {:induction false} EntriesAreRemembered(lim: Limits, es: seq<Entries>, ops: seq<Op>, hash: string)
    requires IsHistory(lim, es, ops)
    ensures hash in es[|ops|] ==>
              lim.On() && es[|ops|][hash].worker != "" && Remembered(lim, ops, hash) == Some(es[|ops|][hash])
  {
    if ops != [] {
      var n := |ops| - 1;
      Prefix(lim, es, ops);
      EntriesAreRemembered(lim, es[..|ops|], ops[..n], hash);
      assert Does(lim, es[n], ops[n], es[n + 1]);
      if hash in es[n + 1] {
        match ops[n]
        case Get(h, t) => assert es[n + 1][hash] == es[n][hash];
        case Set(h, w, t) =>
        case Invalidate(w) => assert es[n + 1][hash] == es[n][hash];
      }
    }
  }

  /** A hit names the worker of the last write of that token, made at most the time to live ago, whose worker was not
      invalidated since. No order of the clock readings is needed. */
  lemma HitIsLastWrite(lim: Limits, es: seq<Entries>, ops: seq<Op>, hash: string, now: Time)
    requires IsHistory(lim, es, ops) && Lookup(lim, es[|ops|], hash, now).Some?
    ensures var worker := Lookup(lim, es[|ops|], hash, now).value;
            exists i: nat, entry :: LastWrite(lim, ops, hash, entry, i) && entry.worker == worker && now - ops[i].at <= lim.ttl
  {
    EntriesAreRemembered(lim, es, ops, hash);
    var entry := es[|ops|][hash];
    RememberedIsLastWrite(lim, ops, hash, entry);
    var i: nat :| LastWrite(lim, ops, hash, entry, i);
  }

  lemma {:induction false} NeverTooMany(lim: Limits, es: seq<Entries>, ops: seq<Op>)
    requires IsHistory(lim, es, ops) && lim.maxEntries >= 1
    ensures |es[|ops|]| <= lim.maxEntries
  {
    if ops != [] {
      var n := |ops| - 1;
      Prefix(lim, es, ops);
      NeverTooMany(lim, es[..|ops|], ops[..n]);
      assert Does(lim, es[n], ops[n], es[n + 1]);
      if !ops[n].Set? || es[n + 1] == es[n] {
        assert es[n + 1].Keys <= es[n].Keys;
        CountKeys(es[n + 1].Keys, es[n].Keys);
      }
    }
  }

  lemma CountKeys(a: set<string>, b: set<string>)
    requires a <= b
    ensures |a| <= |b|
  {
    assert b == a + (b - a);
  }

  ghost predicate NoneShorter(e: Entries, entry: Entry) {
    forall kept :: kept in e ==> entry.expires <= e[kept].expires
  }

  /** The write `i` pushed the token out for lack of room, although nothing that stayed would have lived shorter. */
  ghost predicate PushedOut(lim: Limits, es: seq<Entries>, ops: seq<Op>, hash: string, entry: Entry, i: nat)
    requires |es| == |ops| + 1
  {
    && i < |ops| && ops[i].Set?
    && |Live(Written(lim, es[i], ops[i].hash, ops[i].worker, ops[i].at), ops[i].at)| > lim.maxEntries
    && |es[i + 1]| == lim.maxEntries && hash !in es[i + 1]
    && NoneShorter(es[i + 1], entry)
  }

  predicate Before(ops: seq<Op>, now: Time) {
    forall i :: 0 <= i < |ops| && !ops[i].Invalidate? ==> ops[i].at <= now
  }

  lemma StepLoses(lim: Limits, es: seq<Entries>, ops: seq<Op>, hash: string, entry: Entry, n: nat)
    requires IsHistory(lim, es, ops) && lim.On() && n < |ops| && hash !in es[n + 1]
    requires !ops[n].Invalidate? ==> ops[n].at <= entry.expires
    requires if ops[n].Writes(hash) then entry == Entry(ops[n].worker, ops[n].at + lim.ttl)
             else ops[n] != Invalidate(entry.worker) && hash in es[n] && es[n][hash] == entry
    ensures PushedOut(lim, es, ops, hash, entry, n)
  {
    assert Does(lim, es[n], ops[n], es[n + 1]);
    match ops[n]
    case Get(h, t) =>
    case Set(h, w, t) =>
      var live := Live(Written(lim, es[n], h, w, t), t);
      assert hash in live && live[hash] == entry;
      assert es[n + 1] != live;
      if |live| <= lim.maxEntries {
        SameSize(es[n + 1].Keys, live.Keys);
      }
    case Invalidate(w) =>
  }

  lemma SameSize(a: set<string>, b: set<string>)
    requires a <= b && |a| == |b|
    ensures a == b
  {
    assert b == a + (b - a);
  }

  /** With clock readings in the past, a token that is remembered and not expired misses only because some write
      pushed it out for lack of room. */
  lemma {:induction false} MissIsEviction(lim: Limits, es: seq<Entries>, ops: seq<Op>, hash: string, entry: Entry)
    requires IsHistory(lim, es, ops) && lim.On() && Before(ops, entry.expires)
    requires Remembered(lim, ops, hash) == Some(entry) && hash !in es[|ops|]
    ensures exists i :: PushedOut(lim, es, ops, hash, entry, i)
  {
    var n := |ops| - 1;
    var front, fs := ops[..n], es[..n + 1];
    Prefix(lim, es, ops);
    if ops[n].Writes(hash) || hash in es[n] {
      EntriesAreRemembered(lim, fs, front, hash);
      StepLoses(lim, es, ops, hash, entry, n);
    } else {
      MissIsEviction(lim, fs, front, hash, entry);
      var i: nat :| PushedOut(lim, fs, front, hash, entry, i);
      assert fs[i] == es[i] && fs[i + 1] == es[i + 1] && front[i] == ops[i];
      assert PushedOut(lim, es, ops, hash, entry, i);
    }
  }

  function TokensWritten(ops: seq<Op>): set<string> {
    set i | 0 <= i < |ops| && ops[i].Set? :: ops[i].hash
  }

  lemma {:induction false} KeysWereWritten(lim: Limits, es: seq<Entries>, ops: seq<Op>, n: nat)
    requires IsHistory(lim, es, ops) && n <= |ops|
    ensures es[n].Keys <= TokensWritten(ops)
  {
    if n > 0 {
      KeysWereWritten(lim, es, ops, n - 1);
      assert Does(lim, es[n - 1], ops[n - 1], es[n]);
      if ops[n - 1].Set? {
        assert ops[n - 1].hash in TokensWritten(ops);
      }
    }
  }

  lemma RoomForAll(lim: Limits, es: seq<Entries>, ops: seq<Op>, hash: string, entry: Entry)
    requires IsHistory(lim, es, ops) && |TokensWritten(ops)| <= lim.maxEntries
    ensures !exists i :: PushedOut(lim, es, ops, hash, entry, i)
  {
    forall i: nat | i < |ops| && ops[i].Set? ensures !PushedOut(lim, es, ops, hash, entry, i) {
      KeysWereWritten(lim, es, ops, i);
      assert ops[i].hash in TokensWritten(ops);
      var live := Live(Written(lim, es[i], ops[i].hash, ops[i].worker, ops[i].at), ops[i].at);
      CountKeys(live.Keys, TokensWritten(ops));
      assert |live| == |live.Keys|;
    }
  }

  /** While all tokens in use fit, the bounded cache is exactly its history: a lookup hits if and only if the token is
      remembered and not expired, and then names the remembered worker. */
  lemma ExactWhenAllFit(lim: Limits, es: seq<Entries>, ops: seq<Op>, hash: string, now: Time)
    requires IsHistory(lim, es, ops) && lim.On() && Before(ops, now)
    requires |TokensWritten(ops)| <= lim.maxEntries
    ensures forall w :: Lookup(lim, es[|ops|], hash, now) == Some(w) <==>
              var entry := Remembered(lim, ops, hash); entry.Some? && now <= entry.value.expires && entry.value.worker == w
  {
    EntriesAreRemembered(lim, es, ops, hash);
    var entry := Remembered(lim, ops, hash);
    if entry.Some? {
      RememberedIsLastWrite(lim, ops, hash, entry.value);
      if hash !in es[|ops|] && now <= entry.value.expires {
        MissIsEviction(lim, es, ops, hash, entry.value);
        RoomForAll(lim, es, ops, hash, entry.value);
      }
    }
  }
}
