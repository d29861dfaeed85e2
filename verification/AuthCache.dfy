/** The worker auth cache: a bounded map with a time to live and an index by worker. */
module AuthCache {
  import opened Wrappers
  import opened Times

  datatype Entry = Entry(worker: string, expires: Time)

  type Entries = map<string, Entry>

  datatype Limits = Limits(ttl: Time, maxEntries: int)
  {
    predicate On() {
      ttl > 0 && maxEntries > 0
    }
  }

  // ---------------------------------------------------------------------------------------------------------------
  // The operations on the entries alone

  function Without(e: Entries, gone: set<string>): Entries {
    map h | h in e && h !in gone :: e[h]
  }

  predicate Fresh(e: Entries, hash: string, now: Time) {
    hash in e && now <= e[hash].expires
  }

  function Lookup(lim: Limits, e: Entries, hash: string, now: Time): Option<string> {
    if lim.On() && hash != "" && Fresh(e, hash, now) then Some(e[hash].worker) else None
  }

  function AfterGet(lim: Limits, e: Entries, hash: string, now: Time): Entries {
    if lim.On() && hash != "" && hash in e && !Fresh(e, hash, now) then Without(e, {hash}) else e
  }

  function Live(e: Entries, now: Time): Entries {
    map h | h in e && now <= e[h].expires :: e[h]
  }

  function Written(lim: Limits, e: Entries, hash: string, worker: string, now: Time): Entries {
    e[hash := Entry(worker, now + lim.ttl)]
  }

  /** Of the live entries, as many as fit remain, and none that was pushed out expires after one that stayed. */
  ghost predicate Trimmed(maxEntries: int, e: Entries, e': Entries) {
    && (forall h :: h in e' ==> h in e && e'[h] == e[h])
    && |e'| == (if |e| <= maxEntries then |e| else maxEntries)
    && forall out, kept :: out in e && out !in e' && kept in e' ==> e[out].expires <= e[kept].expires
  }

  /** The same while entries are still being pushed out. */
  ghost predicate Trimming(maxEntries: int, e: Entries, e': Entries) {
    && (forall h :: h in e' ==> h in e && e'[h] == e[h])
    && (e' == e || maxEntries <= |e'| < |e|)
    && forall out, kept :: out in e && out !in e' && kept in e' ==> e[out].expires <= e[kept].expires
  }

  lemma TrimOne(maxEntries: int, e: Entries, e': Entries, oldest: string)
    requires Trimming(maxEntries, e, e') && |e'| > maxEntries && oldest in e'
    requires forall h :: h in e' ==> e'[oldest].expires <= e'[h].expires
    ensures Trimming(maxEntries, e, Without(e', {oldest})) && |Without(e', {oldest})| == |e'| - 1
  {
    var rest := Without(e', {oldest});
    assert rest.Keys == e'.Keys - {oldest};
    assert |rest| == |rest.Keys| && |e'| == |e'.Keys|;
  }

  ghost predicate AfterSet(lim: Limits, e: Entries, hash: string, worker: string, now: Time, e': Entries) {
    if lim.On() && hash != "" && worker != ""
    then Trimmed(lim.maxEntries, Live(Written(lim, e, hash, worker, now), now), e')
    else e' == e
  }

  function HashesOf(e: Entries, worker: string): set<string> {
    set h | h in e && e[h].worker == worker
  }

  function AfterInvalidate(lim: Limits, e: Entries, worker: string): Entries {
    if lim.On() && worker != "" then Without(e, HashesOf(e, worker)) else e
  }

  type Index = map<string, set<string>>

  /** The index is exactly the inverse of the entries, without empty sets. */
  ghost predicate Inverse(e: Entries, index: Index) {
    && (forall w :: w in index ==> index[w] != {} && index[w] == HashesOf(e, w))
    && (forall h :: h in e ==> e[h].worker in index)
  }

  function Unindexed(index: Index, worker: string, hash: string): Index {
    if worker !in index then index
    else if index[worker] - {hash} == {} then map w | w in index && w != worker :: index[w]
    else index[worker := index[worker] - {hash}]
  }

  function Indexed(index: Index, worker: string, hash: string): Index {
    index[worker := (if worker in index then index[worker] else {}) + {hash}]
  }

  lemma UnindexKeepsInverse(e: Entries, index: Index, hash: string)
    requires Inverse(e, index) && hash in e
    ensures Inverse(Without(e, {hash}), Unindexed(index, e[hash].worker, hash))
  {
    var e', w := Without(e, {hash}), e[hash].worker;
    var index' := Unindexed(index, w, hash);
    forall x | x in index' ensures index'[x] != {} && index'[x] == HashesOf(e', x) {
      if x == w {
        assert HashesOf(e', w) == HashesOf(e, w) - {hash};
      } else {
        assert HashesOf(e', x) == HashesOf(e, x);
      }
    }
    forall h | h in e' ensures e'[h].worker in index' {
      if e[h].worker == w {
        assert h in index[w] - {hash};
      }
    }
  }

  lemma IndexKeepsInverse(e: Entries, index: Index, hash: string, entry: Entry)
    requires Inverse(Without(e, {hash}), index)
    ensures Inverse(e[hash := entry], Indexed(index, entry.worker, hash))
  {
    var base, e' := Without(e, {hash}), e[hash := entry];
    var index' := Indexed(index, entry.worker, hash);
    forall x | x in index' ensures index'[x] != {} && index'[x] == HashesOf(e', x) {
      if x == entry.worker {
        assert HashesOf(e', x) == HashesOf(base, x) + {hash};
        assert x !in index ==> HashesOf(base, x) == {};
      } else {
        assert HashesOf(e', x) == HashesOf(base, x);
      }
    }
    forall h | h in e' ensures e'[h].worker in index' {
      if h != hash {
        assert h in base;
      }
    }
  }

  class WorkerAuthCache {
    const limits: Limits
    var entries: Entries
    var tokensByWorker: Index

    ghost predicate Valid()
      reads this
    {
      limits.maxEntries >= 1 && Inverse(entries, tokensByWorker)
    }

    constructor (ttl: Time, maxEntries: int)
      ensures Valid() && entries == map[]
      ensures limits == Limits(ttl, if maxEntries <= 0 then 1 else maxEntries)
    {
      limits := Limits(ttl, if maxEntries <= 0 then 1 else maxEntries);
      entries, tokensByWorker := map[], map[];
    }

    method RemoveToken(hash: string)
      requires Valid()
      modifies this
      ensures Valid() && entries == Without(old(entries), {hash})
    {
      if hash !in entries {
        assert Without(entries, {hash}) == entries;
        return;
      }
      UnindexKeepsInverse(entries, tokensByWorker, hash);
      tokensByWorker := Unindexed(tokensByWorker, entries[hash].worker, hash);
      entries := Without(entries, {hash});
    }

    method Get(hash: string, now: Time) returns (worker: Option<string>)
      requires Valid()
      modifies this
      ensures Valid()
      ensures worker == Lookup(limits, old(entries), hash, now)
      ensures worker == if limits.ttl > 0 && hash != "" && hash in old(entries) && now <= old(entries)[hash].expires
                        then Some(old(entries)[hash].worker) else None
      ensures entries == AfterGet(limits, old(entries), hash, now)
    {
      if !limits.On() || hash == "" {
        return None;
      }
      if hash !in entries {
        return None;
      }
      if now > entries[hash].expires {
        RemoveToken(hash);
        return None;
      }
      return Some(entries[hash].worker);
    }

    method Set(hash: string, worker: string, now: Time)
      requires Valid()
      modifies this
      ensures Valid() && AfterSet(limits, old(entries), hash, worker, now, entries)
      ensures if limits.ttl > 0 && hash != "" && worker != ""
              then Trimmed(limits.maxEntries, Live(old(entries)[hash := Entry(worker, now + limits.ttl)], now), entries)
              else entries == old(entries)
    {
      if !limits.On() || hash == "" || worker == "" {
        return;
      }
      Write(hash, Entry(worker, now + limits.ttl));
      Evict(now);
    }

    method Write(hash: string, entry: Entry)
      requires Valid()
      modifies this
      ensures Valid() && entries == old(entries)[hash := entry]
    {
      var index := tokensByWorker;
      if hash in entries && entries[hash].worker != entry.worker {
        index := Unindexed(index, entries[hash].worker, hash);
      }
      RewriteKeepsInverse(entries, tokensByWorker, hash, entry);
      entries := entries[hash := entry];
      tokensByWorker := Indexed(index, entry.worker, hash);
    }

    method Evict(now: Time)
      requires Valid()
      modifies this
      ensures Valid() && Trimmed(limits.maxEntries, Live(old(entries), now), entries)
    {
      PruneExpired(now);
      PruneOldest();
    }

    method PruneExpired(now: Time)
      requires Valid()
      modifies this
      ensures Valid() && entries == Live(old(entries), now)
    {
      var todo := entries.Keys;
      while todo != {}
        invariant Valid()
        invariant todo <= entries.Keys <= old(entries).Keys
        invariant forall h :: h in entries ==> entries[h] == old(entries)[h]
        invariant forall h :: h in old(entries) && h !in todo ==> (h in entries <==> now <= old(entries)[h].expires)
        decreases todo
      {
        var hash :| hash in todo;
        if now > entries[hash].expires {
          RemoveToken(hash);
        }
        todo := todo - {hash};
      }
    }

    /** Removes entries that expire first until the rest fits. */
    method PruneOldest()
      requires Valid()
      modifies this
      ensures Valid() && Trimmed(limits.maxEntries, old(entries), entries)
    {
      while |entries| > limits.maxEntries
        invariant Valid()
        invariant Trimming(limits.maxEntries, old(entries), entries)
        decreases |entries|
      {
        var oldest := Oldest();
        TrimOne(limits.maxEntries, old(entries), entries, oldest);
        RemoveToken(oldest);
      }
    }

    method Oldest() returns (oldest: string)
      requires entries != map[]
      ensures oldest in entries && forall h :: h in entries ==> entries[oldest].expires <= entries[h].expires
    {
      var todo := entries.Keys;
      oldest :| oldest in todo;
      todo := todo - {oldest};
      while todo != {}
        invariant todo <= entries.Keys && oldest in entries && oldest !in todo
        invariant forall h :: h in entries && h !in todo ==> entries[oldest].expires <= entries[h].expires
        decreases todo
      {
        var hash :| hash in todo;
        if entries[hash].expires < entries[oldest].expires {
          oldest := hash;
        }
        todo := todo - {hash};
      }
    }

    method InvalidateWorker(worker: string)
      requires Valid()
      modifies this
      ensures Valid() && entries == AfterInvalidate(limits, old(entries), worker)
      ensures forall h :: h in entries <==>
                h in old(entries) && (limits.ttl > 0 && worker != "" ==> old(entries)[h].worker != worker)
      ensures forall h :: h in entries ==> entries[h] == old(entries)[h]
    {
      if !limits.On() || worker == "" {
        return;
      }
      if worker !in tokensByWorker {
        assert HashesOf(entries, worker) == {};
        return;
      }
      var todo := tokensByWorker[worker];
      ghost var all := todo;
      assert all == HashesOf(entries, worker);
      while todo != {}
        invariant Valid()
        invariant todo <= all
        invariant entries == Without(old(entries), all - todo)
        decreases todo
      {
        var hash :| hash in todo;
        RemoveToken(hash);
        todo := todo - {hash};
      }
    }
  }

  /** Taking a reassigned token out of its old worker's set and into the new one's keeps the index exact. */
  lemma RewriteKeepsInverse(e: Entries, index: Index, hash: string, entry: Entry)
    requires Inverse(e, index)
    ensures var cleared := if hash in e && e[hash].worker != entry.worker then Unindexed(index, e[hash].worker, hash) else index;
            Inverse(e[hash := entry], Indexed(cleared, entry.worker, hash))
  {
    if hash in e && e[hash].worker == entry.worker {
      UnindexKeepsInverse(e, index, hash);
      IndexKeepsInverse(e, Unindexed(index, entry.worker, hash), hash, entry);
      assert index[entry.worker] + {hash} == index[entry.worker] - {hash} + {hash};
      assert Indexed(index, entry.worker, hash) == Indexed(Unindexed(index, entry.worker, hash), entry.worker, hash);
    } else if hash in e {
      UnindexKeepsInverse(e, index, hash);
      IndexKeepsInverse(e, Unindexed(index, e[hash].worker, hash), hash, entry);
    } else {
      assert Without(e, {hash}) == e;
      IndexKeepsInverse(e, index, hash, entry);
    }
  }
}
