/** The memo table: configurations bucketed by the hash of their bit set. */
module Cache {
  import opened Wrappers
  import opened Sequences
  import opened Linearizability
  import opened Search
  import opened Bitset

  datatype CacheEntry<S> = CacheEntry(linearized: array<Word>, state: S)

  type Table<S> = map<Word, seq<CacheEntry<S>>>

  /** What a cached entry stands for. */
  ghost function ConfigOf<S>(e: CacheEntry<S>): Config<S>
    reads e.linearized
  {
    (Members(e.linearized[..]), e.state)
  }

  /** A cached entry is in its bucket, and its bit set is one of `owned`, which nobody else changes. */
  ghost predicate EntryOk<S>(key: Word, e: CacheEntry<S>, seen: set<Config<S>>, size: nat, owned: set<array<Word>>)
    reads owned
  {
    && e.linearized in owned && e.linearized.Length == size
    && HashOf(e.linearized[..]) == key
    && ConfigOf(e) in seen
  }

  ghost predicate Stored<S(!new)>(cache: Table<S>, c: Config<S>, owned: set<array<Word>>)
    reads owned
  {
    exists key, i :: key in cache && 0 <= i < |cache[key]| && cache[key][i].linearized in owned && ConfigOf(cache[key][i]) == c
  }

  /** The table holds exactly the configurations in `seen`. */
  ghost predicate Holds<S(!new)>(cache: Table<S>, seen: set<Config<S>>, size: nat, owned: set<array<Word>>)
    reads owned
  {
    && (forall key, i :: key in cache && 0 <= i < |cache[key]| ==> EntryOk(key, cache[key][i], seen, size, owned))
    && (forall c :: c in seen ==> Stored(cache, c, owned))
  }

  /** The configuration of `entry` is pruned exactly when its own bucket holds an equal one. */
  lemma PrunedInBucket<S(!new), I, O>(m: Model<S, I, O>, cache: Table<S>, seen: set<Config<S>>, size: nat,
                                       owned: set<array<Word>>, entry: CacheEntry<S>, key: Word)
    requires Holds(cache, seen, size, owned)
    requires entry.linearized.Length == size && HashOf(entry.linearized[..]) == key
    ensures Pruned(m, seen, Members(entry.linearized[..]), entry.state) <==>
            key in cache && (exists i :: 0 <= i < |cache[key]| &&
                                         Members(cache[key][i].linearized[..]) == Members(entry.linearized[..]) &&
                                         m.equal(entry.state, cache[key][i].state))
  {
    var b := Members(entry.linearized[..]);
    if Pruned(m, seen, b, entry.state) {
      var t :| (b, t) in seen && m.equal(entry.state, t);
      assert Stored(cache, (b, t), owned);
      var k, i :| k in cache && 0 <= i < |cache[k]| && cache[k][i].linearized in owned && ConfigOf(cache[k][i]) == (b, t);
      assert EntryOk(k, cache[k][i], seen, size, owned);
      SameMembersSameWords(cache[k][i].linearized[..], entry.linearized[..]);
      assert k == key;
    }
    if key in cache {
      forall i | 0 <= i < |cache[key]| &&
          Members(cache[key][i].linearized[..]) == b && m.equal(entry.state, cache[key][i].state)
        ensures Pruned(m, seen, b, entry.state)
      {
        assert EntryOk(key, cache[key][i], seen, size, owned);
        assert (b, cache[key][i].state) in seen;
      }
    }
  }

  method CacheContains<S(!new), I, O>(m: Model<S, I, O>, cache: Table<S>, entry: CacheEntry<S>,
                                      ghost seen: set<Config<S>>, ghost size: nat, ghost owned: set<array<Word>>)
    returns (found: bool)
    requires Holds(cache, seen, size, owned) && entry.linearized.Length == size
    ensures found <==> Pruned(m, seen, Members(entry.linearized[..]), entry.state)
  {
    var key := Hash(entry.linearized);
    hide Members, HashOf, Pruned;
    PrunedInBucket(m, cache, seen, size, owned, entry, key);
    if key !in cache {
      return false;
    }
    var bucket := cache[key];
    for i := 0 to |bucket|
      invariant forall j :: 0 <= j < i ==>
        !(Members(bucket[j].linearized[..]) == Members(entry.linearized[..]) && m.equal(entry.state, bucket[j].state))
    {
      assert EntryOk(key, cache[key][i], seen, size, owned);
      var same := Equals(entry.linearized, bucket[i].linearized);
      if same && m.equal(entry.state, bucket[i].state) {
        return true;
      }
    }
    return false;
  }

  function Insert<S>(cache: Table<S>, key: Word, e: CacheEntry<S>): Table<S> {
    cache[key := (if key in cache then cache[key] else []) + [e]]
  }

  lemma InsertHolds<S(!new)>(cache: Table<S>, seen: set<Config<S>>, size: nat, owned: set<array<Word>>,
                             key: Word, e: CacheEntry<S>)
    requires Holds(cache, seen, size, owned)
    requires e.linearized.Length == size && HashOf(e.linearized[..]) == key
    ensures Holds(Insert(cache, key, e), seen + {ConfigOf(e)}, size, owned + {e.linearized})
  {
    var cache', seen', owned' := Insert(cache, key, e), seen + {ConfigOf(e)}, owned + {e.linearized};
    forall k, i | k in cache' && 0 <= i < |cache'[k]| ensures EntryOk(k, cache'[k][i], seen', size, owned') {
      if k in cache && i < |cache[k]| {
        assert cache'[k][i] == cache[k][i];
        assert EntryOk(k, cache[k][i], seen, size, owned);
      }
    }
    forall c | c in seen' ensures Stored(cache', c, owned') {
      if c in seen {
        assert Stored(cache, c, owned);
        var k, i :| k in cache && 0 <= i < |cache[k]| && cache[k][i].linearized in owned && ConfigOf(cache[k][i]) == c;
        assert cache'[k][i] == cache[k][i];
      } else {
        assert cache'[key][|cache'[key]| - 1] == e;
      }
    }
  }
}
