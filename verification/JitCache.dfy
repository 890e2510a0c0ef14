/** The resolver's in-process cache: entries expire after a time to live, and when there
    are too many the oldest writes go first. */
module JitCache {
  import opened PyCollections
  import opened ContextModels

  datatype Entry = Entry(items: seq<ContextItem>, createdAt: real, ttl: int) {
    predicate Expired(now: real) {
      now - createdAt >= ttl as real
    }
  }

  type Cache = Dict<string, Entry>

  // ----- one pruning

  function PopAll(d: Cache, keys: seq<string>): Cache
    decreases |keys|
  {
    if keys == [] then d else PopAll(d.Pop(keys[0]), keys[1..])
  }

  lemma {:induction false} PopAllDrops(d: Cache, keys: seq<string>)
    requires d.Wf()
    ensures PopAll(d, keys).Wf()
    ensures PopAll(d, keys).at == d.at - (set k | k in keys)
    decreases |keys|
  {
    if keys != [] {
      d.PopWf(keys[0]);
      PopAllDrops(d.Pop(keys[0]), keys[1..]);
      FirstAndRest(keys);
      MinusTwice(d.at, {keys[0]}, set k | k in keys[1..]);
    }
  }

  lemma FirstAndRest(keys: seq<string>)
    requires keys != []
    ensures (set k | k in keys) == {keys[0]} + (set k | k in keys[1..])
  {
    assert keys == [keys[0]] + keys[1..];
  }

  lemma MinusTwice(at: map<string, Entry>, a: set<string>, b: set<string>)
    ensures at - a - b == at - (a + b)
  {
  }

  function Stale(d: Cache, now: real): string -> bool {
    k => k in d.at && d.at[k].Expired(now)
  }

  /** Sorting by this key in descending order is sorting by write time in ascending order. */
  function Age(d: Cache): string -> real {
    k => if k in d.at then -d.at[k].createdAt else 0.0
  }

  function Live(d: Cache, now: real): Cache {
    PopAll(d, Filter(d.order, Stale(d, now)))
  }

  function OldestFirst(d: Cache): seq<string> {
    SortDescending(d.order, Age(d))
  }

  function Surplus(d: Cache, max: nat): nat {
    if max < |d.order| then |d.order| - max else 0
  }

  function Trimmed(d: Cache, max: nat): Cache {
    PopAll(d, Take(OldestFirst(d), Surplus(d, max)))
  }

  function Pruned(d: Cache, now: real, max: nat): Cache {
    Trimmed(Live(d, now), max)
  }

  lemma LiveKeeps(d: Cache, now: real)
    requires d.Wf()
    ensures Live(d, now).Wf()
    ensures forall k :: k in Live(d, now).at <==> k in d.at && !d.at[k].Expired(now)
    ensures forall k :: k in Live(d, now).at ==> Live(d, now).at[k] == d.at[k]
  {
    PopAllDrops(d, Filter(d.order, Stale(d, now)));
  }

  lemma OrderCardinality(d: Cache)
    requires d.Wf()
    ensures |d.order| == |d.at|
  {
    DistinctCardinality(d.order);
    assert (set k | k in d.order) == d.at.Keys;
  }

  lemma OldestFirstLists(d: Cache)
    requires d.Wf()
    ensures Distinct(OldestFirst(d)) && |OldestFirst(d)| == |d.order|
    ensures forall k :: k in OldestFirst(d) <==> k in d.at
  {
    SortDescendingSorts(d.order, Age(d));
    SameElements(OldestFirst(d), d.order);
    PermutationDistinct(d.order, OldestFirst(d));
  }

  lemma OldestFirstOrder(d: Cache, i: nat, j: nat)
    requires d.Wf() && i < j < |OldestFirst(d)|
    requires OldestFirst(d)[i] in d.at && OldestFirst(d)[j] in d.at
    ensures d.at[OldestFirst(d)[i]].createdAt <= d.at[OldestFirst(d)[j]].createdAt
  {
    SortDescendingSorts(d.order, Age(d));
    assert Age(d)(OldestFirst(d)[i]) >= Age(d)(OldestFirst(d)[j]);
  }

  lemma TrimmedHolds(d: Cache, max: nat)
    requires d.Wf()
    ensures var r, n := Trimmed(d, max), Surplus(d, max);
      && n <= |OldestFirst(d)|
      && r.Wf()
      && r.at.Keys == (set k | k in OldestFirst(d)[n..])
      && (forall k :: k in r.at ==> k in d.at && r.at[k] == d.at[k])
  {
    var sorted, n := OldestFirst(d), Surplus(d, max);
    OldestFirstLists(d);
    DistinctHalves(sorted, n);
    PopAllDrops(d, sorted[..n]);
    assert Take(sorted, n) == sorted[..n];
  }

  lemma TrimmedSize(d: Cache, max: nat)
    requires d.Wf()
    ensures |Trimmed(d, max).at| == Min(max, |d.at|)
  {
    OldestFirstLists(d);
    TrimmedHolds(d, max);
    DistinctCardinality(OldestFirst(d)[Surplus(d, max)..]);
    OrderCardinality(d);
  }

  /** In a list cut in two, what is in the first half comes before what is in the second. */
  lemma HalvesInOrder(s: seq<string>, n: nat, x: string, y: string) returns (i: nat, j: nat)
    requires n <= |s| && x in s[..n] && y in s[n..]
    ensures i < j < |s| && s[i] == x && s[j] == y
  {
    i :| 0 <= i < n && s[..n][i] == x;
    var q :| 0 <= q < |s[n..]| && s[n..][q] == y;
    j := n + q;
  }

  lemma TrimmedIsNewest(d: Cache, max: nat, k: string, kept: string)
    requires d.Wf() && k in d.at && k !in Trimmed(d, max).at && kept in Trimmed(d, max).at
    ensures kept in d.at && d.at[k].createdAt <= d.at[kept].createdAt
  {
    OldestFirstLists(d);
    TrimmedHolds(d, max);
    DistinctHalves(OldestFirst(d), Surplus(d, max));
    var i, j := HalvesInOrder(OldestFirst(d), Surplus(d, max), k, kept);
    OldestFirstOrder(d, i, j);
  }

  /** Pruning keeps as many unexpired entries as fit, untouched, and never drops one that
      was written later than one it keeps. */
  lemma PruningCutsOldest(d: Cache, now: real, max: nat)
    requires d.Wf()
    ensures var live, r := Live(d, now), Pruned(d, now, max);
      && r.Wf()
      && (forall k :: k in r.at ==> k in live.at && r.at[k] == live.at[k])
      && |r.at| == Min(max, |live.at|)
      && (forall k, kept :: k in live.at && k !in r.at && kept in r.at
            ==> live.at[k].createdAt <= live.at[kept].createdAt)
  {
    LiveKeeps(d, now);
    var live, r := Live(d, now), Pruned(d, now, max);
    TrimmedHolds(live, max);
    TrimmedSize(live, max);
    forall k, kept | k in live.at && k !in r.at && kept in r.at
      ensures live.at[k].createdAt <= live.at[kept].createdAt
    {
      TrimmedIsNewest(live, max, k, kept);
    }
  }

  // ----- the cache object

  function JitKey(refId: string): string {
    "ca:jit:" + refId
  }

  function ToolKey(scopeId: string, cacheKey: string): string {
    "ca:tool:" + scopeId + ":" + cacheKey
  }

  /** Resolved references and stored tool results share one cache but never one entry. */
  lemma KeyFamiliesDisjoint(refId: string, scopeId: string, cacheKey: string)
    ensures JitKey(refId) != ToolKey(scopeId, cacheKey)
  {
    assert JitKey(refId)[3] == 'j';
    assert ToolKey(scopeId, cacheKey)[3] == 't';
  }

  lemma JitKeyInjective(ref1: string, ref2: string)
    requires JitKey(ref1) == JitKey(ref2)
    ensures ref1 == ref2
  {
    assert JitKey(ref1)[7..] == ref1 && JitKey(ref2)[7..] == ref2;
  }

  /** Tool results whose cache keys hold no colon never share an entry, whatever their scopes hold. */
  lemma ToolKeyInjective(scope1: string, key1: string, scope2: string, key2: string)
    requires ':' !in key1 && ':' !in key2 && ToolKey(scope1, key1) == ToolKey(scope2, key2)
    ensures scope1 == scope2 && key1 == key2
  {
    assert ToolKey(scope1, key1) == ScopedKey("ca:tool:", scope1, key1);
    assert ToolKey(scope2, key2) == ScopedKey("ca:tool:", scope2, key2);
    ScopedKeyInjective("ca:tool:", scope1, key1, scope2, key2);
  }

  /** A cache key that does hold a colon shares its entry with a key of another scope. */
  lemma ToolKeyCollides(scopeId: string, cacheKey: string)
    requires ':' in cacheKey
    ensures exists scope2, key2 :: scope2 != scopeId && ToolKey(scope2, key2) == ToolKey(scopeId, cacheKey)
  {
    ScopedKeyCollides("ca:tool:", scopeId, cacheKey);
    var scope2, key2 :| scope2 != scopeId && ScopedKey("ca:tool:", scope2, key2) == ScopedKey("ca:tool:", scopeId, cacheKey);
    assert ToolKey(scope2, key2) == ScopedKey("ca:tool:", scope2, key2);
    assert ToolKey(scopeId, cacheKey) == ScopedKey("ca:tool:", scopeId, cacheKey);
  }

  class LocalCache {
    var cache: Cache
    const maxEntries: nat
    const defaultTtl: int

    constructor (maxEntries: nat, defaultTtl: int)
      ensures cache == EmptyDict() && this.maxEntries == maxEntries && this.defaultTtl == defaultTtl
    {
      cache := EmptyDict();
      this.maxEntries := maxEntries;
      this.defaultTtl := defaultTtl;
    }

    method Prune(now: real)
      requires cache.Wf()
      modifies this
      ensures cache.Wf() && cache == Pruned(old(cache), now, maxEntries)
    {
      var stale := [];
      for i := 0 to |cache.order|
        invariant stale == Filter(cache.order[..i], Stale(cache, now))
      {
        assert cache.order[..i + 1][..i] == cache.order[..i];
        if cache.at[cache.order[i]].Expired(now) {
          stale := stale + [cache.order[i]];
        }
      }
      assert cache.order[..|cache.order|] == cache.order;
      PruningCutsOldest(cache, now, maxEntries);
      LiveKeeps(cache, now);
      Drop(stale);
      var overflow := |cache.order| - maxEntries;
      if overflow <= 0 {
        return;
      }
      Drop(Take(OldestFirst(cache), overflow));
    }

    method Drop(keys: seq<string>)
      modifies this
      ensures cache == PopAll(old(cache), keys)
    {
      for i := 0 to |keys|
        invariant PopAll(cache, keys[i..]) == PopAll(old(cache), keys)
      {
        cache := cache.Pop(keys[i]);
      }
    }

    method Get(key: string, now: real) returns (r: Option<seq<ContextItem>>)
      requires cache.Wf()
      modifies this
      ensures cache.Wf() && cache == Pruned(old(cache), now, maxEntries)
      ensures r == Seen(old(cache), now, maxEntries, key)
    {
      Prune(now);
      PruningCutsOldest(old(cache), now, maxEntries);
      LiveKeeps(old(cache), now);
      r := None;
      if key in cache.at && !cache.at[key].Expired(now) {
        r := Some(cache.at[key].items);
      }
    }

    method Set(key: string, items: seq<ContextItem>, ttl: int, now: real)
      requires cache.Wf()
      modifies this
      ensures cache.Wf() && cache == Written(old(cache), now, maxEntries, key, Entry(items, now, ttl))
    {
      Prune(now);
      cache.PutWf(key, Entry(items, now, ttl));
      cache := cache.Put(key, Entry(items, now, ttl));
      Prune(now);
    }

    /** An absent or zero time to live means the configured one. */
    method StoreToolResult(scopeId: string, cacheKey: string, item: ContextItem, ttl: Option<int>, now: real)
      requires cache.Wf()
      modifies this
      ensures cache.Wf() && cache == ToolStored(old(cache), scopeId, cacheKey, item, ttl, now, maxEntries, defaultTtl)
    {
      var effective := if ttl.Some? && ttl.value != 0 then ttl.value else defaultTtl;
      Set(ToolKey(scopeId, cacheKey), [item], effective, now);
    }

    /** The retriever's part for a reference to a tool result: the item stored, if it is still there. */
    method ResolveToolResult(scopeId: string, cacheKey: string, now: real) returns (r: seq<ContextItem>)
      requires cache.Wf()
      modifies this
      ensures cache.Wf() && cache == Pruned(old(cache), now, maxEntries)
      ensures r == ToolFound(old(cache), scopeId, cacheKey, now, maxEntries)
    {
      var cached := Get(ToolKey(scopeId, cacheKey), now);
      r := if cached.Some? then Take(cached.value, 1) else [];
    }

    /** A resolution up to the retriever: nothing to hand out means the retriever is asked, and
        until it answers other calls may use the cache. */
    method StartResolve(refId: string, refExpired: bool, now: real) returns (r: Option<seq<ContextItem>>)
      requires cache.Wf()
      modifies this
      ensures cache.Wf() && cache == if refExpired then old(cache) else Pruned(old(cache), now, maxEntries)
      ensures r == if refExpired then Some([]) else Found(old(cache), refId, now, maxEntries)
    {
      if refExpired {
        return Some([]);
      }
      r := Get(JitKey(refId), now);
    }

    /** The rest of a resolution whose retriever was asked: what it answered, or nothing when it
        raised, which reaches the caller and leaves the cache as it is. */
    method FinishResolve(refId: string, fetched: Option<seq<ContextItem>>, now: real) returns (r: Option<seq<ContextItem>>)
      requires cache.Wf()
      modifies this
      ensures cache.Wf() && r == fetched
      ensures cache == Finished(old(cache), refId, fetched, now, maxEntries, defaultTtl)
    {
      if fetched.Some? {
        Set(JitKey(refId), fetched.value, defaultTtl, now);
      }
      r := fetched;
    }
  }

  /** What a lookup at `now` hands out. */
  function Seen(d: Cache, now: real, max: nat, key: string): Option<seq<ContextItem>> {
    var r := Pruned(d, now, max);
    if key in r.at then Some(r.at[key].items) else None
  }

  function Written(d: Cache, now: real, max: nat, key: string, e: Entry): Cache {
    Pruned(Pruned(d, now, max).Put(key, e), now, max)
  }

  /** What a resolution of this reference finds in the cache. */
  function Found(d: Cache, refId: string, now: real, max: nat): Option<seq<ContextItem>> {
    Seen(d, now, max, JitKey(refId))
  }

  function Finished(d: Cache, refId: string, fetched: Option<seq<ContextItem>>, now: real, max: nat, defaultTtl: int): Cache {
    if fetched.None? then d else Written(d, now, max, JitKey(refId), Entry(fetched.value, now, defaultTtl))
  }

  function ToolFound(d: Cache, scopeId: string, cacheKey: string, now: real, max: nat): seq<ContextItem> {
    var seen := Seen(d, now, max, ToolKey(scopeId, cacheKey));
    if seen.Some? then Take(seen.value, 1) else []
  }

  function ToolStored(d: Cache, scopeId: string, cacheKey: string, item: ContextItem, ttl: Option<int>, now: real,
                      max: nat, defaultTtl: int): Cache {
    Written(d, now, max, ToolKey(scopeId, cacheKey), Entry([item], now, if ttl.Some? && ttl.value != 0 then ttl.value else defaultTtl))
  }
}
