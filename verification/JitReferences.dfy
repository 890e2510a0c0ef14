/** The cache in the terms of its callers: runs of resolutions of references and of stored tool
    results, which share it. */
module JitReferences {
  import opened PyCollections
  import opened ContextModels
  import opened JitCache
  import opened JitCacheRuns

  datatype Call =
    | Start(refId: string, refExpired: bool, now: real)
    | Finish(refId: string, fetched: Option<seq<ContextItem>>, now: real)
    | StoreTool(scopeId: string, cacheKey: string, item: ContextItem, ttl: Option<int>, now: real)
    | ReadTool(scopeId: string, cacheKey: string, now: real)

  /** The cache after one call of the methods of these names. */
  function After(d: Cache, call: Call, max: nat, defaultTtl: int): Cache {
    match call
    case Start(_, refExpired, now) => if refExpired then d else Pruned(d, now, max)
    case Finish(refId, fetched, now) => Finished(d, refId, fetched, now, max, defaultTtl)
    case StoreTool(scopeId, cacheKey, item, ttl, now) => ToolStored(d, scopeId, cacheKey, item, ttl, now, max, defaultTtl)
    case ReadTool(_, _, now) => Pruned(d, now, max)
  }

  function CacheAfter(calls: seq<Call>, max: nat, defaultTtl: int): Cache {
    if calls == [] then EmptyDict() else After(CacheAfter(calls[..|calls| - 1], max, defaultTtl), calls[|calls| - 1], max, defaultTtl)
  }

  /** What a resolution that asked the retriever stored, and when. */
  datatype Fetched = Fetched(items: seq<ContextItem>, at: real)

  /** The last answer of the retriever for this reference. */
  function LastFetched(calls: seq<Call>, refId: string): Option<Fetched> {
    if calls == [] then None
    else
      var call := calls[|calls| - 1];
      if call.Finish? && call.refId == refId && call.fetched.Some? then Some(Fetched(call.fetched.value, call.now))
      else LastFetched(calls[..|calls| - 1], refId)
  }

  datatype Tool = Tool(item: ContextItem, ttl: int, at: real)

  /** The last tool result stored under this scope and cache key. */
  function LastTool(calls: seq<Call>, scopeId: string, cacheKey: string, defaultTtl: int): Option<Tool> {
    if calls == [] then None
    else
      var call := calls[|calls| - 1];
      if call.StoreTool? && call.scopeId == scopeId && call.cacheKey == cacheKey
      then Some(Tool(call.item, if call.ttl == None || call.ttl == Some(0) then defaultTtl else call.ttl.value, call.now))
      else LastTool(calls[..|calls| - 1], scopeId, cacheKey, defaultTtl)
  }

  // ----- a run of calls is a run of reads and writes

  function OpsOf(call: Call, defaultTtl: int): seq<Op> {
    match call
    case Start(refId, refExpired, now) => if refExpired then [] else [Read(JitKey(refId), now)]
    case Finish(refId, fetched, now) => if fetched.None? then [] else [Write(JitKey(refId), fetched.value, defaultTtl, now)]
    case StoreTool(scopeId, cacheKey, item, ttl, now) =>
      [Write(ToolKey(scopeId, cacheKey), [item], if ttl.Some? && ttl.value != 0 then ttl.value else defaultTtl, now)]
    case ReadTool(scopeId, cacheKey, now) => [Read(ToolKey(scopeId, cacheKey), now)]
  }

  function Ops(calls: seq<Call>, defaultTtl: int): seq<Op> {
    if calls == [] then [] else Ops(calls[..|calls| - 1], defaultTtl) + OpsOf(calls[|calls| - 1], defaultTtl)
  }

  lemma OneOpRun(ops: seq<Op>, more: seq<Op>, max: nat)
    requires |more| <= 1
    ensures Run(ops + more, max) == if more == [] then Run(ops, max) else Step(Run(ops, max), more[0], max)
    ensures Last(ops + more) == if more == [] || more[0].Read? then Last(ops)
      else Last(ops)[more[0].key := Entry(more[0].items, more[0].now, more[0].ttl)]
  {
    if more == [] {
      assert ops + more == ops;
    } else {
      assert (ops + more)[..|ops + more| - 1] == ops;
    }
  }

  lemma OneCallIsItsOp(d: Cache, call: Call, max: nat, defaultTtl: int)
    ensures var ops := OpsOf(call, defaultTtl);
      |ops| <= 1 && After(d, call, max, defaultTtl) == if ops == [] then d else Step(d, ops[0], max)
  {
  }

  /** One more call and its operation, both run from the same cache. */
  lemma OneMoreCall(d: Cache, call: Call, ops: seq<Op>, more: seq<Op>, max: nat, defaultTtl: int)
    requires d == Run(ops, max) && more == OpsOf(call, defaultTtl)
    ensures After(d, call, max, defaultTtl) == Run(ops + more, max)
  {
    OneCallIsItsOp(d, call, max, defaultTtl);
    OneOpRun(ops, more, max);
  }

  lemma {:induction false} CallsAreOps(calls: seq<Call>, max: nat, defaultTtl: int)
    ensures CacheAfter(calls, max, defaultTtl) == Run(Ops(calls, defaultTtl), max)
  {
    if calls != [] {
      var front, call := calls[..|calls| - 1], calls[|calls| - 1];
      CallsAreOps(front, max, defaultTtl);
      OneMoreCall(CacheAfter(front, max, defaultTtl), call, Ops(front, defaultTtl), OpsOf(call, defaultTtl), max, defaultTtl);
    }
  }

  lemma {:induction false} OpsAppend(a: seq<Call>, b: seq<Call>, defaultTtl: int)
    ensures Ops(a + b, defaultTtl) == Ops(a, defaultTtl) + Ops(b, defaultTtl)
  {
    if b == [] {
      assert a + b == a;
    } else {
      assert (a + b)[..|a + b| - 1] == a + b[..|b| - 1];
      OpsAppend(a, b[..|b| - 1], defaultTtl);
      Regroup(Ops(a, defaultTtl), Ops(b[..|b| - 1], defaultTtl), OpsOf(b[|b| - 1], defaultTtl));
    }
  }

  // ----- references

  ghost predicate Matches(last: map<string, Entry>, fetched: Option<Fetched>, key: string, ttl: int) {
    && (key in last <==> fetched.Some?)
    && (fetched.Some? ==> last[key] == Entry(fetched.value.items, fetched.value.at, ttl))
  }

  lemma OneMoreFetched(last: map<string, Entry>, calls: seq<Call>, refId: string, call: Call, ttl: int)
    requires Matches(last, LastFetched(calls, refId), JitKey(refId), ttl)
    ensures Matches(WriteBy(last, call, ttl), LastFetched(calls + [call], refId), JitKey(refId), ttl)
  {
    assert (calls + [call])[..|calls|] == calls;
    if call.Finish? && JitKey(call.refId) == JitKey(refId) {
      JitKeyInjective(call.refId, refId);
    } else if call.StoreTool? {
      KeyFamiliesDisjoint(refId, call.scopeId, call.cacheKey);
    }
  }

  /** The last writes after one more call. */
  ghost function WriteBy(last: map<string, Entry>, call: Call, ttl: int): map<string, Entry> {
    var ops := OpsOf(call, ttl);
    if ops == [] || ops[0].Read? then last else last[ops[0].key := Entry(ops[0].items, ops[0].now, ops[0].ttl)]
  }

  lemma OneMoreWrite(ops: seq<Op>, more: seq<Op>, call: Call, ttl: int)
    requires more == OpsOf(call, ttl)
    ensures Last(ops + more) == WriteBy(Last(ops), call, ttl)
  {
    OneOpRun(ops, more, 0);
  }

  /** The last write under a reference's key is the last answer for that very reference. */
  lemma {:induction false} LastIsLastFetched(calls: seq<Call>, refId: string, defaultTtl: int)
    ensures Matches(Last(Ops(calls, defaultTtl)), LastFetched(calls, refId), JitKey(refId), defaultTtl)
  {
    if calls != [] {
      var front, call := calls[..|calls| - 1], calls[|calls| - 1];
      assert calls == front + [call];
      LastIsLastFetched(front, refId, defaultTtl);
      OneMoreWrite(Ops(front, defaultTtl), OpsOf(call, defaultTtl), call, defaultTtl);
      OneMoreFetched(Last(Ops(front, defaultTtl)), front, refId, call, defaultTtl);
    }
  }

  /** Over any run a resolution is handed, without asking the retriever, only the last items
      fetched for that very reference, and only while they are younger than the time to live. */
  lemma ReferencesSeeTheirOwn(calls: seq<Call>, max: nat, defaultTtl: int, refId: string, now: real)
    ensures var found, fetched := Found(CacheAfter(calls, max, defaultTtl), refId, now, max), LastFetched(calls, refId);
      found.Some? ==> fetched.Some? && found.value == fetched.value.items && now - fetched.value.at < defaultTtl as real
  {
    CallsAreOps(calls, max, defaultTtl);
    LookupsAreFresh(Ops(calls, defaultTtl), max, JitKey(refId), now);
    LastIsLastFetched(calls, refId, defaultTtl);
  }

  /** A finished resolution changes what another reference finds only by evicting it. */
  lemma OtherReferencesOnlyEvict(d: Cache, now: real, max: nat, defaultTtl: int, refId: string,
                                 fetched: Option<seq<ContextItem>>, other: string, later: real)
    requires d.Wf() && other != refId
    ensures var found := Found(Finished(d, refId, fetched, now, max, defaultTtl), other, later, max);
      found.Some? ==> JitKey(other) in d.at && found.value == d.at[JitKey(other)].items
  {
    if JitKey(refId) == JitKey(other) {
      JitKeyInjective(refId, other);
      assert false;
    }
    if fetched.Some? {
      OtherWritesOnlyEvict(d, now, max, JitKey(refId), Entry(fetched.value, now, defaultTtl), JitKey(other), later);
    } else {
      LiveKeeps(d, later);
      PruningCutsOldest(d, later, max);
    }
  }

  /** So does a stored tool result. */
  lemma ToolResultsOnlyEvict(d: Cache, now: real, max: nat, defaultTtl: int, scopeId: string, cacheKey: string,
                             item: ContextItem, ttl: Option<int>, refId: string, later: real)
    requires d.Wf()
    ensures var found := Found(ToolStored(d, scopeId, cacheKey, item, ttl, now, max, defaultTtl), refId, later, max);
      found.Some? ==> JitKey(refId) in d.at && found.value == d.at[JitKey(refId)].items
  {
    KeyFamiliesDisjoint(refId, scopeId, cacheKey);
    OtherWritesOnlyEvict(d, now, max, ToolKey(scopeId, cacheKey),
      Entry([item], now, if ttl.Some? && ttl.value != 0 then ttl.value else defaultTtl), JitKey(refId), later);
  }

  // ----- tool results

  /** No call stores a tool result under the same key but for another scope or cache key. */
  ghost predicate ToolKeyUnshared(calls: seq<Call>, scopeId: string, cacheKey: string) {
    forall i :: 0 <= i < |calls| && calls[i].StoreTool? && ToolKey(calls[i].scopeId, calls[i].cacheKey) == ToolKey(scopeId, cacheKey)
      ==> calls[i].scopeId == scopeId && calls[i].cacheKey == cacheKey
  }

  /** So it is when no cache key holds a colon. */
  lemma ColonFreeToolKeys(calls: seq<Call>, scopeId: string, cacheKey: string)
    requires ':' !in cacheKey && forall i :: 0 <= i < |calls| && calls[i].StoreTool? ==> ':' !in calls[i].cacheKey
    ensures ToolKeyUnshared(calls, scopeId, cacheKey)
  {
    forall i | 0 <= i < |calls| && calls[i].StoreTool? && ToolKey(calls[i].scopeId, calls[i].cacheKey) == ToolKey(scopeId, cacheKey)
      ensures calls[i].scopeId == scopeId && calls[i].cacheKey == cacheKey
    {
      ToolKeyInjective(calls[i].scopeId, calls[i].cacheKey, scopeId, cacheKey);
    }
  }

  ghost predicate ToolMatches(last: map<string, Entry>, tool: Option<Tool>, key: string) {
    && (key in last <==> tool.Some?)
    && (tool.Some? ==> last[key] == Entry([tool.value.item], tool.value.at, tool.value.ttl))
  }

  lemma OneMoreTool(last: map<string, Entry>, calls: seq<Call>, scopeId: string, cacheKey: string, call: Call, ttl: int)
    requires ToolMatches(last, LastTool(calls, scopeId, cacheKey, ttl), ToolKey(scopeId, cacheKey))
    requires ToolKeyUnshared([call], scopeId, cacheKey)
    ensures ToolMatches(WriteBy(last, call, ttl), LastTool(calls + [call], scopeId, cacheKey, ttl), ToolKey(scopeId, cacheKey))
  {
    assert (calls + [call])[..|calls|] == calls;
    assert [call][0] == call;
    if call.Finish? {
      KeyFamiliesDisjoint(call.refId, scopeId, cacheKey);
    }
  }

  lemma {:induction false} LastIsLastTool(calls: seq<Call>, scopeId: string, cacheKey: string, defaultTtl: int)
    requires ToolKeyUnshared(calls, scopeId, cacheKey)
    ensures ToolMatches(Last(Ops(calls, defaultTtl)), LastTool(calls, scopeId, cacheKey, defaultTtl), ToolKey(scopeId, cacheKey))
  {
    if calls != [] {
      var front, call := calls[..|calls| - 1], calls[|calls| - 1];
      assert calls == front + [call];
      assert ToolKeyUnshared(front, scopeId, cacheKey) && ToolKeyUnshared([call], scopeId, cacheKey);
      LastIsLastTool(front, scopeId, cacheKey, defaultTtl);
      OneMoreWrite(Ops(front, defaultTtl), OpsOf(call, defaultTtl), call, defaultTtl);
      OneMoreTool(Last(Ops(front, defaultTtl)), front, scopeId, cacheKey, call, defaultTtl);
    }
  }

  /** Over any run in which the key is not shared, a reference to a tool result finds nothing or
      the very item last stored under that scope and cache key, younger than its time to live:
      the one given, or the configured one when it was absent or zero. */
  lemma ToolsSeeTheirOwn(calls: seq<Call>, max: nat, defaultTtl: int, scopeId: string, cacheKey: string, now: real)
    requires ToolKeyUnshared(calls, scopeId, cacheKey)
    ensures var found, tool := ToolFound(CacheAfter(calls, max, defaultTtl), scopeId, cacheKey, now, max),
                               LastTool(calls, scopeId, cacheKey, defaultTtl);
      found == [] || (tool.Some? && found == [tool.value.item] && now - tool.value.at < tool.value.ttl as real)
  {
    CallsAreOps(calls, max, defaultTtl);
    LookupsAreFresh(Ops(calls, defaultTtl), max, ToolKey(scopeId, cacheKey), now);
    LastIsLastTool(calls, scopeId, cacheKey, defaultTtl);
  }

  // ----- what is stored is found again

  /** The key a call stores something under. */
  function Target(call: Call): Option<string> {
    match call
    case Finish(refId, fetched, _) => if fetched.Some? then Some(JitKey(refId)) else None
    case StoreTool(scopeId, cacheKey, _, _, _) => Some(ToolKey(scopeId, cacheKey))
    case _ => None
  }

  function Stores(calls: seq<Call>): nat {
    if calls == [] then 0 else Stores(calls[..|calls| - 1]) + (if Target(calls[|calls| - 1]).Some? then 1 else 0)
  }

  ghost predicate StoresBefore(calls: seq<Call>, at: real) {
    forall i :: 0 <= i < |calls| && Target(calls[i]).Some? ==> calls[i].now < at
  }

  /** These calls come after `at` and by `now`, and store nothing under `key`. */
  ghost predicate Since(calls: seq<Call>, at: real, now: real, key: string) {
    forall i :: 0 <= i < |calls| ==> at <= calls[i].now <= now && Target(calls[i]) != Some(key)
  }

  lemma OneCallAfter(w: Op, ops: seq<Op>, call: Call, now: real, defaultTtl: int)
    requires w.Write? && Between(w, ops, now) && w.now <= call.now <= now && Target(call) != Some(w.key)
    ensures Between(w, ops + OpsOf(call, defaultTtl), now)
    ensures Writes(ops + OpsOf(call, defaultTtl)) == Writes(ops) + (if Target(call).Some? then 1 else 0)
  {
    var more := OpsOf(call, defaultTtl);
    if more == [] {
      assert ops + more == ops;
    } else {
      assert more == [more[0]];
      OneMoreKey(ops, more[0]);
    }
  }

  lemma {:induction false} CallsSince(w: Op, calls: seq<Call>, now: real, defaultTtl: int)
    requires w.Write? && Since(calls, w.now, now, w.key)
    ensures Between(w, Ops(calls, defaultTtl), now) && Writes(Ops(calls, defaultTtl)) == Stores(calls)
  {
    if calls != [] {
      CallsSince(w, calls[..|calls| - 1], now, defaultTtl);
      OneCallAfter(w, Ops(calls[..|calls| - 1], defaultTtl), calls[|calls| - 1], now, defaultTtl);
    }
  }

  lemma OneCallBefore(ops: seq<Op>, call: Call, at: real, defaultTtl: int)
    requires WritesBefore(ops, at) && (Target(call).Some? ==> call.now < at)
    ensures WritesBefore(ops + OpsOf(call, defaultTtl), at)
  {
  }

  lemma {:induction false} CallsBefore(calls: seq<Call>, at: real, defaultTtl: int)
    requires StoresBefore(calls, at)
    ensures WritesBefore(Ops(calls, defaultTtl), at)
  {
    if calls != [] {
      CallsBefore(calls[..|calls| - 1], at, defaultTtl);
      OneCallBefore(Ops(calls[..|calls| - 1], defaultTtl), calls[|calls| - 1], at, defaultTtl);
    }
  }

  /** What one call has stored is there for a later lookup of its key. */
  lemma StoredIsSeen(before: seq<Call>, store: Call, w: Op, later: seq<Call>, max: nat, defaultTtl: int, now: real)
    requires OpsOf(store, defaultTtl) == [w] && w.Write? && StoresBefore(before, w.now) && Since(later, w.now, now, w.key)
    requires Stores(later) < max && w.now <= now < w.now + w.ttl as real
    ensures Seen(CacheAfter(before + [store] + later, max, defaultTtl), now, max, w.key) == Some(w.items)
  {
    var first, rest := Ops(before, defaultTtl), Ops(later, defaultTtl);
    assert (before + [store])[..|before|] == before;
    OpsAppend(before + [store], later, defaultTtl);
    CallsAreOps(before + [store] + later, max, defaultTtl);
    CallsBefore(before, w.now, defaultTtl);
    CallsSince(w, later, now, defaultTtl);
    WrittenIsFound(first, w, rest, max, now);
  }

  /** The retriever is not asked again: what was fetched for a reference is found until it is as
      old as the time to live, unless something newer has been fetched for it or as many other
      stores as the limit allows have come since. */
  lemma FetchedIsFound(before: seq<Call>, refId: string, items: seq<ContextItem>, at: real, later: seq<Call>,
                       max: nat, defaultTtl: int, now: real)
    requires StoresBefore(before, at) && Stores(later) < max && at <= now < at + defaultTtl as real
    requires forall i :: 0 <= i < |later| ==>
      at <= later[i].now <= now && !(later[i].Finish? && later[i].refId == refId && later[i].fetched.Some?)
    ensures Found(CacheAfter(before + [Finish(refId, Some(items), at)] + later, max, defaultTtl), refId, now, max) == Some(items)
  {
    forall i | 0 <= i < |later| ensures Target(later[i]) != Some(JitKey(refId)) {
      var call := later[i];
      if call.Finish? && JitKey(call.refId) == JitKey(refId) {
        JitKeyInjective(call.refId, refId);
      } else if call.StoreTool? {
        KeyFamiliesDisjoint(refId, call.scopeId, call.cacheKey);
      }
    }
    StoredIsSeen(before, Finish(refId, Some(items), at), Write(JitKey(refId), items, defaultTtl, at), later, max, defaultTtl, now);
  }

  /** So is a stored tool result, for its own time to live, if its key is not shared. */
  lemma StoredToolIsFound(before: seq<Call>, store: Call, later: seq<Call>, max: nat, defaultTtl: int, now: real)
    requires store.StoreTool? && StoresBefore(before, store.now) && Stores(later) < max && store.now <= now
    requires now < store.now + (if store.ttl == None || store.ttl == Some(0) then defaultTtl else store.ttl.value) as real
    requires ToolKeyUnshared(later, store.scopeId, store.cacheKey)
    requires forall i :: 0 <= i < |later| ==>
      store.now <= later[i].now <= now
      && !(later[i].StoreTool? && later[i].scopeId == store.scopeId && later[i].cacheKey == store.cacheKey)
    ensures ToolFound(CacheAfter(before + [store] + later, max, defaultTtl), store.scopeId, store.cacheKey, now, max) == [store.item]
  {
    forall i | 0 <= i < |later| ensures Target(later[i]) != Some(ToolKey(store.scopeId, store.cacheKey)) {
      if later[i].Finish? {
        KeyFamiliesDisjoint(later[i].refId, store.scopeId, store.cacheKey);
      }
    }
    StoredIsSeen(before, store, OpsOf(store, defaultTtl)[0], later, max, defaultTtl, now);
  }

  /** A cache key with a colon: what scope `a:b` stored under `c` is handed to scope `a` asking for `b:c`. */
  lemma ForeignToolIsFound(item: ContextItem, now: real, max: nat, defaultTtl: int)
    requires 0 < max && 0 < defaultTtl
    ensures ToolFound(CacheAfter([StoreTool("a:b", "c", item, None, now)], max, defaultTtl), "a", "b:c", now, max) == [item]
  {
    var store := StoreTool("a:b", "c", item, None, now);
    assert ToolKey("a", "b:c") == ToolKey("a:b", "c");
    assert [] + [store] + [] == [store];
    StoredToolIsFound([], store, [], max, defaultTtl, now);
  }
}
