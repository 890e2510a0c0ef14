/** Tiered recall: a hot cache, then long-term memory, then external backends, under one
    latency budget. The hot tier is the shared cache, which stores values and forgets an
    entry at its deadline; `up` says whether a cache call goes through. */
module TieredRouter {
  import opened PyCollections
  import opened ContextModels

  /** Timeouts in ms; the settings schema keeps the time to live at one second or more. */
  datatype Settings = Settings(
    hotTimeout: real, warmTimeout: real, coldTimeout: real, hotTtl: int, defaultTopK: int)

  /** A tier takes `takes` ms to answer, with items or by raising an adapter error. */
  datatype Tier = Tier(takes: real, answer: Option<seq<ContextItem>>)

  datatype Latencies = Latencies(hot: real, warm: real, cold: real)

  datatype HotEntry = HotEntry(items: seq<ContextItem>, deadline: real)

  type HotCache = map<string, HotEntry>

  function IsVariable(): ContextItem -> bool {
    (item: ContextItem) => item.memoryType == Some(Variable)
  }

  function RealMin(a: real, b: real): real {
    if a <= b then a else b
  }

  /** What waiting for a tier with a timeout gives: its items, or none on timeout or error. */
  function Awaited(tier: Tier, timeout: real): seq<ContextItem> {
    if tier.takes <= timeout && tier.answer.Some? then tier.answer.value else []
  }

  function Waited(tier: Tier, timeout: real): real {
    RealMin(tier.takes, timeout)
  }

  /** The entry a cache read finds at `now`. */
  function Visible(cache: HotCache, scopeId: string, now: real): Option<HotEntry> {
    if scopeId in cache && now < cache[scopeId].deadline then Some(cache[scopeId]) else None
  }

  function HotItems(cache: HotCache, scopeId: string, topK: int, now: real): seq<ContextItem> {
    var entry := Visible(cache, scopeId, now);
    if entry.Some? && forall item :: item in entry.value.items ==> IsVariable()(item)
    then Take(entry.value.items, topK) else []
  }

  function Bumped(items: seq<ContextItem>, ids: set<string>): seq<ContextItem> {
    if items == [] then []
    else
      var last := items[|items| - 1];
      Bumped(items[..|items| - 1], ids)
        + [if last.itemId in ids then last.(activeCount := last.activeCount + 1) else last]
  }

  function Warmed(s: Settings, cache: HotCache, scopeId: string, items: seq<ContextItem>, ttl: Option<int>,
                  now: real, up: bool): HotCache {
    var effective := if ttl.Some? && ttl.value != 0 then ttl.value else s.hotTtl;
    var data := Filter(items, IsVariable());
    if data == [] || !up || effective <= 0 then cache else cache[scopeId := HotEntry(data, now + effective as real)]
  }

  /** What a usage call has in hand after its cache read: the entry with the named items
      bumped, or nothing when there is no valid entry naming one of them. */
  function UsageRead(cache: HotCache, scopeId: string, ids: set<string>, now: real, up: bool): Option<seq<ContextItem>> {
    var entry := Visible(cache, scopeId, now);
    if !up || entry.None? || exists item :: item in entry.value.items && !IsVariable()(item) then None
    else if forall item :: item in entry.value.items ==> item.itemId !in ids then None
    else Some(Bumped(entry.value.items, ids))
  }

  function UsageWritten(s: Settings, cache: HotCache, scopeId: string, data: seq<ContextItem>, now: real, up: bool): HotCache {
    if up then cache[scopeId := HotEntry(data, now + s.hotTtl as real)] else cache
  }

  /** What a lower tier adds when it is asked with `left` ms of the budget remaining. */
  function LowerPart(asked: bool, tier: Tier, left: real, limit: real): seq<ContextItem> {
    if asked then Awaited(tier, RealMin(left, limit)) else []
  }

  class TieredMemoryRouter {
    const settings: Settings
    const hasExternal: bool
    var cache: HotCache

    constructor (settings: Settings, hasExternal: bool)
      ensures cache == map[] && this.settings == settings && this.hasExternal == hasExternal
    {
      this.settings := settings;
      this.hasExternal := hasExternal;
      cache := map[];
    }

    /** `takes` is how long the cache would take; it answers only within the hot timeout. */
    method HotSearch(scopeId: string, topK: int, now: real, takes: real, up: bool) returns (items: seq<ContextItem>)
      ensures items == if up && takes <= settings.hotTimeout then HotItems(cache, scopeId, topK, now) else []
    {
      if takes > settings.hotTimeout || !up {
        return [];
      }
      var entry := Visible(cache, scopeId, now);
      if entry.None? {
        return [];
      }
      for i := 0 to |entry.value.items|
        invariant forall j :: 0 <= j < i ==> IsVariable()(entry.value.items[j])
      {
        if entry.value.items[i].memoryType != Some(Variable) {
          assert entry.value.items[i] in entry.value.items && !IsVariable()(entry.value.items[i]);
          return [];
        }
      }
      return Take(entry.value.items, topK);
    }

    /** An absent or zero limit means the configured one. */
    function K(topK: Option<int>): int {
      if topK.Some? && topK.value != 0 then topK.value else settings.defaultTopK
    }

    function HotPart(scopeId: string, topK: Option<int>, wantsHot: bool, now: real, takes: real, up: bool): seq<ContextItem>
      reads this
    {
      if wantsHot && up && takes <= settings.hotTimeout then HotItems(cache, scopeId, K(topK), now) else []
    }

    /** The results are the first k of hot, warm and cold together; a lower tier is asked only
        while results are short of k and budget is left; the three waits together stay within
        the budget, or within the hot timeout when that alone exceeds it. */
    method Search(scopeId: string, topK: Option<int>, wantsHot: bool, latencyBudget: real,
                  now: real, hotTakes: real, up: bool, warmTier: Tier, coldTier: Tier)
      returns (results: seq<ContextItem>, latencies: Latencies, askedWarm: bool, askedCold: bool)
      requires 0.0 <= hotTakes && 0.0 <= warmTier.takes && 0.0 <= coldTier.takes
      requires 0.0 <= settings.hotTimeout && 0.0 <= settings.warmTimeout && 0.0 <= settings.coldTimeout
      ensures askedWarm
        <==> |HotPart(scopeId, topK, wantsHot, now, hotTakes, up)| < K(topK) && 0.0 < latencyBudget - latencies.hot
      ensures askedCold ==> askedWarm && hasExternal
      ensures askedWarm && hasExternal ==>
        var left, found := latencyBudget - latencies.hot, HotPart(scopeId, topK, wantsHot, now, hotTakes, up);
        (askedCold <==>
          0.0 < left - latencies.warm && |found + LowerPart(true, warmTier, left, settings.warmTimeout)| < K(topK))
      ensures results == Take(HotPart(scopeId, topK, wantsHot, now, hotTakes, up)
        + LowerPart(askedWarm, warmTier, latencyBudget - latencies.hot, settings.warmTimeout)
        + LowerPart(askedCold, coldTier, latencyBudget - latencies.hot - latencies.warm, settings.coldTimeout), K(topK))
      ensures latencies.hot + latencies.warm + latencies.cold <= latencyBudget
           || latencies.hot + latencies.warm + latencies.cold <= settings.hotTimeout
      ensures latencies.hot == (if wantsHot then RealMin(hotTakes, settings.hotTimeout) else 0.0)
      ensures latencies.warm == (if askedWarm
        then Waited(warmTier, RealMin(latencyBudget - latencies.hot, settings.warmTimeout)) else 0.0)
      ensures latencies.cold == (if askedCold
        then Waited(coldTier, RealMin(latencyBudget - latencies.hot - latencies.warm, settings.coldTimeout)) else 0.0)
    {
      var k := K(topK);
      var remaining := latencyBudget;
      results := [];
      latencies := Latencies(0.0, 0.0, 0.0);
      askedWarm, askedCold := false, false;

      if wantsHot {
        var hot := HotSearch(scopeId, k, now, hotTakes, up);
        latencies := latencies.(hot := RealMin(hotTakes, settings.hotTimeout));
        results := results + hot;
        remaining := remaining - latencies.hot;
      }
      ghost var hotPart := HotPart(scopeId, topK, wantsHot, now, hotTakes, up);
      assert results == hotPart;
      if |results| >= k || remaining <= 0.0 {
        assert results == hotPart + [] + [];
        results := Take(results, k);
        return;
      }

      askedWarm := true;
      var timeout := RealMin(remaining, settings.warmTimeout);
      latencies := latencies.(warm := Waited(warmTier, timeout));
      results := results + Awaited(warmTier, timeout);
      remaining := remaining - latencies.warm;
      if |results| >= k || remaining <= 0.0 || !hasExternal {
        assert results == results + [];
        results := Take(results, k);
        return;
      }

      askedCold := true;
      timeout := RealMin(remaining, settings.coldTimeout);
      latencies := latencies.(cold := Waited(coldTier, timeout));
      results := results + Awaited(coldTier, timeout);
      results := Take(results, k);
    }

    method WarmCache(scopeId: string, items: seq<ContextItem>, ttl: Option<int>, now: real, up: bool)
      modifies this
      ensures cache == Warmed(settings, old(cache), scopeId, items, ttl, now, up)
    {
      var effective := if ttl.Some? && ttl.value != 0 then ttl.value else settings.hotTtl;
      var data := OnlyVariable(items);
      if data == [] {
        return;
      }
      if up && effective > 0 {
        cache := cache[scopeId := HotEntry(data, now + effective as real)];
      }
    }

    method OnlyVariable(items: seq<ContextItem>) returns (data: seq<ContextItem>)
      ensures data == Filter(items, IsVariable())
    {
      data := [];
      for i := 0 to |items|
        invariant data == Filter(items[..i], IsVariable())
      {
        assert items[..i + 1][..i] == items[..i];
        if items[i].memoryType == Some(Variable) {
          data := data + [items[i]];
        }
      }
      assert items[..|items|] == items;
    }

    /** A usage call up to its cache write. The cache answers in its own time, and other calls
        may run before this one goes on. */
    method ReadUsage(scopeId: string, itemIds: seq<string>, now: real, up: bool) returns (pending: Option<seq<ContextItem>>)
      ensures pending == UsageRead(cache, scopeId, (set id | id in itemIds), now, up)
    {
      var ids := set id | id in itemIds;
      if itemIds == [] || !up {
        return None;
      }
      var entry := Visible(cache, scopeId, now);
      if entry.None? || exists item :: item in entry.value.items && !IsVariable()(item) {
        return None;
      }
      var data, changed := BumpNamed(entry.value.items, ids);
      return if changed then Some(data) else None;
    }

    method BumpNamed(items: seq<ContextItem>, ids: set<string>) returns (data: seq<ContextItem>, changed: bool)
      ensures data == Bumped(items, ids)
      ensures changed <==> exists item :: item in items && item.itemId in ids
    {
      data, changed := [], false;
      for i := 0 to |items|
        invariant data == Bumped(items[..i], ids)
        invariant changed <==> exists item :: item in items[..i] && item.itemId in ids
      {
        assert items[..i + 1][..i] == items[..i];
        assert items[..i + 1] == items[..i] + [items[i]];
        var item := items[i];
        if item.itemId in ids {
          item := item.(activeCount := item.activeCount + 1);
          changed := true;
        }
        data := data + [item];
      }
      assert items[..|items|] == items;
    }

    /** The rest of the call: its cache write, whatever the cache holds by then. */
    method WriteUsage(scopeId: string, data: seq<ContextItem>, now: real, up: bool)
      modifies this
      ensures cache == UsageWritten(settings, old(cache), scopeId, data, now, up)
    {
      if up {
        cache := cache[scopeId := HotEntry(data, now + settings.hotTtl as real)];
      }
    }
  }

  // ----- what a tier contributes

  /** Cut to its limit a search keeps the first of what it found: as many as asked for, or as
      configured when no number is asked for or zero is. */
  lemma AsManyAsAsked(router: TieredMemoryRouter, topK: Option<int>, found: seq<ContextItem>)
    ensures topK.Some? && 0 < topK.value ==> Take(found, router.K(topK)) == found[..Min(topK.value, |found|)]
    ensures 0 <= router.settings.defaultTopK && (topK == None || topK == Some(0))
      ==> Take(found, router.K(topK)) == found[..Min(router.settings.defaultTopK, |found|)]
  {
  }

  /** A lower tier contributes its whole answer if it is asked, does not fail, and answers within
      both its own timeout and what is left of the budget; otherwise nothing. */
  lemma AnswersCountInTime(asked: bool, tier: Tier, left: real, limit: real)
    ensures asked && tier.answer.Some? && tier.takes <= left && tier.takes <= limit ==> LowerPart(asked, tier, left, limit) == tier.answer.value
    ensures LowerPart(asked, tier, left, limit) != [] ==>
      asked && tier.answer == Some(LowerPart(asked, tier, left, limit)) && tier.takes <= left && tier.takes <= limit
  {
  }

  lemma {:induction false} OnlyVariableAreKept(items: seq<ContextItem>)
    ensures forall x :: x in Filter(items, IsVariable()) <==> x in items && x.memoryType == Some(Variable)
  {
  }

  lemma WarmedIs(s: Settings, cache: HotCache, scopeId: string, items: seq<ContextItem>, ttl: Option<int>, now: real, life: int)
    requires exists x :: x in items && x.memoryType == Some(Variable)
    requires 0 < life == if ttl == None || ttl == Some(0) then s.hotTtl else ttl.value
    ensures Warmed(s, cache, scopeId, items, ttl, now, true) == cache[scopeId := HotEntry(Filter(items, IsVariable()), now + life as real)]
  {
    OnlyVariableAreKept(items);
  }

  /** What a warming stored is found, first items first, until its time to live is over and not
      from then on; the time to live is the one given, or the configured one if that is absent or
      zero. Other scopes are left as they were. */
  lemma WarmedIsFound(s: Settings, cache: HotCache, scopeId: string, items: seq<ContextItem>, ttl: Option<int>,
                      now: real, topK: nat, later: real, other: string, life: int)
    requires exists x :: x in items && x.memoryType == Some(Variable)
    requires 0 < life == if ttl == None || ttl == Some(0) then s.hotTtl else ttl.value
    ensures var warmed, data := Warmed(s, cache, scopeId, items, ttl, now, true), Filter(items, IsVariable());
      && HotItems(warmed, scopeId, topK, later) == (if later < now + life as real then data[..Min(topK, |data|)] else [])
      && (other != scopeId ==> HotItems(warmed, other, topK, later) == HotItems(cache, other, topK, later))
  {
    var data := Filter(items, IsVariable());
    OnlyVariableAreKept(items);
    WarmedIs(s, cache, scopeId, items, ttl, now, life);
    StoredIsFound(cache, scopeId, data, now + life as real, topK, later);
    if other != scopeId {
      OtherScopes(cache, scopeId, HotEntry(data, now + life as real), topK, later, other);
    }
  }

  lemma OtherScopes(cache: HotCache, scopeId: string, entry: HotEntry, topK: int, later: real, other: string)
    requires other != scopeId
    ensures HotItems(cache[scopeId := entry], other, topK, later) == HotItems(cache, other, topK, later)
  {
  }

  lemma StoredIsFound(cache: HotCache, scopeId: string, data: seq<ContextItem>, deadline: real, topK: nat, later: real)
    requires forall x :: x in data ==> x.memoryType == Some(Variable)
    ensures HotItems(cache[scopeId := HotEntry(data, deadline)], scopeId, topK, later)
      == if later < deadline then data[..Min(topK, |data|)] else []
  {
  }

  /** A warming without such items, or whose cache call fails, leaves the cache alone. */
  lemma NothingWarmed(s: Settings, cache: HotCache, scopeId: string, items: seq<ContextItem>, ttl: Option<int>, now: real, up: bool)
    requires !up || forall x :: x in items ==> x.memoryType != Some(Variable)
    ensures Warmed(s, cache, scopeId, items, ttl, now, up) == cache
  {
    OnlyVariableAreKept(items);
    if Filter(items, IsVariable()) != [] {
      assert Filter(items, IsVariable())[0] in Filter(items, IsVariable());
    }
  }

  /** The cache is shared: whatever another writer may have put there, a hot search hands out
      VARIABLE items only, and nothing at all of an entry that holds any other. */
  lemma HotItemsAreVariable(cache: HotCache, scopeId: string, topK: int, now: real)
    ensures forall x :: x in HotItems(cache, scopeId, topK, now) ==> x.memoryType == Some(Variable)
    ensures HotItems(cache, scopeId, topK, now) != [] ==>
      && scopeId in cache && now < cache[scopeId].deadline
      && HotItems(cache, scopeId, topK, now) <= cache[scopeId].items
      && forall x :: x in cache[scopeId].items ==> x.memoryType == Some(Variable)
  {
    var entry := Visible(cache, scopeId, now);
    if entry.Some? && forall item :: item in entry.value.items ==> IsVariable()(item) {
      forall x | x in entry.value.items ensures x.memoryType == Some(Variable) {
        assert IsVariable()(x);
      }
    }
  }

  predicate Usable(items: seq<ContextItem>, ids: set<string>) {
    (forall x :: x in items ==> x.memoryType == Some(Variable)) && (exists x :: x in items && x.itemId in ids)
  }

  /** One more use if the item is named, and no other change. */
  predicate UsedOnceIf(before: ContextItem, after: ContextItem, ids: set<string>) {
    after == before.(activeCount := before.activeCount + if before.itemId in ids then 1 else 0)
  }

  lemma {:induction false} BumpedIs(items: seq<ContextItem>, ids: set<string>)
    ensures |Bumped(items, ids)| == |items|
    ensures forall i :: 0 <= i < |items| ==> UsedOnceIf(items[i], Bumped(items, ids)[i], ids)
  {
    if items != [] {
      BumpedIs(items[..|items| - 1], ids);
    }
  }

  /** A usage call has something to write exactly when the cache answers with an unexpired entry
      of VARIABLE items, one of them named; and then it is that entry with one more use for each
      item named. */
  lemma UsageReadIs(cache: HotCache, scopeId: string, ids: set<string>, now: real, up: bool)
    ensures var data := UsageRead(cache, scopeId, ids, now, up);
      && (data.Some? <==> up && scopeId in cache && now < cache[scopeId].deadline && Usable(cache[scopeId].items, ids))
      && (data.Some? ==> |data.value| == |cache[scopeId].items|)
      && (data.Some? ==> forall i :: 0 <= i < |data.value| ==> UsedOnceIf(cache[scopeId].items[i], data.value[i], ids))
  {
    if scopeId in cache {
      BumpedIs(cache[scopeId].items, ids);
      assert forall x :: x in cache[scopeId].items ==> (IsVariable()(x) <==> x.memoryType == Some(Variable));
    }
  }
}
