/** The aggregator after its sources have answered: filter, remove duplicates, rank and cut
    to the token budget. */
module Aggregator {
  import opened PyCollections
  import opened ContextModels

  /** What a source came back with: items, an exception, or something that is no list. */
  datatype SourceResult = Items(items: seq<ContextItem>) | Raised | Invalid

  datatype Source = Source(name: string, result: SourceResult)

  /** `categories` empty means no category filter; `adjust` is the task-conditioned score,
      absent when neither a task type nor an agent role is given. */
  datatype Request = Request(
    scopeId: string, sessionId: string, tokenBudget: int, maxLevel: ContextLevel,
    categories: seq<MemoryCategory>, adjust: Option<ContextItem -> real>)

  function LevelOrder(level: ContextLevel): nat {
    match level case Abstract => 0 case Overview => 1 case Detail => 2
  }

  predicate Passes(r: Request, item: ContextItem) {
    && (r.categories == [] || item.category.None? || item.category.value in r.categories)
    && LevelOrder(item.level) <= LevelOrder(r.maxLevel)
  }

  function Gathered(sources: seq<Source>): seq<ContextItem> {
    if sources == [] then []
    else
      var front, last := Gathered(sources[..|sources| - 1]), sources[|sources| - 1].result;
      if last.Items? then front + last.items else front
  }

  function Degraded(sources: seq<Source>): seq<string> {
    if sources == [] then []
    else
      var front, last := Degraded(sources[..|sources| - 1]), sources[|sources| - 1];
      if last.result.Items? then front else front + [last.name]
  }

  function Surviving(r: Request, sources: seq<Source>): seq<ContextItem> {
    Filter(Gathered(sources), item => Passes(r, item))
  }

  // ----- duplicates

  function Better(seen: Dict<string, ContextItem>, item: ContextItem): (r: Dict<string, ContextItem>)
    requires seen.Wf()
    ensures r.Wf()
  {
    seen.PutWf(item.itemId, item);
    if item.itemId !in seen.at || item.score > seen.at[item.itemId].score then seen.Put(item.itemId, item) else seen
  }

  function Best(items: seq<ContextItem>): (r: Dict<string, ContextItem>)
    ensures r.Wf()
  {
    if items == [] then EmptyDict() else Better(Best(items[..|items| - 1]), items[|items| - 1])
  }

  function Values(d: Dict<string, ContextItem>): seq<ContextItem>
    requires d.Wf()
  {
    seq(|d.order|, i requires 0 <= i < |d.order| && d.order[i] in d.at => d.at[d.order[i]])
  }

  /** `y` is one of the items, scored above every earlier copy and no lower than any. */
  ghost predicate FirstBest(y: ContextItem, items: seq<ContextItem>) {
    && (forall x :: x in items && x.itemId == y.itemId ==> x.score <= y.score)
    && exists i :: FirstBestAt(y, items, i)
  }

  ghost predicate FirstBestAt(y: ContextItem, items: seq<ContextItem>, i: nat) {
    && i < |items| && items[i] == y
    && forall j :: 0 <= j < i && items[j].itemId == y.itemId ==> items[j].score < y.score
  }

  /** `kept` has one copy per id of `items`, each the first among the best scored. */
  ghost predicate IsDeduplicated(kept: seq<ContextItem>, items: seq<ContextItem>) {
    && DistinctIds(kept)
    && (forall x :: x in kept ==> FirstBest(x, items))
    && (forall x {:trigger Covered(kept, x)} :: x in items ==> Covered(kept, x))
  }

  /** Some kept copy stands in for `x`, scored no lower. */
  ghost predicate Covered(kept: seq<ContextItem>, x: ContextItem) {
    exists y :: y in kept && y.itemId == x.itemId && x.score <= y.score
  }

  /** `d` keeps, under its id, the first best copy of each id in `items`. */
  ghost predicate KeepsBest(d: Dict<string, ContextItem>, items: seq<ContextItem>) {
    && d.Wf()
    && (forall id :: id in d.at ==> d.at[id].itemId == id && FirstBest(d.at[id], items))
    && (forall x :: x in items ==> x.itemId in d.at)
  }

  lemma StillFirstBest(y: ContextItem, front: seq<ContextItem>, last: ContextItem)
    requires FirstBest(y, front) && (last.itemId == y.itemId ==> last.score <= y.score)
    ensures FirstBest(y, front + [last])
  {
    var i :| FirstBestAt(y, front, i);
    assert FirstBestAt(y, front + [last], i);
  }

  lemma NewFirstBest(front: seq<ContextItem>, last: ContextItem)
    requires forall x :: x in front && x.itemId == last.itemId ==> x.score < last.score
    ensures FirstBest(last, front + [last])
  {
    assert FirstBestAt(last, front + [last], |front|);
  }

  lemma OneMoreItem(d: Dict<string, ContextItem>, front: seq<ContextItem>, last: ContextItem,
                    r: Dict<string, ContextItem>, items: seq<ContextItem>)
    requires KeepsBest(d, front) && r == Better(d, last) && items == front + [last]
    ensures KeepsBest(r, items)
  {
    forall id | id in r.at ensures r.at[id].itemId == id && FirstBest(r.at[id], items) {
      if id in d.at && r.at[id] == d.at[id] {
        StillFirstBest(d.at[id], front, last);
      } else {
        NewFirstBest(front, last);
      }
    }
  }

  lemma NothingKept()
    ensures KeepsBest(Best([]), [])
  {
  }

  lemma {:induction false} BestIsBest(items: seq<ContextItem>)
    ensures KeepsBest(Best(items), items)
  {
    if items == [] {
      NothingKept();
    } else {
      var front, last := items[..|items| - 1], items[|items| - 1];
      BestIsBest(front);
      OneMoreItem(Best(front), front, last, Best(items), items);
    }
  }

  lemma ValuesAre(items: seq<ContextItem>, i: nat)
    requires i < |Best(items).order|
    ensures Best(items).order[i] in Best(items).at
    ensures Values(Best(items))[i] == Best(items).at[Best(items).order[i]]
    ensures Values(Best(items))[i].itemId == Best(items).order[i] && Values(Best(items))[i] in items
  {
    BestIsBest(items);
    assert Best(items).order[i] in Best(items).order;
  }

  lemma EveryIdIsKept(items: seq<ContextItem>, x: ContextItem)
    requires x in items
    ensures Covered(Values(Best(items)), x)
  {
    BestIsBest(items);
    assert x.itemId in Best(items).order;
    var i :| 0 <= i < |Best(items).order| && Best(items).order[i] == x.itemId;
    ValuesAre(items, i);
    assert Values(Best(items))[i] in Values(Best(items));
  }

  lemma ValuesAreDeduplicated(items: seq<ContextItem>)
    ensures IsDeduplicated(Values(Best(items)), items)
  {
    var kept := Values(Best(items));
    BestIsBest(items);
    forall i | 0 <= i < |kept| ensures kept[i].itemId == Best(items).order[i] && kept[i] in items {
      ValuesAre(items, i);
    }
    forall x | x in items ensures Covered(kept, x) {
      EveryIdIsKept(items, x);
    }
  }

  method Deduplicate(items: seq<ContextItem>) returns (kept: seq<ContextItem>)
    ensures kept == Values(Best(items))
    ensures IsDeduplicated(kept, items)
  {
    var seen: Dict<string, ContextItem> := EmptyDict();
    for i := 0 to |items|
      invariant seen == Best(items[..i])
    {
      assert items[..i + 1][..i] == items[..i];
      var item := items[i];
      if item.itemId !in seen.at || item.score > seen.at[item.itemId].score {
        seen := seen.Put(item.itemId, item);
      }
    }
    assert items[..|items|] == items;
    ValuesAreDeduplicated(items);
    kept := Values(seen);
  }

  // ----- the budget

  function ItemTokens(item: ContextItem): nat {
    |item.content| / 4
  }

  function TotalTokens(items: seq<ContextItem>): nat {
    if items == [] then 0 else TotalTokens(items[..|items| - 1]) + ItemTokens(items[|items| - 1])
  }

  lemma {:induction false} TokensGrow(items: seq<ContextItem>, n: nat)
    requires n <= |items|
    ensures TotalTokens(items[..n]) <= TotalTokens(items)
  {
    if n < |items| {
      TokensGrow(items[..|items| - 1], n);
      assert items[..|items| - 1][..n] == items[..n];
    } else {
      assert items[..n] == items;
    }
  }

  /** `kept` is the longest prefix of the ranking whose tokens stay within the budget; a
      negative budget leaves nothing. */
  ghost predicate LongestPrefixWithin(kept: seq<ContextItem>, ranked: seq<ContextItem>, budget: int) {
    && kept <= ranked
    && (kept != [] ==> TotalTokens(kept) <= budget)
    && forall n :: |kept| < n <= |ranked| ==> TotalTokens(ranked[..n]) > budget
  }

  method ApplyTokenBudget(items: seq<ContextItem>, budget: int) returns (kept: seq<ContextItem>)
    ensures LongestPrefixWithin(kept, items, budget)
  {
    kept := [];
    var used := 0;
    for i := 0 to |items|
      invariant kept == items[..i] && used == TotalTokens(kept)
      invariant kept != [] ==> used <= budget
    {
      assert items[..i + 1][..i] == items[..i];
      var tokens := |items[i].content| / 4;
      if used + tokens > budget {
        forall n | i < n <= |items| ensures TotalTokens(items[..n]) > budget {
          TokensGrow(items[..n], i + 1);
          assert items[..n][..i + 1] == items[..i + 1];
        }
        return;
      }
      kept := kept + [items[i]];
      used := used + tokens;
    }
  }

  // ----- the whole

  function ByScore(): ContextItem -> real {
    (item: ContextItem) => item.score
  }

  function Adjusted(items: seq<ContextItem>, adjust: ContextItem -> real): seq<ContextItem> {
    seq(|items|, i requires 0 <= i < |items| => items[i].(score := adjust(items[i])))
  }

  /** Best score first, then, when the task asks for it, again by the adjusted score. */
  function Ranked(r: Request, unique: seq<ContextItem>): seq<ContextItem> {
    var sorted := SortDescending(unique, ByScore());
    if r.adjust.None? then sorted else SortDescending(Adjusted(sorted, r.adjust.value), ByScore())
  }

  /** The same item but for the score it was ranked with. */
  predicate SameButScore(a: ContextItem, b: ContextItem) {
    a == b.(score := a.score)
  }

  method Gather(sources: seq<Source>) returns (items: seq<ContextItem>, degraded: seq<string>)
    ensures items == Gathered(sources) && degraded == Degraded(sources)
  {
    items, degraded := [], [];
    for i := 0 to |sources|
      invariant items == Gathered(sources[..i]) && degraded == Degraded(sources[..i])
    {
      assert sources[..i + 1][..i] == sources[..i];
      if sources[i].result.Items? {
        items := items + sources[i].result.items;
      } else {
        degraded := degraded + [sources[i].name];
      }
    }
    assert sources[..|sources|] == sources;
  }

  method CountTokens(items: seq<ContextItem>) returns (total: nat)
    ensures total == TotalTokens(items)
  {
    total := 0;
    for i := 0 to |items|
      invariant total == TotalTokens(items[..i])
    {
      assert items[..i + 1][..i] == items[..i];
      total := total + |items[i].content| / 4;
    }
    assert items[..|items|] == items;
  }

  method Aggregate(r: Request, sources: seq<Source>) returns (snapshot: ContextSnapshot, degraded: seq<string>)
    ensures IsAggregate(r, sources, snapshot) && degraded == Degraded(sources)
  {
    var allItems;
    allItems, degraded := Gather(sources);
    var surviving := Filter(allItems, item => Passes(r, item));
    var unique := Deduplicate(surviving);
    var ranked := SortDescending(unique, ByScore());
    if r.adjust.Some? {
      ranked := SortDescending(Adjusted(ranked, r.adjust.value), ByScore());
    }
    var budgeted := ApplyTokenBudget(ranked, r.tokenBudget);
    var total := CountTokens(budgeted);
    snapshot := ContextSnapshot(r.scopeId, r.sessionId, budgeted, total, r.tokenBudget);
  }

  /** The snapshot holds the longest prefix of the ranking that stays within the budget. */
  ghost predicate IsAggregate(r: Request, sources: seq<Source>, snapshot: ContextSnapshot) {
    && snapshot.scopeId == r.scopeId && snapshot.sessionId == r.sessionId && snapshot.tokenBudget == r.tokenBudget
    && LongestPrefixWithin(snapshot.items, Ranked(r, Values(Best(Surviving(r, sources)))), r.tokenBudget)
    && snapshot.totalTokens == TotalTokens(snapshot.items)
  }

  // ----- what every snapshot guarantees

  /** Each item of the ranking is, but for its score, a kept item. */
  lemma RankedIsKept(r: Request, unique: seq<ContextItem>, x: ContextItem)
    requires x in Ranked(r, unique)
    ensures exists y :: y in unique && SameButScore(x, y)
  {
    var sorted := SortDescending(unique, ByScore());
    SortDescendingMembers(unique, ByScore());
    if r.adjust.Some? {
      var adjusted := Adjusted(sorted, r.adjust.value);
      SortDescendingMembers(adjusted, ByScore());
      var i :| 0 <= i < |adjusted| && adjusted[i] == x;
      assert sorted[i] in sorted && SameButScore(x, sorted[i]);
    } else {
      assert SameButScore(x, x);
    }
  }

  /** Each kept item is, but for its score, in the ranking. */
  lemma KeptIsRanked(r: Request, unique: seq<ContextItem>, y: ContextItem)
    requires y in unique
    ensures exists x :: x in Ranked(r, unique) && SameButScore(x, y)
  {
    var sorted := SortDescending(unique, ByScore());
    SortDescendingMembers(unique, ByScore());
    if r.adjust.Some? {
      var adjusted := Adjusted(sorted, r.adjust.value);
      SortDescendingMembers(adjusted, ByScore());
      var i :| 0 <= i < |sorted| && sorted[i] == y;
      assert adjusted[i] in adjusted && SameButScore(adjusted[i], y);
    } else {
      assert SameButScore(y, y);
    }
  }

  lemma RankedDescends(r: Request, unique: seq<ContextItem>)
    ensures Descending(Ranked(r, unique), ByScore())
  {
    var sorted := SortDescending(unique, ByScore());
    SortDescendingSorts(unique, ByScore());
    if r.adjust.Some? {
      SortDescendingSorts(Adjusted(sorted, r.adjust.value), ByScore());
    }
  }

  lemma RankedDistinct(r: Request, unique: seq<ContextItem>)
    requires DistinctIds(unique)
    ensures DistinctIds(Ranked(r, unique))
  {
    var sorted := SortDescending(unique, ByScore());
    SortKeepsDistinctIds(unique);
    if r.adjust.Some? {
      SortKeepsDistinctIds(Adjusted(sorted, r.adjust.value));
    }
  }

  lemma SortKeepsDistinctIds(items: seq<ContextItem>)
    requires DistinctIds(items)
    ensures DistinctIds(SortDescending(items, ByScore()))
  {
    var sorted := SortDescending(items, ByScore());
    SortDescendingSorts(items, ByScore());
    SortDescendingMembers(items, ByScore());
    assert Distinct(items);
    PermutationDistinct(items, sorted);
    forall i, j | 0 <= i < j < |sorted| ensures sorted[i].itemId != sorted[j].itemId {
      assert sorted[i] in sorted && sorted[j] in sorted;
      var p :| 0 <= p < |items| && items[p] == sorted[i];
      var q :| 0 <= q < |items| && items[q] == sorted[j];
      assert p != q;
    }
  }

  /** `x` is the first best-scored surviving copy, ranked perhaps with an adjusted score. */
  ghost predicate FromBestCopy(x: ContextItem, items: seq<ContextItem>) {
    exists y :: SameButScore(x, y) && FirstBest(y, items)
  }

  lemma RankedAreBestCopies(r: Request, items: seq<ContextItem>, x: ContextItem)
    requires x in Ranked(r, Values(Best(items)))
    ensures FromBestCopy(x, items)
  {
    var unique := Values(Best(items));
    ValuesAreDeduplicated(items);
    RankedIsKept(r, unique, x);
    var y :| y in unique && SameButScore(x, y);
    assert FirstBest(y, items);
  }

  /** What survives and is not a duplicate, in the order of the ids' first appearance. */
  function Unique(r: Request, sources: seq<Source>): seq<ContextItem> {
    Values(Best(Surviving(r, sources)))
  }

  /** The ids in the order they are first met. */
  function FirstMet(items: seq<ContextItem>): seq<string> {
    if items == [] then []
    else
      var before, id := FirstMet(items[..|items| - 1]), items[|items| - 1].itemId;
      if id in before then before else before + [id]
  }

  lemma {:induction false} BestKeepsFirstMet(items: seq<ContextItem>)
    ensures Best(items).order == FirstMet(items)
  {
    if items != [] {
      BestKeepsFirstMet(items[..|items| - 1]);
    }
  }

  /** The deduplicated items stand in the order their ids first appear in, and in the ranking
      by score items of equal score still do. */
  lemma EqualScoresKeepOrder(r: Request, sources: seq<Source>, score: real)
    requires r.adjust.None?
    ensures var unique := Unique(r, sources);
      && |unique| == |FirstMet(Surviving(r, sources))|
      && (forall i :: 0 <= i < |unique| ==> unique[i].itemId == FirstMet(Surviving(r, sources))[i])
      && Filter(Ranked(r, unique), WithKey(ByScore(), score)) == Filter(unique, WithKey(ByScore(), score))
  {
    var items := Surviving(r, sources);
    BestKeepsFirstMet(items);
    forall i | 0 <= i < |Values(Best(items))| ensures Values(Best(items))[i].itemId == FirstMet(items)[i] {
      ValuesAre(items, i);
    }
    SortDescendingStable(Unique(r, sources), ByScore(), score);
  }

  /** With task conditioning, items of equal adjusted score keep their rank by score. */
  lemma EqualAdjustedScoresKeepOrder(r: Request, sources: seq<Source>, adjusted: seq<ContextItem>, score: real)
    requires r.adjust.Some? && adjusted == Adjusted(SortDescending(Unique(r, sources), ByScore()), r.adjust.value)
    ensures Filter(Ranked(r, Unique(r, sources)), WithKey(ByScore(), score)) == Filter(adjusted, WithKey(ByScore(), score))
  {
    SortDescendingStable(adjusted, ByScore(), score);
  }

  lemma AppendUnmet(d: Dict<string, ContextItem>, front: seq<ContextItem>, last: ContextItem)
    requires d.Wf() && Values(d) == front && last.itemId !in d.at
    ensures Values(Better(d, last)) == front + [last]
  {
    d.PutWf(last.itemId, last);
    var r := Better(d, last);
    forall i | 0 <= i < |front| ensures Values(r)[i] == front[i] {
      assert d.order[i] in d.order;
      assert Values(d)[i] == d.at[d.order[i]];
    }
  }

  /** Deduplication leaves items of distinct ids as they are. */
  lemma {:induction false} DistinctItemsStay(items: seq<ContextItem>)
    requires DistinctIds(items)
    ensures Values(Best(items)) == items
  {
    if items != [] {
      var front, last := items[..|items| - 1], items[|items| - 1];
      DistinctItemsStay(front);
      forall i | 0 <= i < |Best(front).order| ensures Best(front).order[i] != last.itemId {
        ValuesAre(front, i);
        assert front[i] == items[i];
      }
      assert last.itemId !in Best(front).order;
      AppendUnmet(Best(front), front, last);
      assert items == front + [last];
    }
  }

  /** Duplicates are told by id alone: the same text under two ids is kept twice. */
  lemma EqualContentsAreBothKept(a: ContextItem, id: string)
    requires id != a.itemId
    ensures Values(Best([a, a.(itemId := id)])) == [a, a.(itemId := id)]
  {
    DistinctItemsStay([a, a.(itemId := id)]);
  }

  /** Every snapshot has distinct ids, in descending score; each of its items is, but for the
      score, the first surviving copy that no other copy of that id outscores. */
  lemma SnapshotIsSound(r: Request, sources: seq<Source>, snapshot: ContextSnapshot)
    requires IsAggregate(r, sources, snapshot)
    ensures DistinctIds(snapshot.items) && Descending(snapshot.items, ByScore())
    ensures forall x :: x in snapshot.items ==> FromBestCopy(x, Surviving(r, sources))
  {
    var unique := Values(Best(Surviving(r, sources)));
    var ranked := Ranked(r, unique);
    ValuesAreDeduplicated(Surviving(r, sources));
    RankedDistinct(r, unique);
    RankedDescends(r, unique);
    assert snapshot.items == ranked[..|snapshot.items|];
    forall x | x in snapshot.items ensures FromBestCopy(x, Surviving(r, sources)) {
      assert x in ranked;
      RankedAreBestCopies(r, Surviving(r, sources), x);
    }
  }

  /** The token total is within the budget exactly when the budget is not negative. */
  lemma SnapshotFitsBudget(r: Request, sources: seq<Source>, snapshot: ContextSnapshot)
    requires IsAggregate(r, sources, snapshot)
    ensures snapshot.totalTokens <= snapshot.tokenBudget <==> 0 <= snapshot.tokenBudget
  {
    if snapshot.items == [] {
      assert snapshot.totalTokens == 0;
    }
  }

  /** No surviving id is lost unless the budget cuts the ranking short before it. */
  lemma NothingLostWithinBudget(r: Request, sources: seq<Source>, snapshot: ContextSnapshot, x: ContextItem)
    requires IsAggregate(r, sources, snapshot) && x in Surviving(r, sources)
    requires TotalTokens(Ranked(r, Values(Best(Surviving(r, sources))))) <= r.tokenBudget
    ensures exists y :: y in snapshot.items && y.itemId == x.itemId
  {
    var unique := Values(Best(Surviving(r, sources)));
    var ranked := Ranked(r, unique);
    assert ranked[..|ranked|] == ranked;
    assert snapshot.items == ranked;
    EveryIdIsKept(Surviving(r, sources), x);
    var y :| y in unique && y.itemId == x.itemId;
    KeptIsRanked(r, unique, y);
    var z :| z in ranked && SameButScore(z, y);
    assert z.itemId == x.itemId;
  }

  // ----- which items survive, and with what scores

  lemma {:induction false} GatheredFrom(sources: seq<Source>, x: ContextItem)
    ensures x in Gathered(sources) <==> exists s :: s in sources && s.result.Items? && x in s.result.items
  {
    if sources != [] {
      var front, last := sources[..|sources| - 1], sources[|sources| - 1];
      assert sources == front + [last];
      GatheredFrom(front, x);
    }
  }

  /** An item survives exactly when a source that answered with items holds it, its level is
      no finer than the one asked for, and its category, if it has one, is asked for. */
  lemma SurvivingIs(r: Request, sources: seq<Source>, x: ContextItem)
    ensures x in Surviving(r, sources) <==>
      && (exists s :: s in sources && s.result.Items? && x in s.result.items)
      && (x.level == Abstract || r.maxLevel == Detail || (x.level == Overview && r.maxLevel == Overview))
      && (r.categories == [] || x.category == None || exists c :: c in r.categories && x.category == Some(c))
  {
    GatheredFrom(sources, x);
  }

  /** Items are gathered source by source, and the sources that fail are named in that order. */
  lemma {:induction false} SourcesInOrder(a: seq<Source>, b: seq<Source>)
    ensures Gathered(a + b) == Gathered(a) + Gathered(b) && Degraded(a + b) == Degraded(a) + Degraded(b)
    ensures |b| == 1 ==> Gathered(b) == (if b[0].result.Items? then b[0].result.items else [])
    ensures |b| == 1 ==> Degraded(b) == (if b[0].result.Items? then [] else [b[0].name])
  {
    if b == [] {
      assert a + b == a;
    } else {
      var front, last := b[..|b| - 1], b[|b| - 1];
      assert (a + b)[..|a + b| - 1] == a + front && (a + b)[|a + b| - 1] == last;
      SourcesInOrder(a, front);
    }
  }

  /** Each ranked item is the first best-scored surviving copy of its id, with its own score
      or, when the task asks for it, with that score adjusted once. */
  lemma RankedScores(r: Request, sources: seq<Source>, x: ContextItem)
    requires x in Ranked(r, Unique(r, sources))
    ensures exists y :: FirstBest(y, Surviving(r, sources)) && x == y.(score := if r.adjust.Some? then r.adjust.value(y) else y.score)
  {
    var unique := Unique(r, sources);
    var sorted := SortDescending(unique, ByScore());
    ValuesAreDeduplicated(Surviving(r, sources));
    SortDescendingMembers(unique, ByScore());
    if r.adjust.Some? {
      var adjusted := Adjusted(sorted, r.adjust.value);
      SortDescendingMembers(adjusted, ByScore());
      var i :| 0 <= i < |adjusted| && adjusted[i] == x;
      assert sorted[i] in sorted;
      assert FirstBest(sorted[i], Surviving(r, sources));
    } else {
      assert FirstBest(x, Surviving(r, sources));
    }
  }

  function Characters(items: seq<ContextItem>): nat {
    if items == [] then 0 else Characters(items[..|items| - 1]) + |items[|items| - 1].content|
  }

  /** Four characters count as a token, short of at most three characters an item. */
  lemma {:induction false} TokensAreQuarters(items: seq<ContextItem>)
    ensures 4 * TotalTokens(items) <= Characters(items) <= 4 * TotalTokens(items) + 3 * |items|
  {
    if items != [] {
      TokensAreQuarters(items[..|items| - 1]);
    }
  }
}
