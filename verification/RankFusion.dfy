/** Reciprocal rank fusion of several result lists, over exact reals. */
module RankFusion {
  import opened PyCollections
  import opened ContextModels

  function Share(k: nat, rank: nat): real {
    1.0 / (k + rank + 1) as real
  }

  /** What one list adds to an id: a share for every rank it holds. */
  function Contribution(k: nat, results: seq<ContextItem>, id: string): real {
    if results == [] then 0.0
    else
      var front := results[..|results| - 1];
      Contribution(k, front, id) + (if results[|results| - 1].itemId == id then Share(k, |front|) else 0.0)
  }

  function RankSum(k: nat, lists: seq<seq<ContextItem>>, id: string): real {
    if lists == [] then 0.0
    else RankSum(k, lists[..|lists| - 1], id) + Contribution(k, lists[|lists| - 1], id)
  }

  /** The ids of a list appended to those already met, in order of first appearance. */
  function Met(ids: seq<string>, results: seq<ContextItem>): seq<string> {
    if results == [] then ids
    else
      var before, id := Met(ids, results[..|results| - 1]), results[|results| - 1].itemId;
      if id in before then before else before + [id]
  }

  function AllMet(lists: seq<seq<ContextItem>>): seq<string> {
    if lists == [] then [] else Met(AllMet(lists[..|lists| - 1]), lists[|lists| - 1])
  }

  /** The copy of an item that comes last through all the lists. */
  function LastCopy(lists: seq<seq<ContextItem>>): map<string, ContextItem> {
    if lists == [] then map[] else CopiesAfter(LastCopy(lists[..|lists| - 1]), lists[|lists| - 1])
  }

  function CopiesAfter(copies: map<string, ContextItem>, results: seq<ContextItem>): map<string, ContextItem> {
    if results == [] then copies
    else
      var last := results[|results| - 1];
      CopiesAfter(copies, results[..|results| - 1])[last.itemId := last]
  }

  function BySum(k: nat, lists: seq<seq<ContextItem>>): string -> real {
    id => RankSum(k, lists, id)
  }

  /** All ids met, by descending rank sum; ties in order of first appearance. */
  function Ranking(k: nat, lists: seq<seq<ContextItem>>): seq<string> {
    SortDescending(AllMet(lists), BySum(k, lists))
  }

  function Capped(x: real): real {
    if x < 1.0 then x else 1.0
  }

  // ----- the loops

  lemma {:induction false} CopiesCoverMet(lists: seq<seq<ContextItem>>)
    ensures forall id :: id in AllMet(lists) <==> id in LastCopy(lists)
    ensures Distinct(AllMet(lists))
  {
    if lists != [] {
      var front := lists[..|lists| - 1];
      CopiesCoverMet(front);
      MetCopies(AllMet(front), LastCopy(front), lists[|lists| - 1]);
    }
  }

  lemma {:induction false} MetCopies(ids: seq<string>, copies: map<string, ContextItem>, results: seq<ContextItem>)
    requires Distinct(ids) && forall id :: id in ids <==> id in copies
    ensures forall id :: id in Met(ids, results) <==> id in CopiesAfter(copies, results)
    ensures Distinct(Met(ids, results))
  {
    if results != [] {
      MetCopies(ids, copies, results[..|results| - 1]);
    }
  }

  /** The accumulated scores are the rank sums of the ids met so far, and the item map holds
      their last copies; `done` lists are finished and `rank` items of the next. */
  ghost predicate Accumulated(k: nat, done: seq<seq<ContextItem>>, part: seq<ContextItem>,
                              scores: Dict<string, real>, items: map<string, ContextItem>) {
    && scores.Wf()
    && scores.order == Met(AllMet(done), part)
    && items == CopiesAfter(LastCopy(done), part)
    && (forall id :: id in scores.at ==> scores.at[id] == RankSum(k, done, id) + Contribution(k, part, id))
  }

  lemma {:induction false} UnmetSumsToZero(k: nat, lists: seq<seq<ContextItem>>, id: string)
    requires id !in AllMet(lists)
    ensures RankSum(k, lists, id) == 0.0
  {
    if lists != [] {
      UnmetContributesZero(k, AllMet(lists[..|lists| - 1]), lists[|lists| - 1], id);
      UnmetSumsToZero(k, lists[..|lists| - 1], id);
    }
  }

  lemma {:induction false} UnmetContributesZero(k: nat, ids: seq<string>, results: seq<ContextItem>, id: string)
    requires id !in Met(ids, results)
    ensures id !in ids && Contribution(k, results, id) == 0.0
  {
    if results != [] {
      UnmetContributesZero(k, ids, results[..|results| - 1], id);
    }
  }

  function WithShare(scores: Dict<string, real>, id: string, share: real): Dict<string, real> {
    scores.Put(id, (if id in scores.at then scores.at[id] else 0.0) + share)
  }

  lemma NotYetMet(k: nat, done: seq<seq<ContextItem>>, part: seq<ContextItem>, id: string)
    requires id !in Met(AllMet(done), part)
    ensures RankSum(k, done, id) == 0.0 && Contribution(k, part, id) == 0.0
  {
    UnmetContributesZero(k, AllMet(done), part, id);
    UnmetSumsToZero(k, done, id);
  }

  lemma ContributionGrows(k: nat, results: seq<ContextItem>, rank: nat, id: string)
    requires rank < |results|
    ensures Contribution(k, results[..rank + 1], id)
      == Contribution(k, results[..rank], id) + (if id == results[rank].itemId then Share(k, rank) else 0.0)
  {
    assert results[..rank + 1][..rank] == results[..rank];
  }

  lemma AccumulateOne(k: nat, done: seq<seq<ContextItem>>, results: seq<ContextItem>, rank: nat,
                      scores: Dict<string, real>, items: map<string, ContextItem>)
    requires rank < |results| && Accumulated(k, done, results[..rank], scores, items)
    ensures var id := results[rank].itemId;
      Accumulated(k, done, results[..rank + 1], WithShare(scores, id, Share(k, rank)), items[id := results[rank]])
  {
    var id := results[rank].itemId;
    assert results[..rank + 1][..rank] == results[..rank];
    scores.PutWf(id, (if id in scores.at then scores.at[id] else 0.0) + Share(k, rank));
    if id !in scores.at {
      assert id !in scores.order;
      NotYetMet(k, done, results[..rank], id);
    }
    var after := WithShare(scores, id, Share(k, rank));
    forall other | other in after.at
      ensures after.at[other] == RankSum(k, done, other) + Contribution(k, results[..rank + 1], other)
    {
      ContributionGrows(k, results, rank, other);
    }
  }

  lemma FinishList(k: nat, done: seq<seq<ContextItem>>, part: seq<ContextItem>,
                   scores: Dict<string, real>, items: map<string, ContextItem>)
    requires Accumulated(k, done, part, scores, items)
    ensures Accumulated(k, done + [part], [], scores, items)
  {
    assert (done + [part])[..|done|] == done;
  }

  /** The inner loop: one list added to the scores of the lists already `done`. */
  method AddList(results: seq<ContextItem>, k: nat, ghost done: seq<seq<ContextItem>>,
                 scores0: Dict<string, real>, itemMap0: map<string, ContextItem>)
    returns (scores: Dict<string, real>, itemMap: map<string, ContextItem>)
    requires Accumulated(k, done, [], scores0, itemMap0)
    ensures Accumulated(k, done + [results], [], scores, itemMap)
  {
    scores, itemMap := scores0, itemMap0;
    for rank := 0 to |results|
      invariant Accumulated(k, done, results[..rank], scores, itemMap)
    {
      var item := results[rank];
      AccumulateOne(k, done, results, rank, scores, itemMap);
      scores := WithShare(scores, item.itemId, Share(k, rank));
      itemMap := itemMap[item.itemId := item];
    }
    assert results[..|results|] == results;
    FinishList(k, done, results, scores, itemMap);
  }

  /** The outer loop. */
  method Accumulate(resultLists: seq<seq<ContextItem>>, k: nat)
    returns (scores: Dict<string, real>, itemMap: map<string, ContextItem>)
    ensures Accumulated(k, resultLists, [], scores, itemMap)
  {
    scores, itemMap := EmptyDict(), map[];
    for i := 0 to |resultLists|
      invariant Accumulated(k, resultLists[..i], [], scores, itemMap)
    {
      scores, itemMap := AddList(resultLists[i], k, resultLists[..i], scores, itemMap);
      assert resultLists[..i + 1] == resultLists[..i] + [resultLists[i]];
    }
    assert resultLists[..|resultLists|] == resultLists;
  }

  function Scored(scores: Dict<string, real>): string -> real {
    id => if id in scores.at then scores.at[id] else 0.0
  }

  lemma RankingOfScores(k: nat, lists: seq<seq<ContextItem>>, scores: Dict<string, real>, items: map<string, ContextItem>)
    requires Accumulated(k, lists, [], scores, items)
    ensures SortDescending(scores.order, Scored(scores)) == Ranking(k, lists)
    ensures items == LastCopy(lists)
    ensures forall i :: 0 <= i < |Ranking(k, lists)| ==> var id := Ranking(k, lists)[i];
      id in items && id in scores.at && scores.at[id] == RankSum(k, lists, id)
  {
    var ranking := Ranking(k, lists);
    CopiesCoverMet(lists);
    SortByEqualKeys(scores.order, Scored(scores), BySum(k, lists));
    SortDescendingSorts(AllMet(lists), BySum(k, lists));
    SameElements(ranking, AllMet(lists));
    forall i | 0 <= i < |ranking| ensures ranking[i] in scores.at {
      assert ranking[i] in ranking;
    }
  }

  /** `finalScore` blends an item's rank sum with its hotness. */
  method RrfFuse(resultLists: seq<seq<ContextItem>>, k: nat, topK: int, finalScore: (ContextItem, real) -> real)
    returns (result: seq<ContextItem>)
    ensures var ranking, copies := Ranking(k, resultLists), LastCopy(resultLists);
      && |result| == |Take(ranking, topK)|
      && forall i :: 0 <= i < |result| ==>
           ranking[i] in copies && result[i] == copies[ranking[i]].(
             score := Capped(finalScore(copies[ranking[i]], RankSum(k, resultLists, ranking[i]))))
    ensures forall i :: 0 <= i < |result| ==> result[i].score <= 1.0
    ensures var ranking, copies := Ranking(k, resultLists), LastCopy(resultLists);
      forall i :: 0 <= i < |result| ==>
        ranking[i] in copies &&
        var blended := finalScore(copies[ranking[i]], RankSum(k, resultLists, ranking[i]));
        blended <= 1.0 ==> result[i].score == blended
  {
    var scores, itemMap := Accumulate(resultLists, k);
    var sortedIds := SortDescending(scores.order, Scored(scores));
    RankingOfScores(k, resultLists, scores, itemMap);
    var top := Take(sortedIds, topK);
    result := [];
    for i := 0 to |top|
      invariant |result| == i
      invariant forall j :: 0 <= j < i ==>
        result[j] == itemMap[sortedIds[j]].(
          score := Capped(finalScore(itemMap[sortedIds[j]], scores.at[sortedIds[j]])))
    {
      assert top[i] == sortedIds[i];
      var item := itemMap[top[i]];
      result := result + [item.(score := Capped(finalScore(item, scores.at[top[i]])))];
    }
  }

  lemma {:induction false} SortByEqualKeys<T>(s: seq<T>, f: T -> real, g: T -> real)
    requires forall x :: x in s ==> f(x) == g(x)
    ensures SortDescending(s, f) == SortDescending(s, g)
  {
    if s != [] {
      var front, last := s[..|s| - 1], s[|s| - 1];
      SortByEqualKeys(front, f, g);
      SortDescendingMembers(front, f);
      InsertByEqualKeys(SortDescending(front, f), last, f, g);
    }
  }

  lemma {:induction false} InsertByEqualKeys<T>(s: seq<T>, x: T, f: T -> real, g: T -> real)
    requires f(x) == g(x) && forall y :: y in s ==> f(y) == g(y)
    ensures InsertDescending(s, x, f) == InsertDescending(s, x, g)
  {
    if s != [] {
      InsertByEqualKeys(s[..|s| - 1], x, f, g);
    }
  }

  // ----- what the fused order guarantees

  /** The output ids are distinct, as many as asked for or as there are, each id met in the
      lists ranked once, and in descending rank sum. */
  lemma RankingIsSortedDistinct(k: nat, lists: seq<seq<ContextItem>>, topK: nat)
    ensures var top := Take(Ranking(k, lists), topK);
      && Distinct(top)
      && |top| == Min(topK, |LastCopy(lists)|)
      && (forall id :: id in Ranking(k, lists) <==> exists l, i :: 0 <= l < |lists| && 0 <= i < |lists[l]| && lists[l][i].itemId == id)
      && (forall i, j :: 0 <= i < j < |top| ==> RankSum(k, lists, top[i]) >= RankSum(k, lists, top[j]))
  {
    var met, ranking := AllMet(lists), Ranking(k, lists);
    RankingPermutes(k, lists);
    DistinctCardinality(met);
    assert (set id | id in met) == LastCopy(lists).Keys;
    forall i, j | 0 <= i < j < |ranking| ensures RankSum(k, lists, ranking[i]) >= RankSum(k, lists, ranking[j]) {
      RankingDescends(k, lists, i, j);
    }
    forall id ensures id in met <==> exists l, i :: 0 <= l < |lists| && 0 <= i < |lists[l]| && lists[l][i].itemId == id {
      MetIffListed(lists, id);
    }
  }

  lemma RankingPermutes(k: nat, lists: seq<seq<ContextItem>>)
    ensures Distinct(Ranking(k, lists)) && Distinct(AllMet(lists))
    ensures forall id :: id in Ranking(k, lists) <==> id in AllMet(lists)
    ensures forall id :: id in AllMet(lists) <==> id in LastCopy(lists)
    ensures |Ranking(k, lists)| == |AllMet(lists)|
  {
    CopiesCoverMet(lists);
    SortDescendingSorts(AllMet(lists), BySum(k, lists));
    SortDescendingMembers(AllMet(lists), BySum(k, lists));
    PermutationDistinct(AllMet(lists), Ranking(k, lists));
  }

  lemma RankingDescends(k: nat, lists: seq<seq<ContextItem>>, i: nat, j: nat)
    requires i < j < |Ranking(k, lists)|
    ensures RankSum(k, lists, Ranking(k, lists)[i]) >= RankSum(k, lists, Ranking(k, lists)[j])
  {
    SortDescendingSorts(AllMet(lists), BySum(k, lists));
    assert BySum(k, lists)(Ranking(k, lists)[i]) >= BySum(k, lists)(Ranking(k, lists)[j]);
  }

  lemma {:induction false} MetIffListed(lists: seq<seq<ContextItem>>, id: string)
    ensures id in AllMet(lists) <==> exists l, i :: 0 <= l < |lists| && 0 <= i < |lists[l]| && lists[l][i].itemId == id
  {
    if lists != [] {
      var front := lists[..|lists| - 1];
      MetIffListed(front, id);
      MetIffIn(AllMet(front), lists[|lists| - 1], id);
      if id in AllMet(front) {
        var l, i :| 0 <= l < |front| && 0 <= i < |front[l]| && front[l][i].itemId == id;
        assert lists[l][i].itemId == id;
      }
      if l, i :| 0 <= l < |lists| && 0 <= i < |lists[l]| && lists[l][i].itemId == id {
        if l < |front| {
          assert front[l][i].itemId == id;
        }
      }
    }
  }

  lemma {:induction false} MetIffIn(ids: seq<string>, results: seq<ContextItem>, id: string)
    ensures id in Met(ids, results) <==> id in ids || exists i :: 0 <= i < |results| && results[i].itemId == id
  {
    if results != [] {
      MetIffIn(ids, results[..|results| - 1], id);
    }
  }

  /** Ids with equal rank sums keep the order of their first appearance. */
  lemma EqualSumsKeepOrder(k: nat, lists: seq<seq<ContextItem>>, sum: real)
    ensures Filter(Ranking(k, lists), WithKey(BySum(k, lists), sum)) == Filter(AllMet(lists), WithKey(BySum(k, lists), sum))
  {
    SortDescendingStable(AllMet(lists), BySum(k, lists), sum);
  }

  // ----- list order does not matter

  lemma {:induction false} RankSumAppend(k: nat, a: seq<seq<ContextItem>>, b: seq<seq<ContextItem>>, id: string)
    ensures RankSum(k, a + b, id) == RankSum(k, a, id) + RankSum(k, b, id)
  {
    if b == [] {
      assert a + b == a;
    } else {
      assert (a + b)[..|a + b| - 1] == a + b[..|b| - 1];
      RankSumAppend(k, a, b[..|b| - 1], id);
    }
  }

  lemma RankSumSplit(k: nat, lists: seq<seq<ContextItem>>, i: nat, id: string)
    requires i < |lists|
    ensures RankSum(k, lists, id) == RankSum(k, lists[..i] + lists[i + 1..], id) + Contribution(k, lists[i], id)
  {
    assert lists == lists[..i + 1] + lists[i + 1..];
    assert lists[..i + 1][..i] == lists[..i];
    RankSumAppend(k, lists[..i + 1], lists[i + 1..], id);
    RankSumAppend(k, lists[..i], lists[i + 1..], id);
  }

  lemma RemoveFromBoth<T>(a: seq<T>, b: seq<T>, i: nat)
    requires a != [] && i < |b| && b[i] == a[|a| - 1] && multiset(a) == multiset(b)
    ensures multiset(a[..|a| - 1]) == multiset(b[..i] + b[i + 1..])
  {
    assert a == a[..|a| - 1] + [b[i]];
    assert b == b[..i] + [b[i]] + b[i + 1..];
    var x, y := multiset(a[..|a| - 1]), multiset(b[..i] + b[i + 1..]);
    assert x + multiset{b[i]} == multiset(a) == multiset(b) == y + multiset{b[i]};
    assert (x + multiset{b[i]}) - multiset{b[i]} == x;
    assert (y + multiset{b[i]}) - multiset{b[i]} == y;
  }

  /** Rank sums do not depend on the order of the lists. */
  lemma {:induction false} RankSumIgnoresOrder(k: nat, lists1: seq<seq<ContextItem>>, lists2: seq<seq<ContextItem>>, id: string)
    requires multiset(lists1) == multiset(lists2)
    ensures RankSum(k, lists1, id) == RankSum(k, lists2, id)
    decreases |lists1|
  {
    SameElements(lists1, lists2);
    if lists1 != [] {
      var last := |lists1| - 1;
      assert lists1[last] in lists2;
      var i :| 0 <= i < |lists2| && lists2[i] == lists1[last];
      RemoveFromBoth(lists1, lists2, i);
      RankSumIgnoresOrder(k, lists1[..last], lists2[..i] + lists2[i + 1..], id);
      RankSumSplit(k, lists2, i, id);
    }
  }

  // ----- dominance

  ghost predicate Holds(results: seq<ContextItem>, id: string) {
    exists i :: 0 <= i < |results| && results[i].itemId == id
  }

  /** `x` stands before `y` in the list. */
  ghost predicate Before(results: seq<ContextItem>, x: string, y: string) {
    exists i, j :: 0 <= i < j < |results| && results[i].itemId == x && results[j].itemId == y
  }

  lemma ShareShrinks(k: nat, i: nat, j: nat)
    requires i < j
    ensures 0.0 < Share(k, j) < Share(k, i)
  {
    var a, b := (k + i + 1) as real, (k + j + 1) as real;
    assert 0.0 < a < b;
    assert 1.0 / b < 1.0 / a;
  }

  lemma {:induction false} UnlistedGivesNothing(k: nat, results: seq<ContextItem>, id: string)
    requires forall i :: 0 <= i < |results| ==> results[i].itemId != id
    ensures Contribution(k, results, id) == 0.0
  {
    if results != [] {
      UnlistedGivesNothing(k, results[..|results| - 1], id);
    }
  }

  /** In a duplicate-free list an id earns exactly the share of its one rank. */
  lemma {:induction false} ListedGivesShare(k: nat, results: seq<ContextItem>, i: nat)
    requires DistinctIds(results) && i < |results|
    ensures Contribution(k, results, results[i].itemId) == Share(k, i)
  {
    var front := results[..|results| - 1];
    if i < |front| {
      ListedGivesShare(k, front, i);
    } else {
      UnlistedGivesNothing(k, front, results[i].itemId);
    }
  }

  lemma ContributionIsNotNegative(k: nat, results: seq<ContextItem>, id: string)
    requires DistinctIds(results)
    ensures 0.0 <= Contribution(k, results, id)
  {
    if i :| 0 <= i < |results| && results[i].itemId == id {
      ListedGivesShare(k, results, i);
      ShareShrinks(k, i, i + 1);
    } else {
      UnlistedGivesNothing(k, results, id);
    }
  }

  lemma BeforeContributesMore(k: nat, results: seq<ContextItem>, x: string, y: string)
    requires DistinctIds(results) && (Holds(results, y) ==> Before(results, x, y))
    ensures Contribution(k, results, x) >= Contribution(k, results, y)
    ensures Holds(results, y) ==> Contribution(k, results, x) > Contribution(k, results, y)
  {
    if Holds(results, y) {
      var i, j :| 0 <= i < j < |results| && results[i].itemId == x && results[j].itemId == y;
      ListedGivesShare(k, results, i);
      ListedGivesShare(k, results, j);
      ShareShrinks(k, i, j);
    } else {
      UnlistedGivesNothing(k, results, y);
      ContributionIsNotNegative(k, results, x);
    }
  }

  lemma {:induction false} DominatedSum(k: nat, lists: seq<seq<ContextItem>>, x: string, y: string)
    requires forall l :: 0 <= l < |lists| ==> DistinctIds(lists[l]) && (Holds(lists[l], y) ==> Before(lists[l], x, y))
    ensures RankSum(k, lists, x) >= RankSum(k, lists, y)
    ensures (exists l :: 0 <= l < |lists| && Holds(lists[l], y)) ==> RankSum(k, lists, x) > RankSum(k, lists, y)
  {
    if lists != [] {
      DominatedSum(k, lists[..|lists| - 1], x, y);
      BeforeContributesMore(k, lists[|lists| - 1], x, y);
      if l :| 0 <= l < |lists| && Holds(lists[l], y) {
        assert l < |lists| - 1 ==> lists[..|lists| - 1][l] == lists[l];
      }
    }
  }

  /** In duplicate-free lists, an id that stands above another in every list holding the
      other comes before it in the output, whenever the other makes the output at all. */
  lemma DominanceIsRespected(k: nat, lists: seq<seq<ContextItem>>, topK: nat, x: string, y: string, j: nat)
    requires forall l :: 0 <= l < |lists| ==> DistinctIds(lists[l]) && (Holds(lists[l], y) ==> Before(lists[l], x, y))
    requires var top := Take(Ranking(k, lists), topK); j < |top| && top[j] == y
    ensures var top := Take(Ranking(k, lists), topK); exists i :: 0 <= i < j && top[i] == x
  {
    var ranking := Ranking(k, lists);
    RankingIsSortedDistinct(k, lists, |ranking|);
    assert Take(ranking, |ranking|) == ranking;
    assert ranking[j] in ranking;
    var l, q :| 0 <= l < |lists| && 0 <= q < |lists[l]| && lists[l][q].itemId == y;
    assert Holds(lists[l], y);
    DominatedSum(k, lists, x, y);
    var p, p' :| 0 <= p < p' < |lists[l]| && lists[l][p].itemId == x && lists[l][p'].itemId == y;
    assert x in ranking;
    var i :| 0 <= i < |ranking| && ranking[i] == x;
    assert i < j;
    assert Take(ranking, topK)[i] == x;
  }

  // ----- one list alone

  function Ids(results: seq<ContextItem>): seq<string> {
    seq(|results|, i requires 0 <= i < |results| => results[i].itemId)
  }

  lemma {:induction false} MetInOrder(results: seq<ContextItem>)
    requires DistinctIds(results)
    ensures Met([], results) == Ids(results)
  {
    if results != [] {
      var front, id := results[..|results| - 1], results[|results| - 1].itemId;
      MetInOrder(front);
      assert id !in Ids(front);
      assert Ids(results) == Ids(front) + [id];
    }
  }

  /** Fusing a single duplicate-free list keeps its order. */
  lemma SingleListKeepsOrder(k: nat, results: seq<ContextItem>)
    requires DistinctIds(results)
    ensures |Ranking(k, [results])| == |results|
    ensures forall i :: 0 <= i < |results| ==> Ranking(k, [results])[i] == results[i].itemId
  {
    var lists := [results];
    assert lists[..0] == [];
    var met := AllMet(lists);
    assert AllMet(lists[..0]) == [];
    assert met == Met([], results);
    MetInOrder(results);
    forall i, j | 0 <= i < j < |met| ensures BySum(k, lists)(met[i]) >= BySum(k, lists)(met[j]) {
      ListedGivesShare(k, results, i);
      ListedGivesShare(k, results, j);
      ShareShrinks(k, i, j);
      assert RankSum(k, lists, met[i]) == Contribution(k, results, met[i]);
      assert RankSum(k, lists, met[j]) == Contribution(k, results, met[j]);
    }
    SortDescendingIdentity(met, BySum(k, lists));
  }

  // ----- the numbers and the copies

  /** Where a list holds an id. */
  function Position(results: seq<ContextItem>, id: string): Option<nat> {
    if results == [] then None
    else if results[|results| - 1].itemId == id then Some(|results| - 1)
    else Position(results[..|results| - 1], id)
  }

  /** The sum of 1 / (k + position) over the lists that hold the id, positions from one. */
  function Reciprocals(k: nat, lists: seq<seq<ContextItem>>, id: string): real {
    if lists == [] then 0.0
    else
      var position := Position(lists[|lists| - 1], id);
      Reciprocals(k, lists[..|lists| - 1], id) + (if position.Some? then 1.0 / (k + (position.value + 1)) as real else 0.0)
  }

  lemma {:induction false} PositionIs(results: seq<ContextItem>, id: string)
    requires DistinctIds(results)
    ensures var position := Position(results, id);
      && (position.Some? ==> position.value < |results| && results[position.value].itemId == id)
      && (position.None? ==> forall i :: 0 <= i < |results| ==> results[i].itemId != id)
  {
    if results != [] {
      PositionIs(results[..|results| - 1], id);
    }
  }

  /** The score an id is ranked by is the reciprocal rank sum, for duplicate-free lists. */
  lemma {:induction false} RankSumIsReciprocals(k: nat, lists: seq<seq<ContextItem>>, id: string)
    requires forall l :: 0 <= l < |lists| ==> DistinctIds(lists[l])
    ensures RankSum(k, lists, id) == Reciprocals(k, lists, id)
  {
    if lists != [] {
      var last := lists[|lists| - 1];
      RankSumIsReciprocals(k, lists[..|lists| - 1], id);
      PositionIs(last, id);
      if Position(last, id).Some? {
        ListedGivesShare(k, last, Position(last, id).value);
      } else {
        UnlistedGivesNothing(k, last, id);
      }
    }
  }

  /** No item after that one, in its list or in a later one, has its id. */
  ghost predicate NoneLater(lists: seq<seq<ContextItem>>, l: nat, i: nat)
    requires l < |lists| && i < |lists[l]|
  {
    forall m, j :: l <= m < |lists| && 0 <= j < |lists[m]| && (m > l || j > i) ==> lists[m][j].itemId != lists[l][i].itemId
  }

  lemma {:induction false} CopyFrom(copies: map<string, ContextItem>, results: seq<ContextItem>, id: string) returns (i: nat)
    ensures i <= |results| && forall j :: i < j < |results| ==> results[j].itemId != id
    ensures i < |results| ==> results[i].itemId == id
    ensures i < |results| ==> id in CopiesAfter(copies, results) && CopiesAfter(copies, results)[id] == results[i]
    ensures i == |results| ==> (forall j :: 0 <= j < |results| ==> results[j].itemId != id)
    ensures i == |results| ==> (id in CopiesAfter(copies, results) <==> id in copies)
    ensures i == |results| && id in copies ==> CopiesAfter(copies, results)[id] == copies[id]
  {
    if results == [] {
      i := 0;
    } else if results[|results| - 1].itemId == id {
      i := |results| - 1;
    } else {
      i := CopyFrom(copies, results[..|results| - 1], id);
      if i == |results| - 1 {
        i := |results|;
      }
    }
  }

  /** The item handed out for an id is its copy that comes last through all the lists. */
  lemma {:induction false} LastCopyIsLast(lists: seq<seq<ContextItem>>, id: string) returns (l: nat, i: nat)
    requires id in LastCopy(lists)
    ensures l < |lists| && i < |lists[l]| && lists[l][i].itemId == id
    ensures LastCopy(lists)[id] == lists[l][i] && NoneLater(lists, l, i)
  {
    var front, last := lists[..|lists| - 1], lists[|lists| - 1];
    i := CopyFrom(LastCopy(front), last, id);
    l := |lists| - 1;
    if i == |last| {
      l, i := LastCopyIsLast(front, id);
      assert forall m :: 0 <= m < |front| ==> lists[m] == front[m];
    }
  }
}
