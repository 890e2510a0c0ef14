/** What a listing of versions shows, in the terms of the calls: whose snapshots, described how. */
module VersionListing {
  import opened PyCollections
  import opened ContextModels
  import opened VersionStore

  /** Call `i` created a version that no later call has deleted. */
  ghost predicate Live(hasS3: bool, ops: seq<Op>, i: nat) {
    && i < |ops| && ops[i].Create?
    && forall j :: i < j < |ops| && ops[j].Delete? && ops[j].versionId == ops[i].versionId ==> hasS3 && !ops[j].up
  }

  /** The record says what its create call was given and what it saved. */
  predicate Describes(r: Record, op: Op) {
    && op.Create?
    && r.versionId == op.versionId && r.contextId == op.snapshot.scopeId + ":" + op.snapshot.sessionId
    && r.caption == op.caption && r.createdBy == op.createdBy && r.createdAt == op.now
    && r.tokenCount == op.snapshot.totalTokens && r.itemCount == |op.snapshot.items|
  }

  lemma RecordDescribes(op: Op, r: Record)
    requires op.Create?
    ensures r == RecordOf(op.versionId, op.snapshot, op.caption, op.createdBy, op.now) <==> Describes(r, op)
  {
    assert "" + op.snapshot.scopeId + ":" + op.snapshot.sessionId == op.snapshot.scopeId + ":" + op.snapshot.sessionId;
  }

  lemma {:induction false} LiveIsRecorded(hasS3: bool, ops: seq<Op>, i: nat)
    requires FreshIds(ops) && Live(hasS3, ops, i)
    ensures ops[i].versionId in LiveRecords(hasS3, ops) && Describes(LiveRecords(hasS3, ops)[ops[i].versionId], ops[i])
  {
    var front, last := ops[..|ops| - 1], ops[|ops| - 1];
    if i == |ops| - 1 {
      RecordDescribes(last, LiveRecords(hasS3, ops)[last.versionId]);
    } else {
      assert front[i] == ops[i];
      LiveIsRecorded(hasS3, front, i);
      assert last.Delete? && last.versionId == ops[i].versionId ==> hasS3 && !last.up;
    }
  }

  lemma {:induction false} RecordedIsLive(hasS3: bool, ops: seq<Op>, id: string) returns (i: nat)
    requires id in LiveRecords(hasS3, ops)
    ensures Live(hasS3, ops, i) && ops[i].versionId == id && Describes(LiveRecords(hasS3, ops)[id], ops[i])
  {
    var front, last := ops[..|ops| - 1], ops[|ops| - 1];
    if last.Create? && last.versionId == id {
      i := |ops| - 1;
      RecordDescribes(last, LiveRecords(hasS3, ops)[id]);
    } else {
      i := RecordedIsLive(hasS3, front, id);
      assert ops[i] == front[i];
    }
  }

  /** No snapshot of another session was saved under the context of this one. */
  ghost predicate Unshared(ops: seq<Op>, scopeId: string, sessionId: string) {
    forall i :: 0 <= i < |ops| && ops[i].Create?
      && ContextId(ops[i].snapshot.scopeId, ops[i].snapshot.sessionId) == ContextId(scopeId, sessionId)
      ==> ops[i].snapshot.scopeId == scopeId && ops[i].snapshot.sessionId == sessionId
  }

  /** So it is when no session id holds a colon. */
  lemma ColonFreeContexts(ops: seq<Op>, scopeId: string, sessionId: string)
    requires ':' !in sessionId && forall i :: 0 <= i < |ops| && ops[i].Create? ==> ':' !in ops[i].snapshot.sessionId
    ensures Unshared(ops, scopeId, sessionId)
  {
    forall i | 0 <= i < |ops| && ops[i].Create?
      && ContextId(ops[i].snapshot.scopeId, ops[i].snapshot.sessionId) == ContextId(scopeId, sessionId)
      ensures ops[i].snapshot.scopeId == scopeId && ops[i].snapshot.sessionId == sessionId
    {
      ScopedKeyInjective("", ops[i].snapshot.scopeId, ops[i].snapshot.sessionId, scopeId, sessionId);
    }
  }

  /** `r` describes a live version of a snapshot of this very session. */
  ghost predicate OfSession(hasS3: bool, ops: seq<Op>, scopeId: string, sessionId: string, r: Record) {
    exists i: nat :: Live(hasS3, ops, i) && Describes(r, ops[i])
      && ops[i].snapshot.scopeId == scopeId && ops[i].snapshot.sessionId == sessionId
  }

  lemma CurrentIsOfSession(hasS3: bool, ops: seq<Op>, scopeId: string, sessionId: string, r: Record)
    requires FreshIds(ops) && Unshared(ops, scopeId, sessionId)
    ensures Current(LiveRecords(hasS3, ops), ContextId(scopeId, sessionId), r) <==> OfSession(hasS3, ops, scopeId, sessionId, r)
  {
    var records, c := LiveRecords(hasS3, ops), ContextId(scopeId, sessionId);
    if Current(records, c, r) {
      var i := RecordedIsLive(hasS3, ops, r.versionId);
      RecordDescribes(ops[i], r);
      assert ContextId(ops[i].snapshot.scopeId, ops[i].snapshot.sessionId) == c;
    }
    if OfSession(hasS3, ops, scopeId, sessionId, r) {
      var i: nat :| Live(hasS3, ops, i) && Describes(r, ops[i])
        && ops[i].snapshot.scopeId == scopeId && ops[i].snapshot.sessionId == sessionId;
      LiveIsRecorded(hasS3, ops, i);
      RecordDescribes(ops[i], r);
      RecordDescribes(ops[i], records[r.versionId]);
    }
  }

  /** When the session's context is not shared, as without colons it never is: a listing with
      room enough shows exactly the versions created of snapshots of this very session and not
      deleted since, each once, with what its create call was given. */
  lemma ListingShowsTheSession(hasS3: bool, ops: seq<Op>, scopeId: string, sessionId: string, limit: int)
    requires FreshIds(ops) && Unshared(ops, scopeId, sessionId)
    requires |Indexed(Run(hasS3, ops), ContextId(scopeId, sessionId))| <= limit
    ensures var listed := Listed(Run(hasS3, ops), ContextId(scopeId, sessionId), limit);
      && DistinctVersions(listed)
      && (forall r :: r in listed <==> OfSession(hasS3, ops, scopeId, sessionId, r))
  {
    var c := ContextId(scopeId, sessionId);
    var listed := Listed(Run(hasS3, ops), c, limit);
    ListingIsExact(hasS3, ops, scopeId, sessionId, limit);
    forall r ensures r in listed <==> OfSession(hasS3, ops, scopeId, sessionId, r) {
      CurrentIsOfSession(hasS3, ops, scopeId, sessionId, r);
      assert r in listed <==> multiset(listed)[r] > 0;
    }
    ListedOnce(hasS3, ops, c, limit);
  }

  lemma ListedOnce(hasS3: bool, ops: seq<Op>, c: string, limit: int)
    requires FreshIds(ops)
    ensures DistinctVersions(Listed(Run(hasS3, ops), c, limit))
  {
    StoreMatchesIdeal(hasS3, ops);
    var found := Indexed(Run(hasS3, ops), c);
    var sorted := SortDescending(found, Newest());
    SortDescendingSorts(found, Newest());
    SortDescendingMembers(found, Newest());
    assert DistinctVersions(found);
    DistinctVersionsAreDistinct(found);
    PermutationDistinct(found, sorted);
    forall i, j | 0 <= i < j < |sorted| ensures sorted[i].versionId != sorted[j].versionId {
      assert Current(LiveRecords(hasS3, ops), c, sorted[i]) by { assert sorted[i] in found; }
      assert Current(LiveRecords(hasS3, ops), c, sorted[j]) by { assert sorted[j] in found; }
    }
  }

  lemma DistinctVersionsAreDistinct(records: seq<Record>)
    requires DistinctVersions(records)
    ensures Distinct(records)
  {
    forall i, j | 0 <= i < j < |records| ensures records[i] != records[j] {
      assert records[i].versionId != records[j].versionId;
    }
  }

  /** Without room a listing shows as many as the limit, and none it leaves out is newer. */
  lemma ListingKeepsNewest(st: Store, c: string, limit: int, left: Record, shown: Record)
    requires 0 <= limit && shown in Listed(st, c, limit) && left in Indexed(st, c) && left !in Listed(st, c, limit)
    ensures |Listed(st, c, limit)| == Min(limit, |Indexed(st, c)|) && shown in Indexed(st, c)
    ensures left.createdAt <= shown.createdAt
  {
    var found := Indexed(st, c);
    var sorted := SortDescending(found, Newest());
    SortDescendingSorts(found, Newest());
    SortDescendingMembers(found, Newest());
    var i :| 0 <= i < |Listed(st, c, limit)| && Listed(st, c, limit)[i] == shown;
    var j :| 0 <= j < |sorted| && sorted[j] == left;
    assert forall m :: 0 <= m < |Listed(st, c, limit)| ==> sorted[m] == Listed(st, c, limit)[m] && sorted[m] != left;
    assert Newest()(sorted[i]) >= Newest()(sorted[j]);
  }

  /** A session id with a colon: the listing of session `b:c` of scope `a` shows the version
      created of session `c` of scope `a:b`. */
  lemma ForeignVersionIsListed(hasS3: bool, create: Op, limit: int, r: Record)
    requires create.Create? && create.snapshot.scopeId == "a:b" && create.snapshot.sessionId == "c" && 1 <= limit
    requires Describes(r, create)
    ensures r in Listed(Run(hasS3, [create]), ContextId("a", "b:c"), limit)
    ensures !OfSession(hasS3, [create], "a", "b:c", r)
  {
    assert ContextId("a:b", "c") == ContextId("a", "b:c");
    RecordDescribes(create, r);
    OneCreated(hasS3, create, r);
    assert |create.snapshot.scopeId| != |"a"|;
  }

  lemma OneCreated(hasS3: bool, create: Op, r: Record)
    requires create.Create? && r == RecordOf(create.versionId, create.snapshot, create.caption, create.createdBy, create.now)
    ensures forall limit :: 1 <= limit ==> r in Listed(Run(hasS3, [create]), r.contextId, limit)
  {
    assert [create][..0] == [];
    var st := Run(hasS3, [create]);
    assert Run(hasS3, []) == Store(hasS3, map[], map[], map[]) && [create][|[create]| - 1] == create;
    assert st == Created(Run(hasS3, [create][..0]), r, create.snapshot, create.up);
    assert st.index == map[r.contextId := [] + [r]];
    assert Indexed(st, r.contextId) == [] + [r];
    forall limit | 1 <= limit ensures r in Listed(st, r.contextId, limit) {
      assert ([] + [r])[..0] == [] && SortDescending([] + [r], Newest()) == [r];
    }
  }
}
