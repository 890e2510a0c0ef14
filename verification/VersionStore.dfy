/** Versioned snapshots kept in an object store, with an in-process fallback. An object
    store call either succeeds or raises without effect; `up` says which. The JSON text of
    a snapshot is the snapshot. */
module VersionStore {
  import opened PyCollections
  import opened ContextModels

  datatype Record = Record(
    versionId: string, contextId: string, caption: string, createdBy: string,
    tokenCount: int, itemCount: nat, createdAt: real)

  datatype Error = VersionNotFound | ObjectStoreUnavailable

  /** `bucket` is the content of the object store, which exists only when `hasS3`. */
  datatype Store = Store(
    hasS3: bool,
    bucket: map<string, ContextSnapshot>,
    index: map<string, seq<Record>>,
    localData: map<string, ContextSnapshot>)

  function ContextId(scopeId: string, sessionId: string): string {
    ScopedKey("", scopeId, sessionId)
  }

  function RecordOf(versionId: string, snapshot: ContextSnapshot, caption: string, createdBy: string, now: real): Record {
    Record(versionId, ContextId(snapshot.scopeId, snapshot.sessionId), caption, createdBy,
      snapshot.totalTokens, |snapshot.items|, now)
  }

  function Saved(st: Store, versionId: string, snapshot: ContextSnapshot, up: bool): Store {
    if st.hasS3 && up then st.(bucket := st.bucket[versionId := snapshot])
    else st.(localData := st.localData[versionId := snapshot])
  }

  function Created(st: Store, r: Record, snapshot: ContextSnapshot, up: bool): Store {
    var before := if r.contextId in st.index then st.index[r.contextId] else [];
    Saved(st, r.versionId, snapshot, up).(index := st.index[r.contextId := before + [r]])
  }

  function Loaded(st: Store, versionId: string, up: bool): Result<ContextSnapshot, Error> {
    if st.hasS3 && up && versionId in st.bucket then Ok(st.bucket[versionId])
    else if versionId in st.localData then Ok(st.localData[versionId])
    else Err(if st.hasS3 then ObjectStoreUnavailable else VersionNotFound)
  }

  function Others(versionId: string): Record -> bool {
    (r: Record) => r.versionId != versionId
  }

  function Deleted(st: Store, versionId: string, up: bool): Store {
    if st.hasS3 && !up then st
    else Store(st.hasS3, if st.hasS3 then st.bucket - {versionId} else st.bucket,
      map c | c in st.index :: Filter(st.index[c], Others(versionId)), st.localData - {versionId})
  }

  function Newest(): Record -> real {
    (r: Record) => r.createdAt
  }

  function Indexed(st: Store, contextId: string): seq<Record> {
    if contextId in st.index then st.index[contextId] else []
  }

  function Listed(st: Store, contextId: string, limit: int): seq<Record> {
    Take(SortDescending(Indexed(st, contextId), Newest()), limit)
  }

  class ContextVersionManager {
    const hasS3: bool
    var bucket: map<string, ContextSnapshot>
    var index: map<string, seq<Record>>
    var localData: map<string, ContextSnapshot>

    constructor (hasS3: bool)
      ensures View() == Store(hasS3, map[], map[], map[])
    {
      this.hasS3 := hasS3;
      bucket, index, localData := map[], map[], map[];
    }

    function View(): Store
      reads this
    {
      Store(hasS3, bucket, index, localData)
    }

    method CreateSnapshot(snapshot: ContextSnapshot, caption: string, createdBy: string,
                          versionId: string, now: real, up: bool) returns (record: Record)
      modifies this
      ensures record == RecordOf(versionId, snapshot, caption, createdBy, now)
      ensures View() == Created(old(View()), record, snapshot, up)
    {
      record := RecordOf(versionId, snapshot, caption, createdBy, now);
      var stored := false;
      if hasS3 && up {
        bucket := bucket[versionId := snapshot];
        stored := true;
      }
      if !stored {
        localData := localData[versionId := snapshot];
      }
      if record.contextId !in index {
        index := index[record.contextId := []];
      }
      index := index[record.contextId := index[record.contextId] + [record]];
    }

    method Restore(scopeId: string, sessionId: string, versionId: string, up: bool)
      returns (r: Result<ContextSnapshot, Error>)
      ensures r == Loaded(View(), versionId, up)
    {
      if hasS3 {
        if up && versionId in bucket {
          return Ok(bucket[versionId]);
        }
        if versionId !in localData {
          return Err(ObjectStoreUnavailable);
        }
      }
      if versionId !in localData {
        return Err(VersionNotFound);
      }
      return Ok(localData[versionId]);
    }

    method ListVersions(scopeId: string, sessionId: string, limit: int) returns (records: seq<Record>)
      ensures records == Listed(View(), ContextId(scopeId, sessionId), limit)
    {
      var contextId := ContextId(scopeId, sessionId);
      var found := if contextId in index then index[contextId] else [];
      records := Take(SortDescending(found, Newest()), limit);
    }

    method DeleteVersion(versionId: string, up: bool) returns (failure: Option<Error>)
      modifies this
      ensures failure == if hasS3 && !up then Some(ObjectStoreUnavailable) else None
      ensures View() == Deleted(old(View()), versionId, up)
    {
      if hasS3 {
        if !up {
          return Some(ObjectStoreUnavailable);
        }
        bucket := bucket - {versionId};
      }
      localData := localData - {versionId};
      var contexts := index.Keys;
      while contexts != {}
        invariant index.Keys == old(index).Keys && contexts <= index.Keys
        invariant forall c :: c in contexts ==> index[c] == old(index)[c]
        invariant forall c :: c in index && c !in contexts ==> index[c] == Filter(old(index)[c], Others(versionId))
        decreases contexts
        modifies this`index
      {
        var c :| c in contexts;
        index := index[c := Filter(index[c], Others(versionId))];
        contexts := contexts - {c};
      }
      assert index == Deleted(old(View()), versionId, up).index;
      return None;
    }
  }

  // ----- whole runs against the ideal store

  datatype Op =
    | Create(versionId: string, snapshot: ContextSnapshot, caption: string, createdBy: string, now: real, up: bool)
    | Delete(versionId: string, up: bool)

  function Run(hasS3: bool, ops: seq<Op>): Store {
    if ops == [] then Store(hasS3, map[], map[], map[])
    else
      var st := Run(hasS3, ops[..|ops| - 1]);
      match ops[|ops| - 1]
      case Create(id, snapshot, caption, author, now, up) => Created(st, RecordOf(id, snapshot, caption, author, now), snapshot, up)
      case Delete(id, up) => Deleted(st, id, up)
  }

  /** What ought to be stored: every snapshot created and not since deleted. */
  function Ideal(hasS3: bool, ops: seq<Op>): map<string, ContextSnapshot> {
    if ops == [] then map[]
    else
      var before := Ideal(hasS3, ops[..|ops| - 1]);
      match ops[|ops| - 1]
      case Create(id, snapshot, _, _, _, _) => before[id := snapshot]
      case Delete(id, up) => if hasS3 && !up then before else before - {id}
  }

  /** Version ids are generated, never reused. */
  ghost predicate FreshIds(ops: seq<Op>) {
    forall i, j :: 0 <= i < j < |ops| && ops[i].Create? && ops[j].Create? ==> ops[i].versionId != ops[j].versionId
  }

  /** The data of each live version sits in exactly one place, and nothing else is kept. */
  ghost predicate DataMatches(st: Store, ideal: map<string, ContextSnapshot>) {
    && (!st.hasS3 ==> st.bucket == map[])
    && st.bucket.Keys !! st.localData.Keys
    && st.bucket + st.localData == ideal
  }

  /** What ought to be listed: the record made by each create call, while its version lives. */
  function LiveRecords(hasS3: bool, ops: seq<Op>): map<string, Record> {
    if ops == [] then map[]
    else
      var before := LiveRecords(hasS3, ops[..|ops| - 1]);
      match ops[|ops| - 1]
      case Create(id, snapshot, caption, author, now, _) => before[id := RecordOf(id, snapshot, caption, author, now)]
      case Delete(id, up) => if hasS3 && !up then before else before - {id}
  }

  predicate Current(records: map<string, Record>, contextId: string, r: Record) {
    r.versionId in records && records[r.versionId] == r && r.contextId == contextId
  }

  ghost predicate DistinctVersions(records: seq<Record>) {
    forall i, j :: 0 <= i < j < |records| ==> records[i].versionId != records[j].versionId
  }

  /** Each live version is listed once, under its own context, with the record made at its
      creation, and nothing else is listed. */
  ghost predicate IndexMatches(st: Store, records: map<string, Record>) {
    && (forall c :: DistinctVersions(Indexed(st, c)))
    && (forall c, r :: r in Indexed(st, c) <==> Current(records, c, r))
  }

  lemma CreateKeepsIndex(st: Store, records: map<string, Record>, r: Record, snapshot: ContextSnapshot, up: bool)
    requires IndexMatches(st, records) && r.versionId !in records
    ensures IndexMatches(Created(st, r, snapshot, up), records[r.versionId := r])
  {
    var st', records' := Created(st, r, snapshot, up), records[r.versionId := r];
    assert Indexed(st', r.contextId) == Indexed(st, r.contextId) + [r];
    assert forall c :: c != r.contextId ==> Indexed(st', c) == Indexed(st, c);
    forall c, q ensures q in Indexed(st', c) <==> Current(records', c, q) {
      assert q in Indexed(st, c) <==> Current(records, c, q);
    }
    forall c ensures DistinctVersions(Indexed(st', c)) {
      assert DistinctVersions(Indexed(st, c));
      forall q | q in Indexed(st, c) ensures q.versionId != r.versionId {
        assert Current(records, c, q);
      }
    }
  }

  lemma {:induction false} FilterKeepsDistinctVersions(records: seq<Record>, keep: Record -> bool)
    requires DistinctVersions(records)
    ensures DistinctVersions(Filter(records, keep))
  {
    if records != [] {
      var front, last := records[..|records| - 1], records[|records| - 1];
      FilterKeepsDistinctVersions(front, keep);
      forall r | r in Filter(front, keep) ensures r.versionId != last.versionId {
        assert r in front;
      }
    }
  }

  lemma DeleteKeepsIndex(st: Store, records: map<string, Record>, versionId: string, up: bool)
    requires IndexMatches(st, records) && (st.hasS3 ==> up)
    ensures IndexMatches(Deleted(st, versionId, up), records - {versionId})
  {
    var st', records' := Deleted(st, versionId, up), records - {versionId};
    assert Filter([], Others(versionId)) == [];
    assert forall c :: Indexed(st', c) == Filter(Indexed(st, c), Others(versionId));
    forall c, q ensures q in Indexed(st', c) <==> Current(records', c, q) {
      assert q in Indexed(st, c) <==> Current(records, c, q);
    }
    forall c ensures DistinctVersions(Indexed(st', c)) {
      assert DistinctVersions(Indexed(st, c));
      FilterKeepsDistinctVersions(Indexed(st, c), Others(versionId));
    }
  }

  lemma CreateKeepsData(st: Store, ideal: map<string, ContextSnapshot>, r: Record, snapshot: ContextSnapshot, up: bool)
    requires DataMatches(st, ideal) && r.versionId !in ideal
    ensures DataMatches(Created(st, r, snapshot, up), ideal[r.versionId := snapshot])
  {
    var st', id := Created(st, r, snapshot, up), r.versionId;
    assert id !in st.bucket && id !in st.localData by {
      assert (st.bucket + st.localData).Keys == ideal.Keys;
    }
    assert st'.bucket + st'.localData == ideal[id := snapshot];
  }

  lemma DeleteKeepsData(st: Store, ideal: map<string, ContextSnapshot>, versionId: string, up: bool)
    requires DataMatches(st, ideal) && (st.hasS3 ==> up)
    ensures DataMatches(Deleted(st, versionId, up), ideal - {versionId})
  {
    var st' := Deleted(st, versionId, up);
    assert st'.bucket + st'.localData == (st.bucket + st.localData) - {versionId};
  }

  lemma {:induction false} OnlyCreatedIdsAreLive(hasS3: bool, ops: seq<Op>, id: string)
    requires forall i :: 0 <= i < |ops| && ops[i].Create? ==> ops[i].versionId != id
    ensures id !in Ideal(hasS3, ops)
  {
    if ops != [] {
      OnlyCreatedIdsAreLive(hasS3, ops[..|ops| - 1], id);
    }
  }

  /** Snapshots and records live and die together. */
  lemma {:induction false} RecordsDescribeSnapshots(hasS3: bool, ops: seq<Op>)
    ensures LiveRecords(hasS3, ops).Keys == Ideal(hasS3, ops).Keys
    ensures forall id :: id in Ideal(hasS3, ops) ==>
      var r, snapshot := LiveRecords(hasS3, ops)[id], Ideal(hasS3, ops)[id];
      r == RecordOf(id, snapshot, r.caption, r.createdBy, r.createdAt)
  {
    if ops != [] {
      RecordsDescribeSnapshots(hasS3, ops[..|ops| - 1]);
    }
  }

  /** In every reachable state, under any pattern of object store failures, the stored data
      and the index agree with the ideal store. */
  lemma {:induction false} StoreMatchesIdeal(hasS3: bool, ops: seq<Op>)
    requires FreshIds(ops)
    ensures var st := Run(hasS3, ops);
      st.hasS3 == hasS3 && DataMatches(st, Ideal(hasS3, ops)) && IndexMatches(st, LiveRecords(hasS3, ops))
  {
    if ops != [] {
      var front, op := ops[..|ops| - 1], ops[|ops| - 1];
      StoreMatchesIdeal(hasS3, front);
      var st, ideal, records := Run(hasS3, front), Ideal(hasS3, front), LiveRecords(hasS3, front);
      match op
      case Create(id, snapshot, caption, author, now, up) =>
        OnlyCreatedIdsAreLive(hasS3, front, id);
        RecordsDescribeSnapshots(hasS3, front);
        var r := RecordOf(id, snapshot, caption, author, now);
        CreateKeepsData(st, ideal, r, snapshot, up);
        CreateKeepsIndex(st, records, r, snapshot, up);
      case Delete(id, up) =>
        if !(hasS3 && !up) {
          DeleteKeepsData(st, ideal, id, up);
          DeleteKeepsIndex(st, records, id, up);
        }
    }
  }

  /** Restoring returns the snapshot saved, unless its data is in the object store and the
      call fails; what is not live is never restored, and "not found" is the answer only
      when no object store is configured. */
  lemma RestoreIsExact(hasS3: bool, ops: seq<Op>, id: string, up: bool)
    requires FreshIds(ops)
    ensures var st, ideal, r := Run(hasS3, ops), Ideal(hasS3, ops), Loaded(Run(hasS3, ops), id, up);
      && (r.Ok? <==> id in ideal && (id in st.bucket ==> up))
      && (r.Ok? ==> r.value == ideal[id])
      && (r.Err? ==> (r.error == VersionNotFound <==> !hasS3))
  {
    StoreMatchesIdeal(hasS3, ops);
  }

  lemma {:induction false} DeletedStaysDead(hasS3: bool, ops: seq<Op>, id: string, up: bool, later: seq<Op>)
    requires hasS3 ==> up
    requires forall i :: 0 <= i < |later| && later[i].Create? ==> later[i].versionId != id
    ensures id !in Ideal(hasS3, ops + [Delete(id, up)] + later)
    decreases |later|
  {
    var all := ops + [Delete(id, up)] + later;
    if later == [] {
      assert all == ops + [Delete(id, up)] && all[..|ops|] == ops;
    } else {
      assert all[..|all| - 1] == ops + [Delete(id, up)] + later[..|later| - 1];
      DeletedStaysDead(hasS3, ops, id, up, later[..|later| - 1]);
    }
  }

  lemma DeadIsGone(hasS3: bool, ops: seq<Op>, id: string, up: bool, contextId: string, limit: int)
    requires FreshIds(ops) && id !in Ideal(hasS3, ops)
    ensures Loaded(Run(hasS3, ops), id, up).Err?
    ensures forall r :: r in Listed(Run(hasS3, ops), contextId, limit) ==> r.versionId != id
  {
    RestoreIsExact(hasS3, ops, id, up);
    StoreMatchesIdeal(hasS3, ops);
    RecordsDescribeSnapshots(hasS3, ops);
    var found := Indexed(Run(hasS3, ops), contextId);
    SortDescendingSorts(found, Newest());
    SameElements(SortDescending(found, Newest()), found);
    forall r | r in Listed(Run(hasS3, ops), contextId, limit) ensures r.versionId != id {
      assert r in SortDescending(found, Newest());
      assert Current(LiveRecords(hasS3, ops), contextId, r);
    }
  }

  /** After a successful delete the version is neither listed anywhere nor restorable, right
      away and after whatever calls come later. */
  lemma DeletedIsGone(hasS3: bool, ops: seq<Op>, id: string, up: bool, later: seq<Op>, upThen: bool,
                      contextId: string, limit: int)
    requires FreshIds(ops + [Delete(id, up)] + later) && (hasS3 ==> up)
    requires later == [] || exists i :: 0 <= i < |ops| && ops[i].Create? && ops[i].versionId == id
    ensures var st := Run(hasS3, ops + [Delete(id, up)] + later);
      Loaded(st, id, upThen).Err? && forall r :: r in Listed(st, contextId, limit) ==> r.versionId != id
  {
    var all := ops + [Delete(id, up)] + later;
    if later != [] {
      var i :| 0 <= i < |ops| && ops[i].Create? && ops[i].versionId == id;
      forall j | 0 <= j < |later| && later[j].Create? ensures later[j].versionId != id {
        assert all[i] == ops[i] && all[|ops| + 1 + j] == later[j];
      }
    }
    DeletedStaysDead(hasS3, ops, id, up, later);
    DeadIsGone(hasS3, all, id, upThen, contextId, limit);
  }

  /** With room enough, a listing is the context's records, newest first. */
  lemma ListedAll(st: Store, c: string, limit: int)
    requires |Indexed(st, c)| <= limit
    ensures multiset(Listed(st, c, limit)) == multiset(Indexed(st, c))
    ensures forall i, j :: 0 <= i < j < |Listed(st, c, limit)| ==>
      Listed(st, c, limit)[i].createdAt >= Listed(st, c, limit)[j].createdAt
  {
    var sorted := SortDescending(Indexed(st, c), Newest());
    SortDescendingSorts(Indexed(st, c), Newest());
    SameElements(sorted, Indexed(st, c));
    assert Listed(st, c, limit) == sorted;
    forall i, j | 0 <= i < j < |sorted| ensures sorted[i].createdAt >= sorted[j].createdAt {
      assert Newest()(sorted[i]) >= Newest()(sorted[j]);
    }
  }

  /** Listing with room enough shows exactly the live versions of the context, each once and
      with the record made at its creation, newest first. */
  lemma ListingIsExact(hasS3: bool, ops: seq<Op>, scopeId: string, sessionId: string, limit: int)
    requires FreshIds(ops)
    requires |Indexed(Run(hasS3, ops), ContextId(scopeId, sessionId))| <= limit
    ensures var c := ContextId(scopeId, sessionId); var listed := Listed(Run(hasS3, ops), c, limit);
      && (forall i, j :: 0 <= i < j < |listed| ==> listed[i].createdAt >= listed[j].createdAt)
      && (forall r :: multiset(listed)[r] == if Current(LiveRecords(hasS3, ops), c, r) then 1 else 0)
  {
    StoreMatchesIdeal(hasS3, ops);
    var st, c := Run(hasS3, ops), ContextId(scopeId, sessionId);
    ListedAll(st, c, limit);
    forall r ensures multiset(Indexed(st, c))[r] == if Current(LiveRecords(hasS3, ops), c, r) then 1 else 0 {
      assert r in Indexed(st, c) <==> Current(LiveRecords(hasS3, ops), c, r);
      assert DistinctVersions(Indexed(st, c));
      DistinctMultiplicity(Indexed(st, c));
    }
  }

  /** Newest first; records made at the same moment in the order they were made. */
  lemma SameMomentKeepsOrder(st: Store, c: string, limit: int, moment: real)
    requires |Indexed(st, c)| <= limit
    ensures Filter(Listed(st, c, limit), WithKey(Newest(), moment)) == Filter(Indexed(st, c), WithKey(Newest(), moment))
  {
    SortDescendingSorts(Indexed(st, c), Newest());
    SortDescendingStable(Indexed(st, c), Newest(), moment);
    assert Listed(st, c, limit) == SortDescending(Indexed(st, c), Newest());
  }
}
