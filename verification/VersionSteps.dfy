/** The version store when calls overlap. A create or delete that uses the object store
    suspends there: the store takes or drops the data first, and only when the coroutine
    resumes does it touch the index and the local data. Each step is one such moment. */
module VersionSteps {
  import opened PyCollections
  import opened ContextModels
  import opened VersionStore

  /** `creating` are the records of creates whose data has gone out and that have not resumed,
      `removing` the ids of deletes in the same place. The last two fields are history. */
  datatype State = State(
    store: Store,
    creating: map<string, Record>,
    removing: multiset<string>,
    saved: map<string, ContextSnapshot>,   // every snapshot ever created
    records: map<string, Record>)          // the records registered and not unlisted since

  /** Failing object store calls have no effect: a create then goes on locally, a delete ends. */
  datatype Step =
    | Put(record: Record, snapshot: ContextSnapshot)
    | Register(id: string)
    | CreateLocally(record: Record, snapshot: ContextSnapshot)
    | Remove(id: string)
    | Unlist(id: string)
    | DeleteLocally(id: string)

  function Start(hasS3: bool): State {
    State(Store(hasS3, map[], map[], map[]), map[], multiset{}, map[], map[])
  }

  /** Ids are generated, and nobody can name one before the create that makes it returns. */
  predicate Fresh(s: State, id: string) {
    id !in s.saved && id !in s.removing
  }

  predicate Enabled(s: State, step: Step) {
    match step
    case Put(r, _) => s.store.hasS3 && Fresh(s, r.versionId)
    case Register(id) => id in s.creating
    case CreateLocally(r, _) => Fresh(s, r.versionId)
    case Remove(id) => s.store.hasS3 && id !in s.creating
    case Unlist(id) => id in s.removing
    case DeleteLocally(_) => !s.store.hasS3
  }

  function Appended(st: Store, r: Record): Store {
    st.(index := st.index[r.contextId := Indexed(st, r.contextId) + [r]])
  }

  function Unlisted(st: Store, id: string): Store {
    st.(localData := st.localData - {id}, index := map c | c in st.index :: Filter(st.index[c], Others(id)))
  }

  function Apply(s: State, step: Step): State
    requires Enabled(s, step)
  {
    match step
    case Put(r, snapshot) =>
      s.(store := s.store.(bucket := s.store.bucket[r.versionId := snapshot]),
         creating := s.creating[r.versionId := r], saved := s.saved[r.versionId := snapshot])
    case Register(id) =>
      s.(store := Appended(s.store, s.creating[id]), creating := s.creating - {id}, records := s.records[id := s.creating[id]])
    case CreateLocally(r, snapshot) =>
      s.(store := Appended(s.store.(localData := s.store.localData[r.versionId := snapshot]), r),
         saved := s.saved[r.versionId := snapshot], records := s.records[r.versionId := r])
    case Remove(id) => s.(store := s.store.(bucket := s.store.bucket - {id}), removing := s.removing + multiset{id})
    case Unlist(id) =>
      s.(store := Unlisted(s.store, id), removing := s.removing - multiset{id}, records := s.records - {id})
    case DeleteLocally(id) => s.(store := Unlisted(s.store, id), records := s.records - {id})
  }

  ghost predicate LeadsTo(before: State, step: Step, after: State) {
    Enabled(before, step) && Apply(before, step) == after
  }

  predicate Admissible(s: State, steps: seq<Step>)
    decreases |steps|
  {
    steps == [] || (Enabled(s, steps[0]) && Admissible(Apply(s, steps[0]), steps[1..]))
  }

  function Exec(s: State, steps: seq<Step>): State
    requires Admissible(s, steps)
    decreases |steps|
  {
    if steps == [] then s else Exec(Apply(s, steps[0]), steps[1..])
  }

  ghost predicate Reachable(hasS3: bool, s: State) {
    exists steps :: Admissible(Start(hasS3), steps) && Exec(Start(hasS3), steps) == s
  }

  /** A call that nothing overlaps is its two steps in a row. */
  lemma CallsAreTheirSteps(s: State, r: Record, snapshot: ContextSnapshot, id: string)
    requires s.store.hasS3 && Enabled(s, Put(r, snapshot)) && Enabled(s, Remove(id))
    ensures Apply(Apply(s, Put(r, snapshot)), Register(r.versionId)).store == Created(s.store, r, snapshot, true)
    ensures Apply(Apply(s, Remove(id)), Unlist(id)).store == Deleted(s.store, id, true)
  {
  }

  // ----- the invariant

  /** Whatever is stored is what was saved, in one place, and is listed or about to be. */
  ghost predicate DataKept(s: State) {
    var st := s.store;
    && (!st.hasS3 ==> st.bucket == map[] && s.creating == map[] && s.removing == multiset{})
    && st.bucket.Keys !! st.localData.Keys
    && (forall id :: id in st.bucket ==> id in s.saved && st.bucket[id] == s.saved[id] && (id in s.records || id in s.creating))
    && (forall id :: id in st.localData ==> id in s.saved && st.localData[id] == s.saved[id] && id in s.records)
  }

  /** What is listed is stored, unless a delete of it has not resumed yet. */
  ghost predicate ListedKept(s: State, id: string) {
    && (id in s.records ==> id in s.saved && id !in s.creating && s.records[id].versionId == id)
    && (id in s.records ==> id in s.store.localData || id in s.store.bucket || id in s.removing)
    && (id in s.creating ==> id in s.saved && id in s.store.bucket && s.creating[id].versionId == id)
    && (id in s.removing ==> id !in s.store.bucket && id !in s.creating)
  }

  ghost predicate Inv(s: State) {
    DataKept(s) && (forall id :: ListedKept(s, id)) && IndexMatches(s.store, s.records)
  }

  lemma AppendKeepsIndex(st: Store, records: map<string, Record>, r: Record)
    requires IndexMatches(st, records) && r.versionId !in records
    ensures IndexMatches(Appended(st, r), records[r.versionId := r])
  {
    var st', records' := Appended(st, r), records[r.versionId := r];
    assert Indexed(st', r.contextId) == Indexed(st, r.contextId) + [r];
    assert forall c :: c != r.contextId ==> Indexed(st', c) == Indexed(st, c);
    forall c, q ensures q in Indexed(st', c) <==> Current(records', c, q) {
      assert q in Indexed(st, c) <==> Current(records, c, q);
    }
    forall c ensures DistinctVersions(Indexed(st', c)) {
      assert DistinctVersions(Indexed(st, c));
      forall q | q in Indexed(st, c) ensures q.versionId != r.versionId {
        assert Current(records, c, q);
      }
    }
  }

  lemma UnlistKeepsIndex(st: Store, records: map<string, Record>, id: string)
    requires IndexMatches(st, records)
    ensures IndexMatches(Unlisted(st, id), records - {id})
  {
    DeleteKeepsIndex(st, records, id, true);
    assert forall c :: Indexed(Unlisted(st, id), c) == Indexed(Deleted(st, id, true), c);
    forall c, q ensures q in Indexed(Unlisted(st, id), c) <==> Current(records - {id}, c, q) {
      assert q in Indexed(Deleted(st, id, true), c) <==> Current(records - {id}, c, q);
    }
    forall c ensures DistinctVersions(Indexed(Unlisted(st, id), c)) {
      assert DistinctVersions(Indexed(Deleted(st, id, true), c));
    }
  }

  lemma SameIndex(st: Store, st': Store, records: map<string, Record>)
    requires IndexMatches(st, records) && st'.index == st.index
    ensures IndexMatches(st', records)
  {
    assert forall c :: Indexed(st', c) == Indexed(st, c);
    forall c, q ensures q in Indexed(st', c) <==> Current(records, c, q) {
      assert q in Indexed(st, c) <==> Current(records, c, q);
    }
    forall c ensures DistinctVersions(Indexed(st', c)) {
      assert DistinctVersions(Indexed(st, c));
    }
  }

  lemma StepKeepsIndex(s: State, step: Step)
    requires Inv(s) && Enabled(s, step)
    ensures IndexMatches(Apply(s, step).store, Apply(s, step).records)
  {
    match step
    case Put(_, _) => SameIndex(s.store, Apply(s, step).store, s.records);
    case Register(id) =>
      assert ListedKept(s, id);
      AppendKeepsIndex(s.store, s.records, s.creating[id]);
    case CreateLocally(r, snapshot) =>
      assert ListedKept(s, r.versionId);
      var local := s.store.(localData := s.store.localData[r.versionId := snapshot]);
      SameIndex(s.store, local, s.records);
      AppendKeepsIndex(local, s.records, r);
    case Remove(_) => SameIndex(s.store, Apply(s, step).store, s.records);
    case Unlist(id) => UnlistKeepsIndex(s.store, s.records, id);
    case DeleteLocally(id) => UnlistKeepsIndex(s.store, s.records, id);
  }

  lemma StepKeepsData(s: State, step: Step)
    requires DataKept(s) && Enabled(s, step)
    requires forall id :: ListedKept(s, id)
    ensures DataKept(Apply(s, step))
  {
    match step
    case Put(_, _) =>
    case Register(id) => assert ListedKept(s, id);
    case CreateLocally(_, _) =>
    case Remove(_) =>
    case Unlist(id) => assert ListedKept(s, id);
    case DeleteLocally(_) =>
  }

  lemma StepKeepsListed(s: State, step: Step, id: string)
    requires DataKept(s) && ListedKept(s, id) && Enabled(s, step)
    ensures ListedKept(Apply(s, step), id)
  {
  }

  lemma StepKeepsInv(s: State, step: Step, s': State)
    requires Inv(s) && Enabled(s, step) && s' == Apply(s, step)
    ensures Inv(s')
  {
    StepKeepsIndex(s, step);
    StepKeepsData(s, step);
    forall id ensures ListedKept(s', id) {
      assert ListedKept(s, id);
      StepKeepsListed(s, step, id);
    }
  }

  lemma StartInv(hasS3: bool, s: State)
    requires s == Start(hasS3)
    ensures Inv(s)
  {
  }

  lemma {:induction false} RunKeepsInv(s: State, steps: seq<Step>)
    requires Inv(s) && Admissible(s, steps)
    ensures Inv(Exec(s, steps))
    decreases |steps|
  {
    if steps != [] {
      var next := Apply(s, steps[0]);
      StepKeepsInv(s, steps[0], next);
      RunKeepsInv(next, steps[1..]);
    }
  }

  lemma ReachableInv(hasS3: bool, s: State)
    requires Reachable(hasS3, s)
    ensures Inv(s)
  {
    StartInv(hasS3, Start(hasS3));
    var steps :| Admissible(Start(hasS3), steps) && Exec(Start(hasS3), steps) == s;
    RunKeepsInv(Start(hasS3), steps);
  }

  // ----- what every reachable state guarantees

  /** In every interleaving a restore never hands out anything but the snapshot saved, and a
      listed version whose object store call works can be restored if and only if no delete
      has dropped its data and not resumed, or its data is held locally. */
  lemma ListedIsRestorableIff(hasS3: bool, s: State, c: string, r: Record, up: bool)
    requires Reachable(hasS3, s) && r in Indexed(s.store, c)
    ensures r.versionId in s.saved
    ensures Loaded(s.store, r.versionId, up).Ok? ==> Loaded(s.store, r.versionId, up).value == s.saved[r.versionId]
    ensures Loaded(s.store, r.versionId, true).Ok? <==> r.versionId !in s.removing || r.versionId in s.store.localData
  {
    ReachableInv(hasS3, s);
    assert Current(s.records, c, r);
    assert ListedKept(s, r.versionId);
  }

  /** When no call is in flight, exactly the versions listed are stored, each in one place. */
  lemma AtRestListedIsStored(hasS3: bool, s: State, id: string)
    requires Reachable(hasS3, s) && s.creating == map[] && s.removing == multiset{}
    ensures (exists c, r :: r in Indexed(s.store, c) && r.versionId == id) <==> id in s.store.bucket || id in s.store.localData
    ensures id !in s.store.bucket || id !in s.store.localData
  {
    ReachableInv(hasS3, s);
    assert ListedKept(s, id);
    if id in s.records {
      var r := s.records[id];
      assert Current(s.records, r.contextId, r);
    }
    if c, r :| r in Indexed(s.store, c) && r.versionId == id {
      assert Current(s.records, c, r);
    }
  }

  ghost predicate Gone(s: State, id: string) {
    id in s.saved && id !in s.records && id !in s.creating
  }

  lemma {:induction false} GoneStaysGone(s: State, steps: seq<Step>, id: string)
    requires Inv(s) && Gone(s, id) && Admissible(s, steps)
    ensures Inv(Exec(s, steps)) && Gone(Exec(s, steps), id)
    decreases |steps|
  {
    if steps != [] {
      var next := Apply(s, steps[0]);
      assert ListedKept(s, id);
      StepKeepsInv(s, steps[0], next);
      GoneStaysGone(next, steps[1..], id);
    }
  }

  /** Once a delete has resumed, no step of any call, begun before or after, brings the version
      back: it is never listed nor restored again. */
  lemma DeletedIsGone(hasS3: bool, s: State, delete: Step, steps: seq<Step>, c: string, up: bool)
    requires Reachable(hasS3, s) && Enabled(s, delete) && (delete.Unlist? || delete.DeleteLocally?)
    requires delete.id in s.saved && Admissible(Apply(s, delete), steps)
    ensures var later := Exec(Apply(s, delete), steps);
      (forall r :: r in Indexed(later.store, c) ==> r.versionId != delete.id) && Loaded(later.store, delete.id, up).Err?
  {
    ReachableInv(hasS3, s);
    assert ListedKept(s, delete.id);
    var next := Apply(s, delete);
    StepKeepsInv(s, delete, next);
    GoneStaysGone(next, steps, delete.id);
    var later := Exec(next, steps);
    forall r | r in Indexed(later.store, c) ensures r.versionId != delete.id {
      assert Current(later.records, c, r);
    }
  }

  /** A delete in flight: the version is still listed and can no longer be restored. */
  lemma ListedButGone(r: Record, snapshot: ContextSnapshot)
    ensures var s := Apply(Apply(Apply(Start(true), Put(r, snapshot)), Register(r.versionId)), Remove(r.versionId));
      r in Indexed(s.store, r.contextId) && Loaded(s.store, r.versionId, true).Err?
  {
  }
}
