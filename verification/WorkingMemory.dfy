/** The session scratchpad: working notes with a per-session limit, and working-memory
    items whose use is counted. Stored JSON is the value it encodes. */
module WorkingMemory {
  import opened PyCollections
  import opened ContextModels

  /** `active` is the `_active_count` entry of the note's content, zero when absent. */
  datatype Note = Note(
    noteId: string, scopeId: string, sessionId: string, kind: string,
    content: map<string, string>, active: int, createdAt: real, expiresAt: Option<real>)
  {
    predicate Live(now: real) {
      expiresAt.Some? ==> now <= expiresAt.value
    }
  }

  datatype Error = LimitReached | NoteNotFound

  type NoteBook = Dict<string, Note>
  type ItemBook = Dict<string, ContextItem>

  datatype Memory = Memory(notes: map<string, NoteBook>, items: map<string, ItemBook>)

  function HashKey(scopeId: string, sessionId: string): string {
    ScopedKey("ca:wm:", scopeId, sessionId)
  }

  function ItemsKey(scopeId: string, sessionId: string): string {
    ScopedKey("ca:wm-items:", scopeId, sessionId)
  }

  function At<V>(books: map<string, Dict<string, V>>, key: string): Dict<string, V> {
    if key in books then books[key] else EmptyDict()
  }

  // ----- what each operation does to the notes or the items

  function LiveSet(d: NoteBook, now: real): set<string> {
    set id | id in d.at && d.at[id].Live(now)
  }

  function NoteCreated(notes: map<string, NoteBook>, key: string, note: Note, now: real, max: nat): map<string, NoteBook> {
    if max <= |LiveSet(At(notes, key), now)| then notes
    else notes[key := At(notes, key).Put(note.noteId, note)]
  }

  function Revised(note: Note, updates: map<string, string>, active: Option<int>): Note {
    note.(content := note.content + updates, active := if active.Some? then active.value else note.active)
  }

  function NoteUpdated(notes: map<string, NoteBook>, key: string, id: string, updates: map<string, string>,
                       active: Option<int>): map<string, NoteBook> {
    if id !in At(notes, key).at then notes
    else notes[key := At(notes, key).Put(id, Revised(At(notes, key).at[id], updates, active))]
  }

  function NoteDeleted(notes: map<string, NoteBook>, key: string, id: string): map<string, NoteBook> {
    if key in notes then notes[key := notes[key].Pop(id)] else notes
  }

  function ItemWritten(items: map<string, ItemBook>, key: string, item: ContextItem): map<string, ItemBook> {
    items[key := At(items, key).Put(item.itemId, item)]
  }

  function Used(item: ContextItem): ContextItem {
    item.(activeCount := item.activeCount + 1)
  }

  function ItemsMarked(d: ItemBook, ids: set<string>): ItemBook {
    Dict(d.order, map id | id in d.at :: if id in ids then Used(d.at[id]) else d.at[id])
  }

  function MarkedItems(items: map<string, ItemBook>, key: string, ids: set<string>): map<string, ItemBook> {
    if key in items then items[key := ItemsMarked(items[key], ids)] else items
  }

  function NoteUsed(note: Note): Note {
    note.(active := note.active + 1)
  }

  function NotesMarked(d: NoteBook, ids: set<string>, now: real): NoteBook {
    Dict(d.order, map id | id in d.at :: if id in ids && d.at[id].Live(now) then NoteUsed(d.at[id]) else d.at[id])
  }

  function MarkedNotes(notes: map<string, NoteBook>, key: string, ids: set<string>, now: real): map<string, NoteBook> {
    if key in notes then notes[key := NotesMarked(notes[key], ids, now)] else notes
  }

  function IdSet(itemIds: seq<string>): set<string> {
    set id | id in itemIds
  }

  /** How many item records a `mark_used` call names. */
  function ItemHits(items: map<string, ItemBook>, key: string, ids: set<string>): nat {
    |set id | id in At(items, key).at && id in ids|
  }

  /** How many live notes a `mark_used` call names. */
  function NoteHits(notes: map<string, NoteBook>, key: string, ids: set<string>, now: real): nat {
    |set id | id in At(notes, key).at && id in ids && At(notes, key).at[id].Live(now)|
  }

  // ----- the ids a loop over a list has met

  /** The ids of the list that are asked for. */
  function Hits(order: seq<string>, ids: set<string>): set<string> {
    if order == [] then {}
    else Hits(order[..|order| - 1], ids) + (if order[|order| - 1] in ids then {order[|order| - 1]} else {})
  }

  lemma {:induction false} HitsAre(order: seq<string>, ids: set<string>)
    ensures forall id :: id in Hits(order, ids) <==> id in order && id in ids
  {
    if order != [] {
      HitsAre(order[..|order| - 1], ids);
      assert order == order[..|order| - 1] + [order[|order| - 1]];
    }
  }

  /** Visiting one more id of a duplicate-free list adds at most that id to the hits. */
  lemma HitsGrow(order: seq<string>, ids: set<string>, i: nat)
    requires Distinct(order) && i < |order|
    ensures order[i] !in Hits(order[..i], ids)
    ensures Hits(order[..i + 1], ids)
         == if order[i] in ids then Hits(order[..i], ids) + {order[i]} else Hits(order[..i], ids)
    ensures |Hits(order[..i + 1], ids)| == |Hits(order[..i], ids)| + (if order[i] in ids then 1 else 0)
  {
    HitsAre(order[..i], ids);
    assert order[..i + 1][..i] == order[..i];
  }

  lemma {:induction false} HitsAll(order: seq<string>, keys: set<string>, ids: set<string>)
    requires forall id :: id in order <==> id in keys
    ensures Hits(order, ids) == keys * ids
  {
    HitsAre(order, ids);
  }

  // ----- marking one record at a time is marking them all

  lemma MarkOneMoreItem(d: ItemBook, ids: set<string>, id: string)
    requires id in d.at && id !in ids
    ensures ItemsMarked(d, ids).Put(id, Used(d.at[id])) == ItemsMarked(d, ids + {id})
  {
    var l, r := ItemsMarked(d, ids).Put(id, Used(d.at[id])).at, ItemsMarked(d, ids + {id}).at;
    assert l.Keys == d.at.Keys == r.Keys;
    forall x | x in d.at ensures l[x] == r[x] {
    }
  }

  lemma MarkNextItem(items: map<string, ItemBook>, key: string, ids: set<string>, id: string)
    requires key in items && id in items[key].at && items[key].at[id].itemId == id && id !in ids
    ensures ItemWritten(MarkedItems(items, key, ids), key, Used(items[key].at[id])) == MarkedItems(items, key, ids + {id})
  {
    MarkOneMoreItem(items[key], ids, id);
    StoreTwice(items, key, ItemsMarked(items[key], ids), ItemsMarked(items[key], ids + {id}));
  }

  lemma MarkFiledItems(items: map<string, ItemBook>, key: string, ids: set<string>)
    ensures MarkedItems(items, key, At(items, key).at.Keys * ids) == MarkedItems(items, key, ids)
    ensures MarkedItems(items, key, {}) == items
  {
    if key in items {
      var d := items[key];
      assert ItemsMarked(d, d.at.Keys * ids).at == ItemsMarked(d, ids).at;
      assert ItemsMarked(d, {}).at == d.at;
    }
  }

  lemma MarkOneMoreNote(d: NoteBook, ids: set<string>, id: string, now: real)
    requires id in d.at && id !in ids && d.at[id].Live(now)
    ensures NotesMarked(d, ids, now).Put(id, NoteUsed(d.at[id])) == NotesMarked(d, ids + {id}, now)
  {
    var l, r := NotesMarked(d, ids, now).Put(id, NoteUsed(d.at[id])).at, NotesMarked(d, ids + {id}, now).at;
    assert l.Keys == d.at.Keys == r.Keys;
    forall x | x in d.at ensures l[x] == r[x] {
    }
  }

  lemma MarkNextNote(notes: map<string, NoteBook>, key: string, ids: set<string>, id: string, now: real)
    requires key in notes && id in notes[key].at && notes[key].at[id].Live(now) && id !in ids
    ensures id in At(MarkedNotes(notes, key, ids, now), key).at
    ensures NoteUpdated(MarkedNotes(notes, key, ids, now), key, id, map[], Some(notes[key].at[id].active + 1))
      == MarkedNotes(notes, key, ids + {id}, now)
  {
    var d := notes[key];
    assert d.at[id].content + map[] == d.at[id].content;
    assert Revised(d.at[id], map[], Some(d.at[id].active + 1)) == NoteUsed(d.at[id]);
    MarkOneMoreNote(d, ids, id, now);
    StoreTwice(notes, key, NotesMarked(d, ids, now), NotesMarked(d, ids + {id}, now));
  }

  lemma MarkLiveNotes(notes: map<string, NoteBook>, key: string, ids: set<string>, now: real)
    ensures MarkedNotes(notes, key, LiveSet(At(notes, key), now) * ids, now) == MarkedNotes(notes, key, ids, now)
    ensures MarkedNotes(notes, key, {}, now) == notes
  {
    if key in notes {
      var d := notes[key];
      assert NotesMarked(d, LiveSet(d, now) * ids, now).at == NotesMarked(d, ids, now).at;
      assert NotesMarked(d, {}, now).at == d.at;
    }
  }

  lemma ItemHitsAre(items: map<string, ItemBook>, key: string, ids: set<string>)
    ensures ItemHits(items, key, ids) == |At(items, key).at.Keys * ids|
  {
    assert (set id | id in At(items, key).at && id in ids) == At(items, key).at.Keys * ids;
  }

  lemma NoteHitsAre(notes: map<string, NoteBook>, key: string, ids: set<string>, now: real)
    ensures NoteHits(notes, key, ids, now) == |LiveSet(At(notes, key), now) * ids|
  {
    assert (set id | id in At(notes, key).at && id in ids && At(notes, key).at[id].Live(now))
      == LiveSet(At(notes, key), now) * ids;
  }

  // ----- shape of the stored data

  ghost predicate BookFiled(d: NoteBook) {
    d.Wf() && forall id :: id in d.at ==> d.at[id].noteId == id
  }

  /** Every note is filed under its own id and the key of its own session. */
  ghost predicate NotesFiled(notes: map<string, NoteBook>) {
    && (forall key :: key in notes ==> BookFiled(notes[key]))
    && (forall key, id :: key in notes && id in notes[key].at ==>
          HashKey(notes[key].at[id].scopeId, notes[key].at[id].sessionId) == key)
  }

  ghost predicate ItemBookFiled(d: ItemBook) {
    d.Wf() && forall id :: id in d.at ==> d.at[id].itemId == id
  }

  ghost predicate ItemsFiled(items: map<string, ItemBook>) {
    forall key :: key in items ==> ItemBookFiled(items[key])
  }

  /** No session id with notes on file holds a colon. */
  ghost predicate ColonFree(notes: map<string, NoteBook>) {
    forall key, id :: key in notes && id in notes[key].at ==> ':' !in notes[key].at[id].sessionId
  }

  lemma PutKeepsNotesFiled(notes: map<string, NoteBook>, key: string, note: Note)
    requires NotesFiled(notes) && HashKey(note.scopeId, note.sessionId) == key
    ensures NotesFiled(notes[key := At(notes, key).Put(note.noteId, note)])
  {
    At(notes, key).PutWf(note.noteId, note);
  }

  lemma WriteKeepsItemsFiled(items: map<string, ItemBook>, key: string, item: ContextItem)
    requires ItemsFiled(items)
    ensures ItemsFiled(ItemWritten(items, key, item))
  {
    At(items, key).PutWf(item.itemId, item);
  }

  /** Keys of one scope differ when the sessions do. */
  lemma SameScopeKeys(scopeId: string, session1: string, session2: string)
    requires HashKey(scopeId, session1) == HashKey(scopeId, session2)
    ensures session1 == session2
  {
    var n := |"ca:wm:" + scopeId + ":"|;
    assert HashKey(scopeId, session1)[n..] == session1 && HashKey(scopeId, session2)[n..] == session2;
  }

  // ----- marking notes one after the other

  /** The notes after a marking, how many were marked, and whether it ended with a note not found. */
  datatype Marking = Marking(notes: map<string, NoteBook>, count: nat, failed: bool)

  /** What the loop over a listing does: each note named is written back under the session
      the note itself names; the first that is not found there ends the loop. */
  function MarkEach(notes: map<string, NoteBook>, scopeId: string, all: seq<Note>, ids: set<string>): Marking {
    if all == [] then Marking(notes, 0, false)
    else
      var sofar, note := MarkEach(notes, scopeId, all[..|all| - 1], ids), all[|all| - 1];
      if sofar.failed || note.noteId !in ids then sofar else MarkNote(sofar, HashKey(scopeId, note.sessionId), note)
  }

  function MarkNote(sofar: Marking, key: string, note: Note): Marking {
    if note.noteId !in At(sofar.notes, key).at then sofar.(failed := true)
    else Marking(NoteUpdated(sofar.notes, key, note.noteId, map[], Some(note.active + 1)), sofar.count + 1, false)
  }

  lemma MarkNext(notes: map<string, NoteBook>, scopeId: string, all: seq<Note>, ids: set<string>, i: nat)
    requires i < |all|
    ensures var sofar := MarkEach(notes, scopeId, all[..i], ids);
      MarkEach(notes, scopeId, all[..i + 1], ids)
        == if sofar.failed || all[i].noteId !in ids then sofar else MarkNote(sofar, HashKey(scopeId, all[i].sessionId), all[i])
  {
    assert all[..i + 1][..i] == all[..i];
  }

  lemma {:induction false} ErrorEndsMarking(notes: map<string, NoteBook>, scopeId: string, all: seq<Note>, ids: set<string>, n: nat)
    requires n <= |all| && MarkEach(notes, scopeId, all[..n], ids).failed
    ensures MarkEach(notes, scopeId, all, ids) == MarkEach(notes, scopeId, all[..n], ids)
    decreases |all|
  {
    if n < |all| {
      assert all[..|all| - 1][..n] == all[..n];
      ErrorEndsMarking(notes, scopeId, all[..|all| - 1], ids, n);
    } else {
      assert all[..n] == all;
    }
  }

  lemma {:induction false} MarkingNone(notes: map<string, NoteBook>, scopeId: string, all: seq<Note>)
    ensures MarkEach(notes, scopeId, all, {}) == Marking(notes, 0, false)
  {
    if all != [] {
      MarkingNone(notes, scopeId, all[..|all| - 1]);
    }
  }

  /** Every live note named was made in the very session asked for, not in one of another
      scope that shares its key. */
  ghost predicate AtHome(d: NoteBook, sessionId: string, ids: set<string>, now: real) {
    forall id :: id in d.at && id in ids && d.at[id].Live(now) ==> d.at[id].sessionId == sessionId
  }

  /** Without colons every note is at home. */
  lemma ColonFreeIsAtHome(notes: map<string, NoteBook>, scopeId: string, sessionId: string, ids: set<string>, now: real)
    requires NotesFiled(notes) && ColonFree(notes) && ':' !in sessionId
    ensures AtHome(At(notes, HashKey(scopeId, sessionId)), sessionId, ids, now)
  {
    var d := At(notes, HashKey(scopeId, sessionId));
    forall id | id in d.at ensures d.at[id].sessionId == sessionId {
      ScopedKeyInjective("ca:wm:", d.at[id].scopeId, d.at[id].sessionId, scopeId, sessionId);
    }
  }

  // ----- listings

  predicate Selects(kind: Option<string>, now: real, n: Note) {
    n.Live(now) && (kind.None? || n.kind == kind.value)
  }

  function ByAge(): Note -> real {
    (n: Note) => -n.createdAt
  }

  function Wanted(kind: Option<string>, now: real): Note -> bool {
    (n: Note) => Selects(kind, now, n)
  }

  /** The notes of a book in the order they were filed. */
  function Filed(order: seq<string>, at: map<string, Note>): seq<Note> {
    if order == [] then []
    else Filed(order[..|order| - 1], at) + (if order[|order| - 1] in at then [at[order[|order| - 1]]] else [])
  }

  /** The notes that are live and of the kind asked for, oldest first. */
  function Listing(d: NoteBook, kind: Option<string>, now: real): seq<Note> {
    SortDescending(Filter(Filed(d.order, d.at), Wanted(kind, now)), ByAge())
  }

  function IdsOf(r: seq<Note>): seq<string> {
    seq(|r|, i requires 0 <= i < |r| => r[i].noteId)
  }

  ghost predicate DistinctNotes(r: seq<Note>) {
    forall i, j :: 0 <= i < j < |r| ==> r[i].noteId != r[j].noteId
  }

  /** `found` is what the first `n` entries of the book contribute to a listing. */
  ghost predicate ListsFirst(d: NoteBook, kind: Option<string>, now: real, n: nat, found: seq<Note>)
    requires BookFiled(d)
  {
    && n <= |d.order|
    && DistinctNotes(found)
    && (forall x :: x in found ==> x.noteId in d.order[..n] && d.at[x.noteId] == x && Selects(kind, now, x))
    && (forall i :: 0 <= i < n && Selects(kind, now, d.at[d.order[i]]) ==> d.at[d.order[i]] in found)
  }

  /** The notes of the book that are live and of the kind asked for, each once, oldest first. */
  ghost predicate IsListing(d: NoteBook, kind: Option<string>, now: real, r: seq<Note>) {
    && DistinctNotes(r)
    && (forall x :: x in r ==> x.noteId in d.at && d.at[x.noteId] == x && Selects(kind, now, x))
    && (forall id :: id in d.at && Selects(kind, now, d.at[id]) ==> d.at[id] in r)
    && (forall i, j :: 0 <= i < j < |r| ==> r[i].createdAt <= r[j].createdAt)
  }

  lemma ListsOneMore(d: NoteBook, kind: Option<string>, now: real, n: nat, found: seq<Note>)
    requires BookFiled(d) && n < |d.order| && ListsFirst(d, kind, now, n, found)
    ensures ListsFirst(d, kind, now, n + 1, found + OnlyIf(d.at[d.order[n]], Wanted(kind, now)))
  {
    assert d.order[..n + 1] == d.order[..n] + [d.order[n]];
  }

  lemma {:induction false} FiledListsFirst(d: NoteBook, kind: Option<string>, now: real, n: nat)
    requires BookFiled(d) && n <= |d.order|
    ensures ListsFirst(d, kind, now, n, Filter(Filed(d.order[..n], d.at), Wanted(kind, now)))
  {
    if n > 0 {
      FiledListsFirst(d, kind, now, n - 1);
      ListsOneMore(d, kind, now, n - 1, Filter(Filed(d.order[..n - 1], d.at), Wanted(kind, now)));
      FiledPush(d, kind, now, n - 1);
    }
  }

  lemma FiledPush(d: NoteBook, kind: Option<string>, now: real, n: nat)
    requires BookFiled(d) && n < |d.order|
    ensures Filter(Filed(d.order[..n + 1], d.at), Wanted(kind, now))
      == Filter(Filed(d.order[..n], d.at), Wanted(kind, now)) + OnlyIf(d.at[d.order[n]], Wanted(kind, now))
  {
    assert d.order[..n + 1][..n] == d.order[..n];
    FilterPush(Filed(d.order[..n], d.at), d.at[d.order[n]], Wanted(kind, now));
  }

  lemma ListingIs(d: NoteBook, kind: Option<string>, now: real)
    requires BookFiled(d)
    ensures IsListing(d, kind, now, Listing(d, kind, now))
  {
    FiledListsFirst(d, kind, now, |d.order|);
    assert d.order[..|d.order|] == d.order;
    ListingSorted(d, kind, now, Filter(Filed(d.order, d.at), Wanted(kind, now)));
  }

  /** Notes made at the same moment are listed in the order they were filed. */
  lemma SameMomentKeepsOrder(d: NoteBook, kind: Option<string>, now: real, age: real)
    ensures Filter(Listing(d, kind, now), WithKey(ByAge(), age))
         == Filter(Filter(Filed(d.order, d.at), Wanted(kind, now)), WithKey(ByAge(), age))
  {
    SortDescendingStable(Filter(Filed(d.order, d.at), Wanted(kind, now)), ByAge(), age);
  }

  lemma ListingSorted(d: NoteBook, kind: Option<string>, now: real, found: seq<Note>)
    requires BookFiled(d) && ListsFirst(d, kind, now, |d.order|, found)
    ensures IsListing(d, kind, now, SortDescending(found, ByAge()))
  {
    var r := SortDescending(found, ByAge());
    SortDescendingSorts(found, ByAge());
    SameElements(r, found);
    PermutationDistinct(found, r);
    forall i, j | 0 <= i < j < |r| ensures r[i].createdAt <= r[j].createdAt && r[i].noteId != r[j].noteId {
      assert ByAge()(r[i]) >= ByAge()(r[j]);
      assert r[i] in found && r[j] in found;
    }
    forall id | id in d.at && Selects(kind, now, d.at[id]) ensures d.at[id] in r {
      assert id in d.order;
    }
  }

  lemma ListingIds(d: NoteBook, now: real, all: seq<Note>)
    requires BookFiled(d) && IsListing(d, None, now, all)
    ensures Distinct(IdsOf(all))
    ensures forall id :: id in IdsOf(all) <==> id in LiveSet(d, now)
    ensures |all| == |LiveSet(d, now)|
  {
    var order := IdsOf(all);
    forall id ensures id in order <==> id in LiveSet(d, now) {
      if id in LiveSet(d, now) {
        var i :| 0 <= i < |all| && all[i] == d.at[id];
        assert order[i] == id;
      }
      if id in order {
        var i :| 0 <= i < |order| && order[i] == id;
        assert all[i] in all;
      }
    }
    DistinctCardinality(order);
    assert (set id | id in order) == LiveSet(d, now);
  }

  class WorkingMemoryManager {
    const maxNotes: nat
    var notes: map<string, NoteBook>
    var items: map<string, ItemBook>

    constructor (maxNotes: nat)
      ensures notes == map[] && items == map[] && this.maxNotes == maxNotes && Valid()
    {
      this.maxNotes := maxNotes;
      notes, items := map[], map[];
    }

    ghost predicate Valid()
      reads this
    {
      NotesFiled(notes) && ItemsFiled(items)
    }

    method ListNotes(scopeId: string, sessionId: string, kind: Option<string>, now: real) returns (r: seq<Note>)
      requires Valid()
      ensures r == Listing(At(notes, HashKey(scopeId, sessionId)), kind, now)
      ensures IsListing(At(notes, HashKey(scopeId, sessionId)), kind, now, r)
    {
      var d := At(notes, HashKey(scopeId, sessionId));
      var found := [];
      for i := 0 to |d.order|
        invariant found == Filter(Filed(d.order[..i], d.at), Wanted(kind, now))
      {
        var note := d.at[d.order[i]];
        FiledPush(d, kind, now, i);
        if note.Live(now) && (kind.None? || note.kind == kind.value) {
          found := found + [note];
        }
      }
      assert d.order[..|d.order|] == d.order;
      ListingIs(d, kind, now);
      r := SortDescending(found, ByAge());
    }

    method CreateNote(note: Note, now: real) returns (r: Result<Note, Error>)
      requires Valid()
      modifies this`notes
      ensures Valid()
      ensures notes == NoteCreated(old(notes), HashKey(note.scopeId, note.sessionId), note, now, maxNotes)
      ensures r == if maxNotes <= |LiveSet(At(old(notes), HashKey(note.scopeId, note.sessionId)), now)|
                   then Err(LimitReached) else Ok(note)
    {
      var existing := ListNotes(note.scopeId, note.sessionId, None, now);
      var key := HashKey(note.scopeId, note.sessionId);
      ListingIds(At(notes, key), now, existing);
      if |existing| >= maxNotes {
        return Err(LimitReached);
      }
      PutKeepsNotesFiled(notes, key, note);
      StoreTwice(notes, key, EmptyDict(), At(notes, key).Put(note.noteId, note));
      if key !in notes {
        notes := notes[key := EmptyDict()];
      }
      notes := notes[key := notes[key].Put(note.noteId, note)];
      return Ok(note);
    }

    /** Reading does not ask whether the note has expired. */
    method GetNote(scopeId: string, sessionId: string, noteId: string) returns (r: Result<Note, Error>)
      ensures var d := At(notes, HashKey(scopeId, sessionId));
        r == if noteId in d.at then Ok(d.at[noteId]) else Err(NoteNotFound)
    {
      var key := HashKey(scopeId, sessionId);
      if key in notes && noteId in notes[key].at {
        return Ok(notes[key].at[noteId]);
      }
      return Err(NoteNotFound);
    }

    method UpdateNote(scopeId: string, sessionId: string, noteId: string, updates: map<string, string>, active: Option<int>)
      returns (r: Result<Note, Error>)
      requires Valid()
      modifies this`notes
      ensures Valid()
      ensures notes == NoteUpdated(old(notes), HashKey(scopeId, sessionId), noteId, updates, active)
      ensures var d := At(old(notes), HashKey(scopeId, sessionId));
        r == if noteId in d.at then Ok(Revised(d.at[noteId], updates, active)) else Err(NoteNotFound)
    {
      r := GetNote(scopeId, sessionId, noteId);
      if r.Err? {
        return;
      }
      var key := HashKey(scopeId, sessionId);
      var note := r.value.(content := r.value.content + updates,
                           active := if active.Some? then active.value else r.value.active);
      PutKeepsNotesFiled(notes, key, note);
      notes := notes[key := notes[key].Put(note.noteId, note)];
      return Ok(note);
    }

    method DeleteNote(scopeId: string, sessionId: string, noteId: string)
      requires Valid()
      modifies this`notes
      ensures Valid() && notes == NoteDeleted(old(notes), HashKey(scopeId, sessionId), noteId)
    {
      var key := HashKey(scopeId, sessionId);
      if key in notes {
        notes[key].PopWf(noteId);
        notes := notes[key := notes[key].Pop(noteId)];
      }
    }

    method ClearSession(scopeId: string, sessionId: string)
      requires Valid()
      modifies this
      ensures Valid()
      ensures notes == old(notes) - {HashKey(scopeId, sessionId)}
      ensures items == old(items) - {ItemsKey(scopeId, sessionId)}
    {
      notes := notes - {HashKey(scopeId, sessionId)};
      items := items - {ItemsKey(scopeId, sessionId)};
    }

    method Write(scopeId: string, sessionId: string, item: ContextItem)
      requires Valid()
      modifies this`items
      ensures Valid() && items == ItemWritten(old(items), ItemsKey(scopeId, sessionId), item)
    {
      WriteAt(ItemsKey(scopeId, sessionId), item);
    }

    method WriteAt(key: string, item: ContextItem)
      requires ItemsFiled(items)
      modifies this`items
      ensures ItemsFiled(items) && items == ItemWritten(old(items), key, item)
    {
      WriteKeepsItemsFiled(items, key, item);
      StoreTwice(items, key, EmptyDict(), At(items, key).Put(item.itemId, item));
      if key !in items {
        items := items[key := EmptyDict()];
      }
      items := items[key := items[key].Put(item.itemId, item)];
    }

    method ListItems(key: string) returns (r: seq<ContextItem>)
      requires ItemsFiled(items)
      ensures var d := At(items, key);
        |r| == |d.order| && forall i :: 0 <= i < |r| ==> r[i] == d.at[d.order[i]]
    {
      var d := At(items, key);
      r := [];
      for i := 0 to |d.order|
        invariant |r| == i && forall j :: 0 <= j < i ==> r[j] == d.at[d.order[j]]
      {
        r := r + [d.at[d.order[i]]];
      }
    }

    /** The items half of `mark_used`: `updated` of them were named and bumped. */
    method MarkItems(key: string, ids: set<string>) returns (updated: nat)
      requires ItemsFiled(items)
      modifies this`items
      ensures ItemsFiled(items) && items == MarkedItems(old(items), key, ids)
      ensures updated == ItemHits(old(items), key, ids)
    {
      var all := ListItems(key);
      ghost var d := At(items, key);
      updated := 0;
      MarkFiledItems(items, key, ids);
      for i := 0 to |all|
        invariant ItemsFiled(items)
        invariant items == MarkedItems(old(items), key, Hits(d.order[..i], ids))
        invariant updated == |Hits(d.order[..i], ids)|
      {
        HitsGrow(d.order, ids, i);
        if all[i].itemId in ids {
          MarkNextItem(old(items), key, Hits(d.order[..i], ids), d.order[i]);
          WriteAt(key, Used(all[i]));
          updated := updated + 1;
        }
      }
      assert d.order[..|all|] == d.order;
      HitsAll(d.order, d.at.Keys, ids);
      ItemHitsAre(old(items), key, ids);
    }

    /** Bumping one listed note, under the key of the session it names. */
    method UseNote(scopeId: string, note: Note, ghost count: nat) returns (found: bool)
      requires Valid()
      modifies this`notes
      ensures Valid()
      ensures Marking(notes, if found then count + 1 else count, !found)
        == MarkNote(Marking(old(notes), count, false), HashKey(scopeId, note.sessionId), note)
    {
      var u := UpdateNote(scopeId, note.sessionId, note.noteId, map[], Some(note.active + 1));
      found := u.Ok?;
    }

    /** The notes half of `mark_used`, which goes on counting from the items `updated`. */
    method MarkNotes(scopeId: string, sessionId: string, ids: set<string>, now: real, updated: nat)
      returns (r: Result<nat, Error>)
      requires Valid()
      modifies this`notes
      ensures Valid()
      ensures var m := MarkEach(old(notes), scopeId, Listing(At(old(notes), HashKey(scopeId, sessionId)), None, now), ids);
        notes == m.notes && r == Total(m, updated)
    {
      var all := ListNotes(scopeId, sessionId, None, now);
      r := MarkListed(scopeId, all, ids, updated);
    }

    method MarkListed(scopeId: string, all: seq<Note>, ids: set<string>, updated: nat) returns (r: Result<nat, Error>)
      requires Valid()
      modifies this`notes
      ensures Valid()
      ensures var m := MarkEach(old(notes), scopeId, all, ids);
        notes == m.notes && r == Total(m, updated)
    {
      var marked: nat := 0;
      for i := 0 to |all|
        invariant Valid()
        invariant MarkEach(old(notes), scopeId, all[..i], ids) == Marking(notes, marked, false)
      {
        MarkNext(old(notes), scopeId, all, ids, i);
        if all[i].noteId in ids {
          var found := UseNote(scopeId, all[i], marked);
          if !found {
            ErrorEndsMarking(old(notes), scopeId, all, ids, i + 1);
            return Err(NoteNotFound);
          }
          marked := marked + 1;
        }
      }
      assert all[..|all|] == all;
      return Ok(updated + marked);
    }

    /** The number returned is that of the items and notes marked. */
    method MarkUsed(scopeId: string, sessionId: string, itemIds: seq<string>, now: real) returns (r: Result<nat, Error>)
      requires Valid()
      modifies this
      ensures Valid()
      ensures items == MarkedItems(old(items), ItemsKey(scopeId, sessionId), IdSet(itemIds))
      ensures var m := MarkEach(old(notes), scopeId, Listing(At(old(notes), HashKey(scopeId, sessionId)), None, now), IdSet(itemIds));
        notes == m.notes && r == Total(m, ItemHits(old(items), ItemsKey(scopeId, sessionId), IdSet(itemIds)))
    {
      if itemIds == [] {
        assert IdSet(itemIds) == {};
        MarkFiledItems(items, ItemsKey(scopeId, sessionId), {});
        MarkingNone(notes, scopeId, Listing(At(notes, HashKey(scopeId, sessionId)), None, now));
        return Ok(0);
      }
      r := MarkBoth(ItemsKey(scopeId, sessionId), scopeId, sessionId, IdSet(itemIds), now);
    }

    method MarkBoth(itemsKey: string, scopeId: string, sessionId: string, ids: set<string>, now: real)
      returns (r: Result<nat, Error>)
      requires Valid()
      modifies this
      ensures Valid()
      ensures items == MarkedItems(old(items), itemsKey, ids)
      ensures var m := MarkEach(old(notes), scopeId, Listing(At(old(notes), HashKey(scopeId, sessionId)), None, now), ids);
        notes == m.notes && r == Total(m, ItemHits(old(items), itemsKey, ids))
    {
      var updated := MarkItems(itemsKey, ids);
      r := MarkNotes(scopeId, sessionId, ids, now, updated);
    }
  }

  function Total(m: Marking, updated: nat): Result<nat, Error> {
    if m.failed then Err(NoteNotFound) else Ok(updated + m.count)
  }

  // ----- when marking marks what it should

  lemma MarkListedNote(notes: map<string, NoteBook>, scopeId: string, sessionId: string, note: Note,
                       seen: set<string>, sofar: Marking, now: real)
    requires var d := At(notes, HashKey(scopeId, sessionId)); note.noteId in d.at && d.at[note.noteId] == note
    requires note.sessionId == sessionId && note.Live(now) && note.noteId !in seen
    requires sofar.notes == MarkedNotes(notes, HashKey(scopeId, sessionId), seen, now)
    ensures MarkNote(sofar, HashKey(scopeId, note.sessionId), note)
      == Marking(MarkedNotes(notes, HashKey(scopeId, sessionId), seen + {note.noteId}, now), sofar.count + 1, false)
  {
    MarkNextNote(notes, HashKey(scopeId, sessionId), seen, note.noteId, now);
  }

  lemma {:induction false} MarkEachAtHome(notes: map<string, NoteBook>, scopeId: string, sessionId: string, all: seq<Note>,
                                          ids: set<string>, now: real)
    requires var d := At(notes, HashKey(scopeId, sessionId));
      forall x :: x in all ==> x.noteId in d.at && d.at[x.noteId] == x && x.Live(now)
    requires DistinctNotes(all) && AtHome(At(notes, HashKey(scopeId, sessionId)), sessionId, ids, now)
    ensures MarkEach(notes, scopeId, all, ids)
      == Marking(MarkedNotes(notes, HashKey(scopeId, sessionId), Hits(IdsOf(all), ids), now), |Hits(IdsOf(all), ids)|, false)
  {
    if all == [] {
      MarkLiveNotes(notes, HashKey(scopeId, sessionId), {}, now);
    } else {
      var front, note := all[..|all| - 1], all[|all| - 1];
      MarkEachAtHome(notes, scopeId, sessionId, front, ids, now);
      assert IdsOf(all)[..|front|] == IdsOf(front) && note in all;
      assert IdsOf(all)[..|all|] == IdsOf(all);
      HitsGrow(IdsOf(all), ids, |front|);
      if note.noteId in ids {
        MarkListedNote(notes, scopeId, sessionId, note, Hits(IdsOf(front), ids), MarkEach(notes, scopeId, front, ids), now);
      }
    }
  }

  /** A note that is not at home is written elsewhere, if anywhere: here it stays as it was. */
  lemma {:induction false} StrayStays(notes: map<string, NoteBook>, scopeId: string, sessionId: string, all: seq<Note>,
                                      ids: set<string>, stray: string)
    requires var d := At(notes, HashKey(scopeId, sessionId));
      && (forall x :: x in all ==> x.noteId in d.at && d.at[x.noteId] == x)
      && stray in d.at && d.at[stray].sessionId != sessionId
    ensures var d, after := At(notes, HashKey(scopeId, sessionId)), At(MarkEach(notes, scopeId, all, ids).notes, HashKey(scopeId, sessionId));
      stray in after.at && after.at[stray] == d.at[stray]
  {
    if all != [] {
      var note := all[|all| - 1];
      assert note in all;
      StrayStays(notes, scopeId, sessionId, all[..|all| - 1], ids, stray);
      if HashKey(scopeId, note.sessionId) == HashKey(scopeId, sessionId) {
        SameScopeKeys(scopeId, note.sessionId, sessionId);
      }
    }
  }

  /** Marking bumps exactly the live notes named, and counts them, if and only if every one of
      them is at home: made in this very session, not in another that shares its key. */
  lemma MarkingIsExactIff(notes: map<string, NoteBook>, scopeId: string, sessionId: string, ids: set<string>, now: real)
    requires NotesFiled(notes)
    ensures var key := HashKey(scopeId, sessionId);
      MarkEach(notes, scopeId, Listing(At(notes, key), None, now), ids)
        == Marking(MarkedNotes(notes, key, ids, now), NoteHits(notes, key, ids, now), false)
      <==> AtHome(At(notes, key), sessionId, ids, now)
  {
    var key := HashKey(scopeId, sessionId);
    var d := At(notes, key);
    var all := Listing(d, None, now);
    ListingIs(d, None, now);
    if AtHome(d, sessionId, ids, now) {
      MarkEachAtHome(notes, scopeId, sessionId, all, ids, now);
      ListingIds(d, now, all);
      HitsAll(IdsOf(all), LiveSet(d, now), ids);
      MarkLiveNotes(notes, key, ids, now);
      NoteHitsAre(notes, key, ids, now);
    } else {
      var stray :| stray in d.at && stray in ids && d.at[stray].Live(now) && d.at[stray].sessionId != sessionId;
      StrayStays(notes, scopeId, sessionId, all, ids, stray);
      assert At(MarkedNotes(notes, key, ids, now), key).at[stray] == NoteUsed(d.at[stray]);
    }
  }

  /** Such a note: filed by session `c` of scope `a:b`, listed for session `b:c` of scope `a`,
      and looked for under session `c` of scope `a`, where it is not. The marking fails. */
  lemma StrayMarkFails(note: Note, now: real)
    requires note.scopeId == "a:b" && note.sessionId == "c" && note.Live(now)
    ensures HashKey("a", "b:c") == HashKey("a:b", "c")
    ensures var d := EmptyDict<string, Note>().Put(note.noteId, note); var notes := map[HashKey("a:b", "c") := d];
      MarkEach(notes, "a", Listing(At(notes, HashKey("a", "b:c")), None, now), {note.noteId}) == Marking(notes, 0, true)
  {
    assert "ca:wm:" + "a" + ":" + "b:c" == "ca:wm:" + "a:b" + ":" + "c";
    var d := EmptyDict<string, Note>().Put(note.noteId, note);
    var notes := map[HashKey("a:b", "c") := d];
    OnlyNoteListed(note, now);
    if HashKey("a", "c") == HashKey("a", "b:c") {
      SameScopeKeys("a", "c", "b:c");
    }
    assert [note][..0] == [];
    assert MarkEach(notes, "a", [], {note.noteId}) == Marking(notes, 0, false);
    assert MarkEach(notes, "a", [note], {note.noteId}) == MarkNote(Marking(notes, 0, false), HashKey("a", "c"), note);
  }

  lemma OneFiled(note: Note)
    ensures Filed([note.noteId], map[note.noteId := note]) == [note]
  {
    assert [note.noteId][..0] == [];
  }

  lemma OnlyNoteListed(note: Note, now: real)
    requires note.Live(now)
    ensures Listing(EmptyDict<string, Note>().Put(note.noteId, note), None, now) == [note]
  {
    assert EmptyDict<string, Note>().Put(note.noteId, note) == Dict([note.noteId], map[note.noteId := note]);
    OneFiled(note);
    FilterAll([note], Wanted(None, now));
    SortDescendingIdentity([note], ByAge());
  }
}
