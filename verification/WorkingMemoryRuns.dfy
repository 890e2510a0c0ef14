/** Whole runs of the scratchpad. */
module WorkingMemoryRuns {
  import opened PyCollections
  import opened ContextModels
  import opened WorkingMemory

  datatype Action =
    | Create(note: Note)
    | Update(id: string, updates: map<string, string>, active: Option<int>)
    | Delete(id: string)
    | Clear
    | WriteItem(item: ContextItem)
    | Mark(ids: set<string>)

  /** One call on one session. */
  datatype Op = Op(scopeId: string, sessionId: string, action: Action, now: real)

  /** What a call does to the notes of its session; marking goes note by note. */
  function StepNotes(notes: map<string, NoteBook>, scopeId: string, key: string, action: Action, now: real, max: nat)
    : map<string, NoteBook>
  {
    match action
    case Mark(ids) => MarkEach(notes, scopeId, Listing(At(notes, key), None, now), ids).notes
    case _ => StepNotesAtOnce(notes, key, action, now, max)
  }

  /** The same with all the notes named marked at once. */
  function StepNotesAtOnce(notes: map<string, NoteBook>, key: string, action: Action, now: real, max: nat): map<string, NoteBook> {
    match action
    case Create(note) => NoteCreated(notes, key, note, now, max)
    case Update(id, updates, active) => NoteUpdated(notes, key, id, updates, active)
    case Delete(id) => NoteDeleted(notes, key, id)
    case Clear => notes - {key}
    case WriteItem(_) => notes
    case Mark(ids) => MarkedNotes(notes, key, ids, now)
  }

  function StepItems(items: map<string, ItemBook>, key: string, action: Action): map<string, ItemBook> {
    match action
    case Clear => items - {key}
    case WriteItem(item) => ItemWritten(items, key, item)
    case Mark(ids) => MarkedItems(items, key, ids)
    case _ => items
  }

  /** A note is created in the session it names. */
  function Addressed(op: Op): Action {
    match op.action
    case Create(note) => Create(note.(scopeId := op.scopeId, sessionId := op.sessionId))
    case _ => op.action
  }

  function Step(m: Memory, op: Op, max: nat): Memory {
    Memory(
      StepNotes(m.notes, op.scopeId, HashKey(op.scopeId, op.sessionId), Addressed(op), op.now, max),
      StepItems(m.items, ItemsKey(op.scopeId, op.sessionId), op.action))
  }

  function Run(ops: seq<Op>, max: nat): Memory {
    if ops == [] then Memory(map[], map[]) else Step(Run(ops[..|ops| - 1], max), ops[|ops| - 1], max)
  }

  function StepAtOnce(m: Memory, op: Op, max: nat): Memory {
    Memory(
      StepNotesAtOnce(m.notes, HashKey(op.scopeId, op.sessionId), Addressed(op), op.now, max),
      StepItems(m.items, ItemsKey(op.scopeId, op.sessionId), op.action))
  }

  function RunAtOnce(ops: seq<Op>, max: nat): Memory {
    if ops == [] then Memory(map[], map[]) else StepAtOnce(RunAtOnce(ops[..|ops| - 1], max), ops[|ops| - 1], max)
  }

  ghost predicate ClockMovesForward(ops: seq<Op>) {
    forall i, j :: 0 <= i < j < |ops| ==> ops[i].now <= ops[j].now
  }

  // ----- the note limit

  lemma LiveShrinks(d: NoteBook, early: real, late: real)
    requires early <= late
    ensures |LiveSet(d, late)| <= |LiveSet(d, early)|
  {
    SubsetSize(LiveSet(d, late), LiveSet(d, early));
  }

  lemma StepKeepsLimit(notes: map<string, NoteBook>, opKey: string, action: Action, now: real, max: nat, key: string)
    requires |LiveSet(At(notes, key), now)| <= max
    ensures |LiveSet(At(StepNotesAtOnce(notes, opKey, action, now, max), key), now)| <= max
  {
    var before, after := At(notes, key), At(StepNotesAtOnce(notes, opKey, action, now, max), key);
    if key == opKey && action.Create? && |LiveSet(before, now)| < max {
      assert LiveSet(after, now) <= LiveSet(before, now) + {action.note.noteId};
      SubsetSize(LiveSet(after, now), LiveSet(before, now) + {action.note.noteId});
    } else {
      assert LiveSet(after, now) <= LiveSet(before, now);
      SubsetSize(LiveSet(after, now), LiveSet(before, now));
    }
  }

  lemma MarkNoteKeepsLive(sofar: Marking, noteKey: string, note: Note, key: string, now: real)
    ensures LiveSet(At(MarkNote(sofar, noteKey, note).notes, key), now) == LiveSet(At(sofar.notes, key), now)
  {
  }

  /** Marking, wherever it writes, changes no note's lifetime. */
  lemma {:induction false} MarkEachKeepsLive(notes: map<string, NoteBook>, scopeId: string, all: seq<Note>, ids: set<string>,
                                             key: string, now: real)
    ensures LiveSet(At(MarkEach(notes, scopeId, all, ids).notes, key), now) == LiveSet(At(notes, key), now)
  {
    if all != [] {
      var note := all[|all| - 1];
      MarkEachKeepsLive(notes, scopeId, all[..|all| - 1], ids, key, now);
      MarkNoteKeepsLive(MarkEach(notes, scopeId, all[..|all| - 1], ids), HashKey(scopeId, note.sessionId), note, key, now);
    }
  }

  /** With a clock that never goes back, no session ever has more live notes than the limit. */
  lemma {:induction false} NotesStayWithinLimit(ops: seq<Op>, max: nat, key: string, now: real)
    requires ClockMovesForward(ops) && (ops != [] ==> ops[|ops| - 1].now <= now)
    ensures |LiveSet(At(Run(ops, max).notes, key), now)| <= max
  {
    if ops != [] {
      var front, op := ops[..|ops| - 1], ops[|ops| - 1];
      var notes, opKey := Run(front, max).notes, HashKey(op.scopeId, op.sessionId);
      NotesStayWithinLimit(front, max, key, op.now);
      StepKeepsLimit(notes, opKey, Addressed(op), op.now, max, key);
      if op.action.Mark? {
        MarkEachKeepsLive(notes, op.scopeId, Listing(At(notes, opKey), None, op.now), op.action.ids, key, op.now);
      }
      LiveShrinks(At(Run(ops, max).notes, key), op.now, now);
    }
  }

  // ----- when no two sessions share a key, marking one by one is marking at once

  datatype Session = Session(scopeId: string, sessionId: string)

  function SessionOf(op: Op): Session {
    Session(op.scopeId, op.sessionId)
  }

  function NotesKey(s: Session): string {
    HashKey(s.scopeId, s.sessionId)
  }

  ghost predicate NoSharedKeys(sessions: set<Session>) {
    forall a, b :: a in sessions && b in sessions && NotesKey(a) == NotesKey(b) ==> a == b
  }

  ghost predicate Among(ops: seq<Op>, sessions: set<Session>) {
    forall i :: 0 <= i < |ops| ==> SessionOf(ops[i]) in sessions
  }

  /** Session ids without colons never share a key. */
  lemma ColonFreeShareNoKeys(sessions: set<Session>)
    requires forall s :: s in sessions ==> ':' !in s.sessionId
    ensures NoSharedKeys(sessions)
  {
    forall a, b | a in sessions && b in sessions && NotesKey(a) == NotesKey(b) ensures a == b {
      ScopedKeyInjective("ca:wm:", a.scopeId, a.sessionId, b.scopeId, b.sessionId);
    }
  }

  /** Sessions share the key of their notes exactly when they share that of their items. */
  lemma KeysGoTogether(scope1: string, session1: string, scope2: string, session2: string)
    ensures HashKey(scope1, session1) == HashKey(scope2, session2) <==> ItemsKey(scope1, session1) == ItemsKey(scope2, session2)
  {
    var tail1, tail2 := scope1 + ":" + session1, scope2 + ":" + session2;
    assert HashKey(scope1, session1) == "ca:wm:" + tail1 && HashKey(scope2, session2) == "ca:wm:" + tail2;
    assert ItemsKey(scope1, session1) == "ca:wm-items:" + tail1 && ItemsKey(scope2, session2) == "ca:wm-items:" + tail2;
    assert ("ca:wm:" + tail1)[6..] == tail1 && ("ca:wm:" + tail2)[6..] == tail2;
    assert ("ca:wm-items:" + tail1)[12..] == tail1 && ("ca:wm-items:" + tail2)[12..] == tail2;
  }

  /** Every note is filed by one of the sessions, under its key. */
  ghost predicate Tidy(notes: map<string, NoteBook>, sessions: set<Session>) {
    && NotesFiled(notes)
    && (forall key, id :: key in notes && id in notes[key].at ==>
          Session(notes[key].at[id].scopeId, notes[key].at[id].sessionId) in sessions)
  }

  lemma PutKeepsTidy(notes: map<string, NoteBook>, sessions: set<Session>, key: string, note: Note)
    requires Tidy(notes, sessions) && HashKey(note.scopeId, note.sessionId) == key
    requires Session(note.scopeId, note.sessionId) in sessions
    ensures Tidy(notes[key := At(notes, key).Put(note.noteId, note)], sessions)
  {
    PutKeepsNotesFiled(notes, key, note);
  }

  lemma UpdateKeepsTidy(notes: map<string, NoteBook>, sessions: set<Session>, key: string, id: string,
                        updates: map<string, string>, active: Option<int>)
    requires Tidy(notes, sessions)
    ensures Tidy(NoteUpdated(notes, key, id, updates, active), sessions)
  {
    if id in At(notes, key).at {
      PutKeepsTidy(notes, sessions, key, Revised(At(notes, key).at[id], updates, active));
    }
  }

  lemma DeleteKeepsTidy(notes: map<string, NoteBook>, sessions: set<Session>, key: string, id: string)
    requires Tidy(notes, sessions)
    ensures Tidy(NoteDeleted(notes, key, id), sessions)
  {
    if key in notes {
      notes[key].PopWf(id);
    }
  }

  lemma MarkKeepsTidy(notes: map<string, NoteBook>, sessions: set<Session>, key: string, ids: set<string>, now: real)
    requires Tidy(notes, sessions)
    ensures Tidy(MarkedNotes(notes, key, ids, now), sessions)
  {
  }

  lemma NoteStepKeepsTidy(notes: map<string, NoteBook>, sessions: set<Session>, key: string, action: Action, now: real, max: nat)
    requires Tidy(notes, sessions)
    requires action.Create? ==>
      HashKey(action.note.scopeId, action.note.sessionId) == key && Session(action.note.scopeId, action.note.sessionId) in sessions
    ensures Tidy(StepNotesAtOnce(notes, key, action, now, max), sessions)
  {
    match action
    case Create(note) => PutKeepsTidy(notes, sessions, key, note);
    case Update(id, updates, active) => UpdateKeepsTidy(notes, sessions, key, id, updates, active);
    case Delete(id) => DeleteKeepsTidy(notes, sessions, key, id);
    case Clear =>
    case WriteItem(_) =>
    case Mark(ids) => MarkKeepsTidy(notes, sessions, key, ids, now);
  }

  lemma TidyIsAtHome(notes: map<string, NoteBook>, sessions: set<Session>, s: Session, ids: set<string>, now: real)
    requires Tidy(notes, sessions) && NoSharedKeys(sessions) && s in sessions
    ensures AtHome(At(notes, NotesKey(s)), s.sessionId, ids, now)
  {
    var d := At(notes, NotesKey(s));
    forall id | id in d.at ensures d.at[id].sessionId == s.sessionId {
      assert NotesKey(Session(d.at[id].scopeId, d.at[id].sessionId)) == NotesKey(s);
    }
  }

  lemma StepIsAtOnce(m: Memory, sessions: set<Session>, op: Op, max: nat)
    requires Tidy(m.notes, sessions) && NoSharedKeys(sessions) && SessionOf(op) in sessions
    ensures Step(m, op, max) == StepAtOnce(m, op, max)
  {
    if op.action.Mark? {
      TidyIsAtHome(m.notes, sessions, SessionOf(op), op.action.ids, op.now);
      MarkingIsExactIff(m.notes, op.scopeId, op.sessionId, op.action.ids, op.now);
    }
  }

  lemma {:induction false} RunIsAtOnce(ops: seq<Op>, sessions: set<Session>, max: nat)
    requires Among(ops, sessions) && NoSharedKeys(sessions)
    ensures Run(ops, max) == RunAtOnce(ops, max) && Tidy(Run(ops, max).notes, sessions)
  {
    if ops != [] {
      var front, op := ops[..|ops| - 1], ops[|ops| - 1];
      RunIsAtOnce(front, sessions, max);
      StepIsAtOnce(Run(front, max), sessions, op, max);
      NoteStepKeepsTidy(Run(front, max).notes, sessions, HashKey(op.scopeId, op.sessionId), Addressed(op), op.now, max);
    }
  }

  // ----- sessions do not interfere

  function On(scopeId: string, sessionId: string): Op -> bool {
    (op: Op) => op.scopeId == scopeId && op.sessionId == sessionId
  }

  lemma KeysApart(op: Op, sessions: set<Session>, scopeId: string, sessionId: string)
    requires NoSharedKeys(sessions) && SessionOf(op) in sessions && Session(scopeId, sessionId) in sessions
    requires !On(scopeId, sessionId)(op)
    ensures HashKey(op.scopeId, op.sessionId) != HashKey(scopeId, sessionId)
    ensures ItemsKey(op.scopeId, op.sessionId) != ItemsKey(scopeId, sessionId)
  {
    assert NotesKey(SessionOf(op)) != NotesKey(Session(scopeId, sessionId));
    KeysGoTogether(op.scopeId, op.sessionId, scopeId, sessionId);
  }

  lemma OtherKeyUntouched(m: Memory, op: Op, max: nat, notesKey: string, itemsKey: string)
    requires HashKey(op.scopeId, op.sessionId) != notesKey && ItemsKey(op.scopeId, op.sessionId) != itemsKey
    ensures At(StepAtOnce(m, op, max).notes, notesKey) == At(m.notes, notesKey)
    ensures At(StepAtOnce(m, op, max).items, itemsKey) == At(m.items, itemsKey)
  {
  }

  /** Two stores that hold the same under one pair of keys. */
  ghost predicate SameBooks(m1: Memory, m2: Memory, notesKey: string, itemsKey: string) {
    && At(m1.notes, notesKey) == At(m2.notes, notesKey) && (notesKey in m1.notes <==> notesKey in m2.notes)
    && At(m1.items, itemsKey) == At(m2.items, itemsKey) && (itemsKey in m1.items <==> itemsKey in m2.items)
  }

  lemma OwnStepAgrees(m1: Memory, m2: Memory, op: Op, max: nat, notesKey: string, itemsKey: string)
    requires SameBooks(m1, m2, notesKey, itemsKey)
    requires HashKey(op.scopeId, op.sessionId) == notesKey && ItemsKey(op.scopeId, op.sessionId) == itemsKey
    ensures SameBooks(StepAtOnce(m1, op, max), StepAtOnce(m2, op, max), notesKey, itemsKey)
  {
  }

  lemma OtherStepIgnored(m1: Memory, m2: Memory, op: Op, max: nat, notesKey: string, itemsKey: string)
    requires SameBooks(m1, m2, notesKey, itemsKey)
    requires HashKey(op.scopeId, op.sessionId) != notesKey && ItemsKey(op.scopeId, op.sessionId) != itemsKey
    ensures SameBooks(StepAtOnce(m1, op, max), m2, notesKey, itemsKey)
  {
    OtherKeyUntouched(m1, op, max, notesKey, itemsKey);
  }

  lemma {:induction false} SessionsApart(ops: seq<Op>, sessions: set<Session>, max: nat, scopeId: string, sessionId: string)
    requires Among(ops, sessions) && NoSharedKeys(sessions) && Session(scopeId, sessionId) in sessions
    ensures SameBooks(RunAtOnce(ops, max), RunAtOnce(Filter(ops, On(scopeId, sessionId)), max),
      HashKey(scopeId, sessionId), ItemsKey(scopeId, sessionId))
  {
    if ops != [] {
      var front, op := ops[..|ops| - 1], ops[|ops| - 1];
      SessionsApart(front, sessions, max, scopeId, sessionId);
      var own := Filter(front, On(scopeId, sessionId));
      var notesKey, itemsKey := HashKey(scopeId, sessionId), ItemsKey(scopeId, sessionId);
      if On(scopeId, sessionId)(op) {
        assert (own + [op])[..|own|] == own;
        OwnStepAgrees(RunAtOnce(front, max), RunAtOnce(own, max), op, max, notesKey, itemsKey);
      } else {
        KeysApart(op, sessions, scopeId, sessionId);
        OtherStepIgnored(RunAtOnce(front, max), RunAtOnce(own, max), op, max, notesKey, itemsKey);
      }
    }
  }

  /** When no two sessions of a run share a key, what a session holds afterwards is what its
      own calls alone would have left. */
  lemma SessionsNeverInterfere(ops: seq<Op>, sessions: set<Session>, max: nat, scopeId: string, sessionId: string)
    requires Among(ops, sessions) && NoSharedKeys(sessions) && Session(scopeId, sessionId) in sessions
    ensures SameBooks(Run(ops, max), Run(Filter(ops, On(scopeId, sessionId)), max),
      HashKey(scopeId, sessionId), ItemsKey(scopeId, sessionId))
  {
    var own := Filter(ops, On(scopeId, sessionId));
    forall i | 0 <= i < |own| ensures SessionOf(own[i]) in sessions {
      assert own[i] in own;
    }
    RunIsAtOnce(ops, sessions, max);
    RunIsAtOnce(own, sessions, max);
    SessionsApart(ops, sessions, max, scopeId, sessionId);
  }

  // ----- use counts

  /** One item under one key as an independent counter: the last write, plus the later calls
      on that key naming it. */
  function Counter(ops: seq<Op>, key: string, id: string): Option<ContextItem> {
    if ops == [] then None
    else
      var before, op := Counter(ops[..|ops| - 1], key, id), ops[|ops| - 1];
      if ItemsKey(op.scopeId, op.sessionId) != key then before
      else match op.action
        case WriteItem(item) => if item.itemId == id then Some(item) else before
        case Clear => None
        case Mark(ids) => if before.Some? && id in ids then Some(Used(before.value)) else before
        case _ => before
  }

  function Lookup(d: ItemBook, id: string): Option<ContextItem> {
    if id in d.at then Some(d.at[id]) else None
  }

  /** The store holds every item exactly as its counter says, in every run. */
  lemma {:induction false} ItemsFollowCounters(ops: seq<Op>, max: nat, key: string, id: string)
    ensures Lookup(At(Run(ops, max).items, key), id) == Counter(ops, key, id)
  {
    if ops != [] {
      ItemsFollowCounters(ops[..|ops| - 1], max, key, id);
    }
  }

  predicate Marks(op: Op, id: string) {
    op.action.Mark? && id in op.action.ids
  }

  /** How many calls in the run are `mark_used` naming this item on whatever session has this key. */
  function MarksAt(ops: seq<Op>, key: string, id: string): nat {
    if ops == [] then 0
    else
      var op := ops[|ops| - 1];
      MarksAt(ops[..|ops| - 1], key, id) + (if ItemsKey(op.scopeId, op.sessionId) == key && Marks(op, id) then 1 else 0)
  }

  /** How many are on this very session. */
  function MarksNaming(ops: seq<Op>, scopeId: string, sessionId: string, id: string): nat {
    if ops == [] then 0
    else
      var op := ops[|ops| - 1];
      MarksNaming(ops[..|ops| - 1], scopeId, sessionId, id)
      + (if On(scopeId, sessionId)(op) && Marks(op, id) then 1 else 0)
  }

  predicate Resets(op: Op, key: string, id: string) {
    ItemsKey(op.scopeId, op.sessionId) == key && (op.action.Clear? || (op.action.WriteItem? && op.action.item.itemId == id))
  }

  lemma {:induction false} CounterAfterWrite(before: seq<Op>, write: Op, later: seq<Op>, key: string)
    requires write.action.WriteItem? && ItemsKey(write.scopeId, write.sessionId) == key
    requires forall i :: 0 <= i < |later| ==> !Resets(later[i], key, write.action.item.itemId)
    ensures var item := write.action.item;
      Counter(before + [write] + later, key, item.itemId)
        == Some(item.(activeCount := item.activeCount + MarksAt(later, key, item.itemId)))
    decreases |later|
  {
    if later == [] {
      assert before + [write] + later == before + [write];
      assert (before + [write])[..|before|] == before;
    } else {
      var all := before + [write] + later;
      assert all[..|all| - 1] == before + [write] + later[..|later| - 1];
      CounterAfterWrite(before, write, later[..|later| - 1], key);
    }
  }

  /** What the store holds under the key after a run. */
  function ItemsAt(ops: seq<Op>, max: nat, key: string): map<string, ContextItem> {
    At(Run(ops, max).items, key).at
  }

  /** In every run an item's use count is the count it was written with plus the number of
      later calls on its key naming it; a call naming it twice counts once. */
  lemma UseCountIsWrittenPlusMarks(before: seq<Op>, write: Op, later: seq<Op>, max: nat, key: string)
    requires write.action.WriteItem? && ItemsKey(write.scopeId, write.sessionId) == key
    requires forall i :: 0 <= i < |later| ==> !Resets(later[i], key, write.action.item.itemId)
    ensures var item := write.action.item;
      var held := ItemsAt(before + [write] + later, max, key);
      item.itemId in held && held[item.itemId].activeCount == item.activeCount + MarksAt(later, key, item.itemId)
  {
    CounterAfterWrite(before, write, later, key);
    ItemsFollowCounters(before + [write] + later, max, key, write.action.item.itemId);
  }

  /** Every call naming the item on the key is on this very session. */
  ghost predicate OnlyOwnMarks(ops: seq<Op>, key: string, scopeId: string, sessionId: string, id: string) {
    forall i :: 0 <= i < |ops| && Marks(ops[i], id) && ItemsKey(ops[i].scopeId, ops[i].sessionId) == key
      ==> On(scopeId, sessionId)(ops[i])
  }

  lemma {:induction false} OwnMarksAre(ops: seq<Op>, key: string, scopeId: string, sessionId: string, id: string)
    requires ItemsKey(scopeId, sessionId) == key
    ensures MarksNaming(ops, scopeId, sessionId, id) <= MarksAt(ops, key, id)
    ensures MarksNaming(ops, scopeId, sessionId, id) == MarksAt(ops, key, id)
      <==> OnlyOwnMarks(ops, key, scopeId, sessionId, id)
  {
    if ops != [] {
      var front, op := ops[..|ops| - 1], ops[|ops| - 1];
      OwnMarksAre(front, key, scopeId, sessionId, id);
      assert forall i :: 0 <= i < |front| ==> front[i] == ops[i];
    }
  }

  /** An item's use count is the written one plus its own session's later calls naming it if
      and only if no other session that shares the key has marked it since. */
  lemma OwnUsesCountIff(before: seq<Op>, write: Op, later: seq<Op>, max: nat, key: string)
    requires write.action.WriteItem? && ItemsKey(write.scopeId, write.sessionId) == key
    requires forall i :: 0 <= i < |later| ==> !Resets(later[i], key, write.action.item.itemId)
    ensures var item := write.action.item;
      var held := ItemsAt(before + [write] + later, max, key);
      && item.itemId in held
      && (held[item.itemId].activeCount == item.activeCount + MarksNaming(later, write.scopeId, write.sessionId, item.itemId)
          <==> OnlyOwnMarks(later, key, write.scopeId, write.sessionId, item.itemId))
  {
    UseCountIsWrittenPlusMarks(before, write, later, max, key);
    OwnMarksAre(later, key, write.scopeId, write.sessionId, write.action.item.itemId);
  }

  lemma UnsharedKeyMarks(write: Op, later: seq<Op>, sessions: set<Session>, key: string, id: string)
    requires Among(later, sessions) && SessionOf(write) in sessions && NoSharedKeys(sessions)
    requires ItemsKey(write.scopeId, write.sessionId) == key
    ensures OnlyOwnMarks(later, key, write.scopeId, write.sessionId, id)
  {
    forall i | 0 <= i < |later| && ItemsKey(later[i].scopeId, later[i].sessionId) == key
      ensures On(write.scopeId, write.sessionId)(later[i])
    {
      if !On(write.scopeId, write.sessionId)(later[i]) {
        KeysApart(later[i], sessions, write.scopeId, write.sessionId);
      }
    }
  }

  /** So it is whenever no two sessions share a key, in particular without colons. */
  lemma OwnUsesCount(before: seq<Op>, write: Op, later: seq<Op>, sessions: set<Session>, max: nat, key: string)
    requires Among(later, sessions) && SessionOf(write) in sessions && NoSharedKeys(sessions)
    requires write.action.WriteItem? && ItemsKey(write.scopeId, write.sessionId) == key
    requires forall i :: 0 <= i < |later| ==> !Resets(later[i], key, write.action.item.itemId)
    ensures var item := write.action.item;
      var held := ItemsAt(before + [write] + later, max, key);
      && item.itemId in held
      && held[item.itemId].activeCount == item.activeCount + MarksNaming(later, write.scopeId, write.sessionId, item.itemId)
  {
    UnsharedKeyMarks(write, later, sessions, key, write.action.item.itemId);
    OwnUsesCountIff(before, write, later, max, key);
  }

  /** An item of session `c` in scope `a:b`, marked once through session `b:c` of scope `a`:
      its count grows, though no call on its own session named it. */
  lemma ForeignUseCounts(item: ContextItem, now: real, max: nat)
    ensures var write := Op("a:b", "c", WriteItem(item), now);
      var mark := Op("a", "b:c", Mark({item.itemId}), now);
      var held := ItemsAt([write, mark], max, ItemsKey("a:b", "c"));
      && item.itemId in held && held[item.itemId].activeCount == item.activeCount + 1
      && MarksNaming([mark], "a:b", "c", item.itemId) == 0
  {
    var write, mark := Op("a:b", "c", WriteItem(item), now), Op("a", "b:c", Mark({item.itemId}), now);
    var key := ItemsKey("a:b", "c");
    assert "ca:wm-items:" + "a" + ":" + "b:c" == "ca:wm-items:" + "a:b" + ":" + "c";
    assert [] + [write] + [mark] == [write, mark];
    assert [mark][..0] == [];
    assert MarksAt([mark], key, item.itemId) == 1;
    UseCountIsWrittenPlusMarks([], write, [mark], max, key);
    assert "a" != "a:b" by { assert |"a"| != |"a:b"|; }
  }

  // ----- the number mark_used returns

  /** The ids hit are those of the records that differ once marked. */
  lemma MarkCountsChanges(items: map<string, ItemBook>, itemsKey: string, notes: map<string, NoteBook>,
                          notesKey: string, ids: set<string>, now: real)
    ensures var i, i' := At(items, itemsKey).at, At(MarkedItems(items, itemsKey, ids), itemsKey).at;
      i'.Keys == i.Keys && ItemHits(items, itemsKey, ids) == |set id | id in i && i'[id] != i[id]|
    ensures var n, n' := At(notes, notesKey).at, At(MarkedNotes(notes, notesKey, ids, now), notesKey).at;
      n'.Keys == n.Keys && NoteHits(notes, notesKey, ids, now) == |set id | id in n && n'[id] != n[id]|
  {
    var i, i' := At(items, itemsKey).at, At(MarkedItems(items, itemsKey, ids), itemsKey).at;
    assert (set id | id in i && i'[id] != i[id]) == (set id | id in i && id in ids);
    var n, n' := At(notes, notesKey).at, At(MarkedNotes(notes, notesKey, ids, now), notesKey).at;
    assert (set id | id in n && n'[id] != n[id]) == (set id | id in n && id in ids && n[id].Live(now));
  }

  /** How many records of a session `mark_used` leaves different. */
  function ChangedRecords(items: map<string, ContextItem>, items': map<string, ContextItem>,
                          notes: map<string, Note>, notes': map<string, Note>): nat
    requires items'.Keys == items.Keys && notes'.Keys == notes.Keys
  {
    |set id | id in items && items'[id] != items[id]| + |set id | id in notes && notes'[id] != notes[id]|
  }

  lemma NumberIsChanges(items: map<string, ItemBook>, itemsKey: string, notes: map<string, NoteBook>,
                        notesKey: string, m: Marking, ids: set<string>, now: real)
    requires m == Marking(MarkedNotes(notes, notesKey, ids, now), NoteHits(notes, notesKey, ids, now), false)
    ensures var i, i' := At(items, itemsKey).at, At(MarkedItems(items, itemsKey, ids), itemsKey).at;
      var n, n' := At(notes, notesKey).at, At(m.notes, notesKey).at;
      && i'.Keys == i.Keys && n'.Keys == n.Keys
      && Total(m, ItemHits(items, itemsKey, ids)) == Ok(ChangedRecords(i, i', n, n'))
  {
    MarkCountsChanges(items, itemsKey, notes, notesKey, ids, now);
  }

  /** When every note named is at home, `mark_used` returns the number of item and note records
      its session holds differently afterwards. */
  lemma NumberReturnedIsChanges(items: map<string, ItemBook>, itemsKey: string, notes: map<string, NoteBook>,
                                scopeId: string, sessionId: string, ids: set<string>, now: real)
    requires NotesFiled(notes) && AtHome(At(notes, HashKey(scopeId, sessionId)), sessionId, ids, now)
    ensures var key := HashKey(scopeId, sessionId);
      var m := MarkEach(notes, scopeId, Listing(At(notes, key), None, now), ids);
      var i, i' := At(items, itemsKey).at, At(MarkedItems(items, itemsKey, ids), itemsKey).at;
      var n, n' := At(notes, key).at, At(m.notes, key).at;
      && i'.Keys == i.Keys && n'.Keys == n.Keys
      && Total(m, ItemHits(items, itemsKey, ids)) == Ok(ChangedRecords(i, i', n, n'))
  {
    var key := HashKey(scopeId, sessionId);
    MarkingIsExactIff(notes, scopeId, sessionId, ids, now);
    NumberIsChanges(items, itemsKey, notes, key, MarkEach(notes, scopeId, Listing(At(notes, key), None, now), ids), ids, now);
  }
}
