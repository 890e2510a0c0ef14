/** The notes of a session in the terms of the calls: what each reads as after any run, and
    which are listed when. */
module NoteJournals {
  import opened PyCollections
  import opened ContextModels
  import opened WorkingMemory
  import opened WorkingMemoryRuns

  /** What a lookup of this note finds. */
  function NoteAt(notes: map<string, NoteBook>, key: string, id: string): Option<Note> {
    var d := At(notes, key);
    if id in d.at then Some(d.at[id]) else None
  }

  /** The note is neither past its expiry, if it has one, nor of another kind than is asked for. */
  predicate Due(note: Note, kind: Option<string>, now: real) {
    (note.expiresAt == None || now <= note.expiresAt.value) && (kind == None || kind == Some(note.kind))
  }

  /** A listing shows a note exactly until it expires, and only if the kind asked for is its own. */
  lemma ListedUntilExpiry(d: NoteBook, kind: Option<string>, now: real, note: Note)
    requires BookFiled(d)
    ensures note in Listing(d, kind, now) <==> note.noteId in d.at && d.at[note.noteId] == note && Due(note, kind, now)
  {
    ListingIs(d, kind, now);
    assert note.noteId in d.at ==> d.at[note.noteId].noteId == note.noteId;
  }

  /** The note after an update: the entries given are new, all the others are as they were. */
  ghost predicate IsUpdate(before: Note, after: Note, updates: map<string, string>, active: Option<int>) {
    && after == before.(content := after.content, active := after.active)
    && after.content.Keys == before.content.Keys + updates.Keys
    && (forall k :: k in after.content ==> after.content[k] == if k in updates then updates[k] else before.content[k])
    && after.active == if active.Some? then active.value else before.active
  }

  /** What one call on its session makes of a note; `live` is how many live notes the session
      has, and a create counts only while they are below the limit. */
  function Next(before: Option<Note>, action: Action, now: real, id: string, live: nat, max: nat): Option<Note> {
    match action
    case Create(note) => if note.noteId == id && live < max then Some(note) else before
    case Update(other, updates, active) =>
      if other == id && before.Some? then Some(Revised(before.value, updates, active)) else before
    case Delete(other) => if other == id then None else before
    case Clear => None
    case Mark(ids) =>
      if before.Some? && id in ids && Due(before.value, None, now)
      then Some(before.value.(active := before.value.active + 1)) else before
    case WriteItem(_) => before
  }

  lemma RevisedIsUpdate(note: Note, updates: map<string, string>, active: Option<int>)
    ensures IsUpdate(note, Revised(note, updates, active), updates, active)
  {
  }

  lemma CallMakesNext(notes: map<string, NoteBook>, key: string, action: Action, now: real, id: string, max: nat)
    ensures NoteAt(StepNotesAtOnce(notes, key, action, now, max), key, id)
      == Next(NoteAt(notes, key, id), action, now, id, |LiveSet(At(notes, key), now)|, max)
  {
  }

  lemma OtherSessions(notes: map<string, NoteBook>, opKey: string, action: Action, now: real, max: nat, key: string)
    requires opKey != key
    ensures At(StepNotesAtOnce(notes, opKey, action, now, max), key) == At(notes, key)
  {
  }

  /** The note as a journal of its own: what the calls on its key have made of it, one by one. */
  ghost function Journal(ops: seq<Op>, max: nat, key: string, id: string): Option<Note> {
    if ops == [] then None
    else
      var before, op := Journal(ops[..|ops| - 1], max, key, id), ops[|ops| - 1];
      if HashKey(op.scopeId, op.sessionId) != key then before
      else Next(before, Addressed(op), op.now, id, |LiveSet(At(RunAtOnce(ops[..|ops| - 1], max).notes, key), op.now)|, max)
  }

  lemma {:induction false} AtOnceFollowsJournals(ops: seq<Op>, max: nat, key: string, id: string)
    ensures NoteAt(RunAtOnce(ops, max).notes, key, id) == Journal(ops, max, key, id)
  {
    if ops != [] {
      var m, op := RunAtOnce(ops[..|ops| - 1], max), ops[|ops| - 1];
      AtOnceFollowsJournals(ops[..|ops| - 1], max, key, id);
      if HashKey(op.scopeId, op.sessionId) == key {
        CallMakesNext(m.notes, key, Addressed(op), op.now, id, max);
      } else {
        OtherSessions(m.notes, HashKey(op.scopeId, op.sessionId), Addressed(op), op.now, max, key);
      }
    }
  }

  /** When no two sessions of a run share a key, every note reads as its journal says. */
  lemma NotesFollowJournals(ops: seq<Op>, sessions: set<Session>, max: nat, key: string, id: string)
    requires Among(ops, sessions) && NoSharedKeys(sessions)
    ensures NoteAt(Run(ops, max).notes, key, id) == Journal(ops, max, key, id)
  {
    RunIsAtOnce(ops, sessions, max);
    AtOnceFollowsJournals(ops, max, key, id);
  }
}
