/** Context items as role-tagged messages: the `[role] ` wrapping, its recovery, storing
    through the orchestrator, and rendering. */
module Messages {
  import opened PyCollections
  import opened ContextModels

  datatype Message = Message(role: string, content: string)

  // ----- str.strip()

  predicate IsSpace(c: char) {
    var n := c as int;
    || 0x09 <= n <= 0x0d || 0x1c <= n <= 0x20 || n == 0x85 || n == 0xa0 || n == 0x1680
    || 0x2000 <= n <= 0x200a || n == 0x2028 || n == 0x2029 || n == 0x202f || n == 0x205f || n == 0x3000
  }

  function LStrip(s: string): (r: string)
    ensures |r| <= |s| && (r != "" ==> !IsSpace(r[0]))
  {
    if s == "" || !IsSpace(s[0]) then s else LStrip(s[1..])
  }

  function RStrip(s: string): (r: string)
    ensures r <= s && (r != "" ==> !IsSpace(r[|r| - 1]))
  {
    if s == "" || !IsSpace(s[|s| - 1]) then s else RStrip(s[..|s| - 1])
  }

  predicate Stripped(s: string) {
    s == "" || (!IsSpace(s[0]) && !IsSpace(s[|s| - 1]))
  }

  function Strip(s: string): (r: string)
    ensures Stripped(r) && |r| <= |s|
    ensures Stripped(s) ==> r == s
  {
    RStrip(LStrip(s))
  }

  // ----- from items to messages and on to text

  function Prefix(role: string): string {
    "[" + role + "] "
  }

  function RoleOf(item: ContextItem): string {
    var role := Strip(if item.role.Some? then item.role.value else item.sourceType);
    if role == "" then "user" else role
  }

  function ToMessage(item: ContextItem): Message {
    var prefix := Prefix(RoleOf(item));
    Message(RoleOf(item), if prefix <= item.content then item.content[|prefix|..] else item.content)
  }

  function ToMessages(items: seq<ContextItem>): (r: seq<Message>)
    ensures |r| == |items| && forall i :: 0 <= i < |items| ==> r[i] == ToMessage(items[i])
  {
    seq(|items|, i requires 0 <= i < |items| => ToMessage(items[i]))
  }

  method SnapshotToMessages(items: seq<ContextItem>) returns (messages: seq<Message>)
    ensures messages == ToMessages(items)
  {
    messages := [];
    for i := 0 to |items|
      invariant |messages| == i && forall j :: 0 <= j < i ==> messages[j] == ToMessage(items[j])
    {
      var item := items[i];
      var role := Strip(if item.role.Some? then item.role.value else item.sourceType);
      if role == "" {
        role := "user";
      }
      var content := item.content;
      if Prefix(role) <= content {
        content := content[|Prefix(role)|..];
      }
      messages := messages + [Message(role, content)];
    }
  }

  function Chars(messages: seq<Message>): nat {
    if messages == [] then 0 else Chars(messages[..|messages| - 1]) + |messages[|messages| - 1].content|
  }

  function EstimateMessageTokens(messages: seq<Message>): nat {
    Chars(messages) / 4
  }

  /** How a message shows in the rendered text; a blank one does not. */
  function Piece(m: Message): Option<string> {
    var content, role := Strip(m.content), Strip(m.role);
    if content == "" then None else Some(if role != "" then Prefix(role) + content else content)
  }

  function Pieces(messages: seq<Message>): seq<string> {
    if messages == [] then []
    else
      var front, last := Pieces(messages[..|messages| - 1]), Piece(messages[|messages| - 1]);
      if last.None? then front else front + [last.value]
  }

  function Join(separator: string, parts: seq<string>): string {
    if parts == [] then ""
    else if |parts| == 1 then parts[0]
    else Join(separator, parts[..|parts| - 1]) + separator + parts[|parts| - 1]
  }

  const BLANK_LINE := "\n\n"

  function Rendered(messages: seq<Message>): string {
    Join(BLANK_LINE, Pieces(messages))
  }

  method RenderMessages(messages: seq<Message>) returns (text: string)
    ensures text == Rendered(messages)
  {
    var rendered := [];
    for i := 0 to |messages|
      invariant rendered == Pieces(messages[..i])
    {
      assert messages[..i + 1][..i] == messages[..i];
      var content := Strip(messages[i].content);
      if content != "" {
        var role := Strip(messages[i].role);
        rendered := rendered + [if role != "" then Prefix(role) + content else content];
      }
    }
    assert messages[..|messages|] == messages;
    text := Join(BLANK_LINE, rendered);
  }

  function Contents(items: seq<ContextItem>): seq<string> {
    if items == [] then [] else Contents(items[..|items| - 1]) + [items[|items| - 1].content]
  }

  /** The uncompressed concatenation. */
  function RawJoin(items: seq<ContextItem>): string {
    Join(BLANK_LINE, Contents(items))
  }

  // ----- OpenClaw: wrap, then split on the first "] "

  /** What follows the first `] ` of the text, if there is one. */
  function AfterBreak(s: string): Option<string> {
    if |s| < 2 then None
    else if s[0] == ']' && s[1] == ' ' then Some(s[2..])
    else AfterBreak(s[1..])
  }

  /** `text.split("] ", 1)[-1]` */
  function Recovered(text: string): string {
    if AfterBreak(text).Some? then AfterBreak(text).value else text
  }

  lemma {:induction false} BreakOf(role: string, content: string)
    ensures AfterBreak(role + "] " + content)
      == Some(if AfterBreak(role).None? then content else AfterBreak(role).value + "] " + content)
  {
    var s := role + "] " + content;
    if role == "" {
      assert s == "] " + content;
      assert s[2..] == content;
    } else {
      assert s[1..] == role[1..] + "] " + content;
      BreakOf(role[1..], content);
      if |role| >= 2 && role[0] == ']' && role[1] == ' ' {
        assert s[2..] == role[2..] + "] " + content;
      }
    }
  }

  /** Wrapping a message and splitting it again gives back its content, whatever that
      content holds, exactly when the role itself holds no `] `. */
  lemma WrapThenSplit(role: string, content: string)
    ensures Recovered(Prefix(role) + content) == content <==> AfterBreak(role).None?
  {
    var s := Prefix(role) + content;
    assert s == "[" + (role + "] " + content);
    assert s[1..] == role + "] " + content;
    BreakOf(role, content);
    assert AfterBreak(s) == AfterBreak(s[1..]);
    if AfterBreak(role).Some? {
      assert |Recovered(s)| > |content|;
    }
  }

  /** The three roles OpenClaw knows are such roles. */
  lemma OpenClawRolesAreSafe(role: string)
    requires role == "user" || role == "assistant" || role == "system"
    ensures AfterBreak(role).None?
  {
    assert forall i :: 0 <= i < |role| ==> role[i] != ']';
    NoBracketNoBreak(role);
  }

  lemma {:induction false} NoBracketNoBreak(s: string)
    requires forall i :: 0 <= i < |s| ==> s[i] != ']'
    ensures AfterBreak(s).None?
  {
    if s != "" {
      NoBracketNoBreak(s[1..]);
    }
  }

  // ----- storing through the orchestrator

  /** What is decided about a message before it is stored. */
  datatype Signal = Signal(persist: bool, memoryType: MemoryType, category: MemoryCategory)

  function DefaultCategory(memoryType: MemoryType): MemoryCategory {
    match memoryType
    case Procedural => Preferences
    case Semantic => Profile
    case Episodic => Events
    case Variable => Events
  }

  function StoredRole(m: Message): string {
    if Strip(m.role) == "" then "user" else Strip(m.role)
  }

  function Tidy(m: Message): Message {
    Message(StoredRole(m), Strip(m.content))
  }

  /** A valid memory type asked for in the message's metadata wins over the classifier. */
  function Decided(m: Message, requested: Option<MemoryType>, classify: Message -> Signal, persistLongTerm: bool): Signal {
    if requested.Some? then Signal(persistLongTerm, requested.value, DefaultCategory(requested.value)) else classify(Tidy(m))
  }

  function AllDecided(messages: seq<Message>, requested: seq<Option<MemoryType>>, classify: Message -> Signal,
                      persistLongTerm: bool): (r: seq<Signal>)
    requires |requested| == |messages|
    ensures |r| == |messages|
    ensures forall i :: 0 <= i < |messages| ==> r[i] == Decided(messages[i], requested[i], classify, persistLongTerm)
  {
    seq(|messages|, i requires 0 <= i < |messages| => Decided(messages[i], requested[i], classify, persistLongTerm))
  }

  function StoredItem(m: Message, signal: Signal, itemId: string): ContextItem {
    ContextItem(itemId, StoredRole(m), Some(signal.memoryType), Some(signal.category), Detail, 1.0, 0,
      Prefix(StoredRole(m)) + Strip(m.content), Some(StoredRole(m)))
  }

  function Ingested(messages: seq<Message>, signals: seq<Signal>, ids: seq<string>): seq<ContextItem>
    requires |ids| == |messages| == |signals|
  {
    if messages == [] then []
    else
      var n := |messages| - 1;
      var front := Ingested(messages[..n], signals[..n], ids[..n]);
      if Strip(messages[n].content) == "" then front else front + [StoredItem(messages[n], signals[n], ids[n])]
  }

  function ForLongTerm(messages: seq<Message>, signals: seq<Signal>): seq<Message>
    requires |messages| == |signals|
  {
    if messages == [] then []
    else
      var n := |messages| - 1;
      var front := ForLongTerm(messages[..n], signals[..n]);
      if Strip(messages[n].content) != "" && signals[n].persist then front + [Tidy(messages[n])] else front
  }

  /** What the call wrote to working memory, the one task it asked the queue to take, and the
      count it returned, if it did. */
  datatype Ingestion = Ingestion(items: seq<ContextItem>, task: seq<Message>, stored: Option<nat>)

  /** `ids` are the generated item ids, `requested` the memory types asked for in the messages'
      metadata. The items are written in order; then the messages for long-term memory go out
      as one task, and a full queue raises with the items already stored. */
  method IngestMessages(messages: seq<Message>, requested: seq<Option<MemoryType>>, classify: Message -> Signal,
                        ids: seq<string>, persistLongTerm: bool, hasQueue: bool, queueFull: bool)
    returns (r: Ingestion)
    requires |ids| == |messages| == |requested|
    ensures var signals := AllDecided(messages, requested, classify, persistLongTerm);
      && r.items == Ingested(messages, signals, ids)
      && r.task == (if persistLongTerm && hasQueue then ForLongTerm(messages, signals) else [])
      && r.stored == if r.task != [] && queueFull then None else Some(|r.items|)
  {
    var stored, items, ltmMessages := 0, [], [];
    ghost var signals := AllDecided(messages, requested, classify, persistLongTerm);
    for i := 0 to |messages|
      invariant items == Ingested(messages[..i], signals[..i], ids[..i]) && stored == |items|
      invariant ltmMessages == if persistLongTerm then ForLongTerm(messages[..i], signals[..i]) else []
    {
      assert messages[..i + 1][..i] == messages[..i] && ids[..i + 1][..i] == ids[..i] && signals[..i + 1][..i] == signals[..i];
      var content := Strip(messages[i].content);
      var role := Strip(messages[i].role);
      if role == "" {
        role := "user";
      }
      if content != "" {
        var signal := classify(Message(role, content));
        if requested[i].Some? {
          signal := Signal(persistLongTerm, requested[i].value, DefaultCategory(requested[i].value));
        }
        items := items + [ContextItem(ids[i], role, Some(signal.memoryType), Some(signal.category), Detail, 1.0, 0,
          Prefix(role) + content, Some(role))];
        stored := stored + 1;
        if persistLongTerm && signal.persist {
          ltmMessages := ltmMessages + [Message(role, content)];
        }
      }
    }
    assert messages[..|messages|] == messages && ids[..|ids|] == ids && signals[..|messages|] == signals;
    if ltmMessages != [] && hasQueue {
      return Ingestion(items, ltmMessages, if queueFull then None else Some(stored));
    }
    return Ingestion(items, [], Some(stored));
  }

  /** An item as the orchestrator stores them: a tidy role, and that role's prefix before a
      tidy, non-blank content. */
  ghost predicate AsStored(item: ContextItem) {
    exists role, content :: StoredAs(item, role, content)
  }

  predicate StoredAs(item: ContextItem, role: string, content: string) {
    && role != "" && content != "" && Stripped(role) && Stripped(content)
    && item.role == Some(role) && item.content == Prefix(role) + content
  }

  lemma {:induction false} IngestedAreStored(messages: seq<Message>, signals: seq<Signal>, ids: seq<string>)
    requires |ids| == |messages| == |signals|
    ensures forall item :: item in Ingested(messages, signals, ids) ==> AsStored(item)
  {
    if messages != [] {
      var n := |messages| - 1;
      IngestedAreStored(messages[..n], signals[..n], ids[..n]);
      var m := messages[n];
      if Strip(m.content) != "" {
        assert StoredAs(StoredItem(m, signals[n], ids[n]), StoredRole(m), Strip(m.content));
      }
    }
  }

  /** Reading a stored item back recovers its role and content, even when the content begins
      with the very same prefix, and rendering it restores the stored text. */
  lemma StoredItemRoundTrip(item: ContextItem, role: string, content: string)
    requires StoredAs(item, role, content)
    ensures ToMessage(item) == Message(role, content)
    ensures Piece(ToMessage(item)) == Some(item.content)
  {
    assert item.content[|Prefix(role)|..] == content;
  }

  lemma StoredItemPiece(item: ContextItem)
    requires AsStored(item)
    ensures Piece(ToMessage(item)) == Some(item.content)
  {
    var role, content :| StoredAs(item, role, content);
    StoredItemRoundTrip(item, role, content);
  }

  lemma {:induction false} StoredItemsRender(items: seq<ContextItem>)
    requires forall item :: item in items ==> AsStored(item)
    ensures Pieces(ToMessages(items)) == Contents(items)
  {
    if items != [] {
      var n := |items| - 1;
      assert ToMessages(items)[..n] == ToMessages(items[..n]);
      StoredItemsRender(items[..n]);
      StoredItemPiece(items[n]);
    }
  }

  /** Whatever was ingested renders to exactly the stored texts, joined by blank lines. */
  lemma IngestThenRender(messages: seq<Message>, signals: seq<Signal>, ids: seq<string>)
    requires |ids| == |messages| == |signals|
    ensures var items := Ingested(messages, signals, ids); Rendered(ToMessages(items)) == RawJoin(items)
  {
    IngestedAreStored(messages, signals, ids);
    StoredItemsRender(Ingested(messages, signals, ids));
  }

  /** The non-blank messages with their roles and contents tidied. */
  function Tidied(messages: seq<Message>): seq<Message> {
    if messages == [] then []
    else
      var front, m := Tidied(messages[..|messages| - 1]), messages[|messages| - 1];
      if Strip(m.content) == "" then front else front + [Tidy(m)]
  }

  /** Storing messages and reading them back gives the non-blank ones, tidied, in order. */
  lemma {:induction false} IngestThenRead(messages: seq<Message>, signals: seq<Signal>, ids: seq<string>)
    requires |ids| == |messages| == |signals|
    ensures ToMessages(Ingested(messages, signals, ids)) == Tidied(messages)
  {
    if messages != [] {
      var n := |messages| - 1;
      var m := messages[n];
      IngestThenRead(messages[..n], signals[..n], ids[..n]);
      if Strip(m.content) != "" {
        var item := StoredItem(m, signals[n], ids[n]);
        StoredItemRoundTrip(item, StoredRole(m), Strip(m.content));
        assert Ingested(messages, signals, ids) == Ingested(messages[..n], signals[..n], ids[..n]) + [item];
      }
    }
  }
}
