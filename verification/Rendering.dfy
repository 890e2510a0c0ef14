/** The text handed out, put together from its parts: what one message shows as, and how two
    conversations follow each other. */
module Rendering {
  import opened PyCollections
  import opened ContextModels
  import opened Messages

  /** Stripping takes white space off both ends and nothing else. */
  lemma StripTakesSpaces(s: string) returns (left: string, right: string)
    ensures s == left + Strip(s) + right
    ensures forall c :: c in left || c in right ==> IsSpace(c)
  {
    left := LStripTakes(s);
    right := RStripTakes(LStrip(s));
  }

  /** Only white space strips to nothing. */
  lemma StripsToNothing(s: string)
    ensures Strip(s) == "" <==> forall c :: c in s ==> IsSpace(c)
  {
    var left, right := StripTakesSpaces(s);
    if Strip(s) == "" {
      assert s == left + right;
    } else {
      assert Strip(s)[0] in s;
    }
  }

  lemma {:induction false} LStripTakes(s: string) returns (left: string)
    ensures s == left + LStrip(s) && forall c :: c in left ==> IsSpace(c)
  {
    if s == "" || !IsSpace(s[0]) {
      left := "";
    } else {
      var rest := LStripTakes(s[1..]);
      left := [s[0]] + rest;
    }
  }

  lemma {:induction false} RStripTakes(s: string) returns (right: string)
    ensures s == RStrip(s) + right && forall c :: c in right ==> IsSpace(c)
  {
    if s == "" || !IsSpace(s[|s| - 1]) {
      right := "";
    } else {
      var rest := RStripTakes(s[..|s| - 1]);
      right := rest + [s[|s| - 1]];
    }
  }

  lemma {:induction false} JoinAppend(separator: string, a: seq<string>, b: seq<string>)
    requires a != [] && b != []
    ensures Join(separator, a + b) == Join(separator, a) + separator + Join(separator, b)
  {
    var front, last := b[..|b| - 1], b[|b| - 1];
    assert (a + b)[..|a + b| - 1] == a + front;
    if front == [] {
      assert a + front == a;
    } else {
      JoinAppend(separator, a, front);
    }
  }

  lemma JoinBoth(separator: string, a: seq<string>, b: seq<string>)
    ensures Join(separator, a + b) ==
      if a == [] then Join(separator, b) else if b == [] then Join(separator, a)
      else Join(separator, a) + separator + Join(separator, b)
  {
    if a == [] {
      assert a + b == b;
    } else if b == [] {
      assert a + b == a;
    } else {
      JoinAppend(separator, a, b);
    }
  }

  lemma {:induction false} PiecesAppend(a: seq<Message>, b: seq<Message>)
    ensures Pieces(a + b) == Pieces(a) + Pieces(b)
  {
    if b == [] {
      assert a + b == a;
    } else {
      assert (a + b)[..|a + b| - 1] == a + b[..|b| - 1];
      PiecesAppend(a, b[..|b| - 1]);
    }
  }

  predicate AllBlank(messages: seq<Message>) {
    forall m :: m in messages ==> Strip(m.content) == ""
  }

  lemma {:induction false} BlankGivesNoPiece(messages: seq<Message>)
    ensures Pieces(messages) == [] <==> AllBlank(messages)
  {
    if messages != [] {
      var front, last := messages[..|messages| - 1], messages[|messages| - 1];
      BlankGivesNoPiece(front);
      LastPiece(messages, front, last);
      assert AllBlank(messages) <==> AllBlank(front) && Strip(last.content) == "" by {
        assert messages == front + [last];
      }
    }
  }

  lemma LastPiece(messages: seq<Message>, front: seq<Message>, last: Message)
    requires messages == front + [last]
    ensures Pieces(messages) == [] <==> Pieces(front) == [] && Strip(last.content) == ""
  {
    assert messages[..|messages| - 1] == front;
  }

  /** Two conversations one after the other render to their texts in that order, a blank line
      between them unless one has nothing to show. */
  lemma RenderedInOrder(a: seq<Message>, b: seq<Message>)
    ensures Rendered(a + b) ==
      if AllBlank(a) then Rendered(b) else if AllBlank(b) then Rendered(a) else Rendered(a) + "\n\n" + Rendered(b)
  {
    PiecesAppend(a, b);
    BlankGivesNoPiece(a);
    BlankGivesNoPiece(b);
    JoinBoth("\n\n", Pieces(a), Pieces(b));
  }

  /** One message shows as its stripped content, after its stripped role in brackets if it has one. */
  lemma RenderedAlone(m: Message)
    ensures Rendered([m]) == if Strip(m.content) == "" then ""
      else if Strip(m.role) == "" then Strip(m.content) else "[" + Strip(m.role) + "] " + Strip(m.content)
  {
    assert [m][..0] == [];
    assert Pieces([m]) == if Piece(m).None? then [] else [Piece(m).value];
  }

  /** The raw join is the contents in order, blank lines between them. */
  lemma RawJoinInOrder(a: seq<ContextItem>, b: seq<ContextItem>, x: ContextItem)
    requires a != [] && b != []
    ensures RawJoin(a + b) == RawJoin(a) + "\n\n" + RawJoin(b) && RawJoin([x]) == x.content
  {
    ContentsAppend(a, b);
    JoinAppend("\n\n", Contents(a), Contents(b));
    assert [x][..0] == [];
    assert Contents([x]) == [x.content];
  }

  lemma {:induction false} ContentsAppend(a: seq<ContextItem>, b: seq<ContextItem>)
    ensures Contents(a + b) == Contents(a) + Contents(b) && (a != [] ==> Contents(a) != []) && (b != [] ==> Contents(b) != [])
  {
    if b == [] {
      assert a + b == a;
    } else {
      assert (a + b)[..|a + b| - 1] == a + b[..|b| - 1];
      ContentsAppend(a, b[..|b| - 1]);
    }
  }

  /** A message read from an item has the role its metadata gives, else its source type, else
      `user`; its content is the item's, less that very role's prefix if it is there. */
  lemma ReadMessage(item: ContextItem, m: Message)
    requires m == ToMessage(item)
    ensures item.role.Some? && Strip(item.role.value) != "" ==> m.role == Strip(item.role.value)
    ensures item.role.None? && Strip(item.sourceType) != "" ==> m.role == Strip(item.sourceType)
    ensures m.role == "user" || m.role == Strip(if item.role.Some? then item.role.value else item.sourceType) != ""
    ensures item.content == m.content || item.content == "[" + m.role + "] " + m.content
    ensures "[" + m.role + "] " <= item.content ==> item.content == "[" + m.role + "] " + m.content
  {
  }
}
