/** What an ingestion stores of each message, and which messages it sends on. */
module Ingestion {
  import opened PyCollections
  import opened ContextModels
  import opened Messages

  /** The messages whose signal says to keep them in long-term memory. */
  function Persistent(messages: seq<Message>, signals: seq<Signal>): seq<Message>
    requires |messages| == |signals|
  {
    if messages == [] then []
    else
      var n := |messages| - 1;
      Persistent(messages[..n], signals[..n]) + (if signals[n].persist then [messages[n]] else [])
  }

  lemma TidiedPush(messages: seq<Message>, m: Message)
    ensures Tidied(messages + [m]) == Tidied(messages) + (if Strip(m.content) == "" then [] else [Tidy(m)])
  {
    assert (messages + [m])[..|messages|] == messages;
  }

  /** Long-term memory is sent, in order and tidied like what is stored, the non-blank messages
      that are to persist and no others. */
  lemma {:induction false} LongTermGetsThePersistent(messages: seq<Message>, signals: seq<Signal>)
    requires |messages| == |signals|
    ensures ForLongTerm(messages, signals) == Tidied(Persistent(messages, signals))
  {
    if messages != [] {
      var n := |messages| - 1;
      var before := Persistent(messages[..n], signals[..n]);
      LongTermGetsThePersistent(messages[..n], signals[..n]);
      TidiedPush(before, messages[n]);
      assert before + [] == before;
    }
  }

  /** A fresh, detailed item of full score that nobody has used yet, with the message's role and
      content and what was decided about it. */
  predicate Carries(x: ContextItem, m: Message, signal: Signal) {
    && x.memoryType == Some(signal.memoryType) && x.category == Some(signal.category)
    && x.level == Detail && x.score == 1.0 && x.activeCount == 0
    && x.content == "[" + (if Strip(m.role) == "" then "user" else Strip(m.role)) + "] " + Strip(m.content)
  }

  lemma StoredCarries(m: Message, signal: Signal, itemId: string)
    ensures Carries(StoredItem(m, signal, itemId), m, signal)
  {
  }

  function OneMore(m: Message, signal: Signal, itemId: string): seq<ContextItem> {
    if Strip(m.content) == "" then [] else [StoredItem(m, signal, itemId)]
  }

  /** What one more message adds. */
  lemma IngestedPush(messages: seq<Message>, signals: seq<Signal>, ids: seq<string>, n: nat)
    requires |ids| == |messages| == |signals| == n + 1
    ensures Ingested(messages, signals, ids) == Ingested(messages[..n], signals[..n], ids[..n])
      + OneMore(messages[n], signals[n], ids[n])
  {
  }

  /** Each non-blank message is stored under its own id, as decided about it. */
  lemma {:induction false} IngestedCarries(messages: seq<Message>, signals: seq<Signal>, ids: seq<string>, i: nat) returns (x: ContextItem)
    requires |ids| == |messages| == |signals| && i < |messages| && Strip(messages[i].content) != ""
    ensures x in Ingested(messages, signals, ids) && x.itemId == ids[i] && Carries(x, messages[i], signals[i])
  {
    var n := |messages| - 1;
    var front := Ingested(messages[..n], signals[..n], ids[..n]);
    IngestedPush(messages, signals, ids, n);
    if i < n {
      x := IngestedCarries(messages[..n], signals[..n], ids[..n], i);
      InFront(front, OneMore(messages[n], signals[n], ids[n]), x);
    } else {
      x := StoredItem(messages[n], signals[n], ids[n]);
      StoredCarries(messages[n], signals[n], ids[n]);
    }
  }

  lemma InFront(a: seq<ContextItem>, b: seq<ContextItem>, x: ContextItem)
    requires x in a
    ensures x in a + b
  {
  }

  /** A memory type asked for wins over the classifier, brings its own category, and leaves it
      to the caller whether to persist. */
  lemma RequestedTypeWins(m: Message, memoryType: MemoryType, classify: Message -> Signal, persistLongTerm: bool)
    ensures var s := Decided(m, Some(memoryType), classify, persistLongTerm);
      && s.memoryType == memoryType && s.persist == persistLongTerm
      && (s.category == Preferences <==> memoryType == Procedural) && (s.category == Profile <==> memoryType == Semantic)
      && (s.category == Events <==> memoryType == Episodic || memoryType == Variable)
    ensures Decided(m, None, classify, persistLongTerm) == classify(Tidy(m))
  {
  }
}
