/** The OpenClaw endpoints: conversations going into working memory and coming back, the
    token fallback, and what a compaction request runs. */
module OpenClaw {
  import opened PyCollections
  import opened ContextModels
  import opened Messages
  import opened Rendering
  import opened Truncation
  import opened Compression

  predicate Blank(m: Message) {
    Strip(m.content) == ""
  }

  function NonBlank(messages: seq<Message>): seq<Message> {
    Filter(messages, m => !Blank(m))
  }

  /** A message is left out exactly when its content is nothing but white space. */
  lemma NonBlankAre(messages: seq<Message>, m: Message)
    ensures m in NonBlank(messages) <==> m in messages && exists c :: c in m.content && !IsSpace(c)
  {
    StripsToNothing(m.content);
  }

  // ----- conversations in and out

  function Wrapped(m: Message, itemId: string): ContextItem {
    ContextItem(itemId, m.role, Some(Variable), None, Detail, 1.0, 0, Prefix(m.role) + m.content, Some(m.role))
  }

  function WrappedAll(messages: seq<Message>, ids: seq<string>): seq<ContextItem>
    requires |ids| == |messages|
  {
    if messages == [] then []
    else
      var n := |messages| - 1;
      var front := WrappedAll(messages[..n], ids[..n]);
      if Blank(messages[n]) then front else front + [Wrapped(messages[n], ids[n])]
  }

  method MessagesToItems(messages: seq<Message>, ids: seq<string>) returns (items: seq<ContextItem>)
    requires |ids| == |messages|
    ensures items == WrappedAll(messages, ids)
  {
    items := [];
    for i := 0 to |messages|
      invariant items == WrappedAll(messages[..i], ids[..i])
    {
      assert messages[..i + 1][..i] == messages[..i] && ids[..i + 1][..i] == ids[..i];
      var msg := messages[i];
      if Strip(msg.content) == "" {
        continue;
      }
      items := items + [ContextItem(ids[i], msg.role, Some(Variable), None, Detail, 1.0, 0,
        "[" + msg.role + "] " + msg.content, Some(msg.role))];
    }
    assert messages[..|messages|] == messages && ids[..|ids|] == ids;
  }

  /** The message an item is handed to the orchestrator as. */
  function Relay(item: ContextItem): Message {
    Message(if item.role.Some? then item.role.value else item.sourceType, Recovered(item.content))
  }

  function Relayed(items: seq<ContextItem>): (r: seq<Message>)
    ensures |r| == |items| && forall i :: 0 <= i < |items| ==> r[i] == Relay(items[i])
  {
    seq(|items|, i requires 0 <= i < |items| => Relay(items[i]))
  }

  /** The roles the schema admits. */
  predicate KnownRoles(messages: seq<Message>) {
    forall m :: m in messages ==> m.role == "user" || m.role == "assistant" || m.role == "system"
  }

  lemma {:induction false} WrappedCount(messages: seq<Message>, ids: seq<string>)
    requires |ids| == |messages|
    ensures |WrappedAll(messages, ids)| == |NonBlank(messages)|
    ensures forall i :: 0 <= i < |NonBlank(messages)| ==>
      WrappedAll(messages, ids)[i] == Wrapped(NonBlank(messages)[i], WrappedAll(messages, ids)[i].itemId)
  {
    if messages != [] {
      WrappedCount(messages[..|messages| - 1], ids[..|messages| - 1]);
    }
  }

  /** A wrapped item is one of the given ids, VARIABLE, detailed, of full score and unused. */
  lemma {:induction false} WrappedAreFresh(messages: seq<Message>, ids: seq<string>, x: ContextItem)
    requires |ids| == |messages| && x in WrappedAll(messages, ids)
    ensures exists i :: 0 <= i < |messages| && x.itemId == ids[i] && x.role == Some(messages[i].role)
    ensures x.memoryType == Some(Variable) && x.level == Detail && x.score == 1.0 && x.activeCount == 0
  {
    var n := |messages| - 1;
    if x in WrappedAll(messages[..n], ids[..n]) {
      WrappedAreFresh(messages[..n], ids[..n], x);
      var i :| 0 <= i < n && x.itemId == ids[..n][i] && x.role == Some(messages[..n][i].role);
      assert x.itemId == ids[i];
    } else {
      assert x == Wrapped(messages[n], ids[n]);
    }
  }

  /** The relay hands every non-blank message on unchanged, whatever the contents hold,
      exactly when no role of theirs holds a `] `. */
  lemma RelayIsExactIff(messages: seq<Message>, ids: seq<string>)
    requires |ids| == |messages|
    ensures Relayed(WrappedAll(messages, ids)) == NonBlank(messages)
      <==> forall m :: m in NonBlank(messages) ==> AfterBreak(m.role).None?
  {
    var kept, items := NonBlank(messages), WrappedAll(messages, ids);
    WrappedCount(messages, ids);
    forall i | 0 <= i < |kept|
      ensures Relayed(items)[i] == kept[i] <==> AfterBreak(kept[i].role).None?
    {
      WrapThenSplit(kept[i].role, kept[i].content);
    }
    if Relayed(items) == kept {
      forall m | m in kept ensures AfterBreak(m.role).None? {
        var i :| 0 <= i < |kept| && kept[i] == m;
      }
    }
  }

  lemma {:induction false} TidyOfNonBlank(messages: seq<Message>)
    ensures Tidied(NonBlank(messages)) == Tidied(messages)
  {
    if messages != [] {
      var front, last := messages[..|messages| - 1], messages[|messages| - 1];
      TidyOfNonBlank(front);
      assert (NonBlank(front) + [last])[..|NonBlank(front)|] == NonBlank(front);
    }
  }

  /** A conversation sent through wrapping, splitting, storing and reading is the tidied
      conversation: nothing but blank messages and outer white space is lost. */
  lemma ConversationSurvivesIngest(messages: seq<Message>, ids: seq<string>, signals: seq<Signal>, storedIds: seq<string>)
    requires |ids| == |messages| && KnownRoles(messages)
    requires |storedIds| == |WrappedAll(messages, ids)| == |signals|
    ensures ToMessages(Ingested(Relayed(WrappedAll(messages, ids)), signals, storedIds)) == Tidied(messages)
  {
    forall m | m in NonBlank(messages) ensures AfterBreak(m.role).None? {
      OpenClawRolesAreSafe(m.role);
    }
    RelayIsExactIff(messages, ids);
    IngestThenRead(NonBlank(messages), signals, storedIds);
    TidyOfNonBlank(messages);
  }

  lemma WrappedReadsBack(m: Message, itemId: string)
    requires m.role != "" && Stripped(m.role)
    ensures ToMessage(Wrapped(m, itemId)) == m
  {
    assert (Prefix(m.role) + m.content)[|Prefix(m.role)|..] == m.content;
  }

  /** Reading the wrapped items directly, without the orchestrator, keeps even the white space. */
  lemma WrappedItemsReadBack(messages: seq<Message>, ids: seq<string>)
    requires |ids| == |messages| && KnownRoles(messages)
    ensures ToMessages(WrappedAll(messages, ids)) == NonBlank(messages)
  {
    WrappedCount(messages, ids);
    var items, kept := WrappedAll(messages, ids), NonBlank(messages);
    forall i | 0 <= i < |kept| ensures ToMessage(items[i]) == kept[i] {
      assert kept[i] in kept;
      WrappedReadsBack(kept[i], items[i].itemId);
    }
  }

  // ----- the token fallback

  function Cost(m: Message): nat {
    |m.content| / 4 + 4
  }

  function Costs(messages: seq<Message>): nat {
    if messages == [] then 0 else Costs(messages[..|messages| - 1]) + Cost(messages[|messages| - 1])
  }

  function Tokens(messages: seq<Message>): nat {
    if messages == [] then 0 else Tokens(messages[..|messages| - 1]) + |messages[|messages| - 1].content| / 4
  }

  /** The longest run of latest messages that the limit pays for. */
  function Affordable(messages: seq<Message>, limit: int): (r: seq<Message>)
    ensures |r| <= |messages|
  {
    if messages == [] then []
    else
      var last := messages[|messages| - 1];
      if limit - Cost(last) < 0 then [] else Affordable(messages[..|messages| - 1], limit - Cost(last)) + [last]
  }

  method TruncateToBudget(messages: seq<Message>, tokenLimit: int) returns (result: seq<Message>)
    ensures result == Affordable(messages, tokenLimit)
  {
    result := [];
    var budget := tokenLimit;
    ghost var goal := Affordable(messages, tokenLimit);
    assert messages[..|messages|] == messages;
    for i := |messages| downto 0
      invariant goal == Affordable(messages[..i], budget) + result
    {
      assert messages[..i + 1][..i] == messages[..i];
      var est := |messages[i].content| / 4 + 4;
      if budget - est < 0 {
        break;
      }
      result := [messages[i]] + result;
      budget := budget - est;
    }
  }

  lemma CostsOneMore(messages: seq<Message>, m: Message)
    ensures Costs(messages + [m]) == Costs(messages) + Cost(m)
  {
    assert (messages + [m])[..|messages|] == messages;
  }

  lemma {:induction false} AffordableIsSuffix(messages: seq<Message>, limit: int)
    ensures Affordable(messages, limit) == messages[|messages| - |Affordable(messages, limit)|..]
  {
    if messages != [] && Cost(messages[|messages| - 1]) <= limit {
      var front, last := messages[..|messages| - 1], messages[|messages| - 1];
      AffordableIsSuffix(front, limit - Cost(last));
      SuffixGrows(messages, |Affordable(front, limit - Cost(last))|);
    }
  }

  lemma {:induction false} AffordableFits(messages: seq<Message>, limit: int)
    ensures Affordable(messages, limit) != [] ==> Costs(Affordable(messages, limit)) <= limit
  {
    if messages != [] && Cost(messages[|messages| - 1]) <= limit {
      var front, last := messages[..|messages| - 1], messages[|messages| - 1];
      AffordableFits(front, limit - Cost(last));
      CostsOneMore(Affordable(front, limit - Cost(last)), last);
    }
  }

  lemma {:induction false} CostsOverTokens(messages: seq<Message>)
    ensures Costs(messages) == Tokens(messages) + 4 * |messages|
  {
    if messages != [] {
      CostsOverTokens(messages[..|messages| - 1]);
    }
  }

  lemma {:induction false} LongerIsTooDear(messages: seq<Message>, limit: int, j: nat)
    requires j < |messages| - |Affordable(messages, limit)|
    ensures Costs(messages[j..]) > limit
  {
    var front, last := messages[..|messages| - 1], messages[|messages| - 1];
    assert messages[j..][..|messages| - 1 - j] == front[j..];
    if Cost(last) <= limit {
      LongerIsTooDear(front, limit - Cost(last), j);
    }
  }

  /** The fallback keeps the longest suffix whose cost the limit covers, so its estimate
      stays four tokens per message below the limit. */
  lemma FallbackKeepsLongestAffordable(messages: seq<Message>, limit: int)
    ensures var kept := Affordable(messages, limit); var start := |messages| - |kept|;
      && kept == messages[start..]
      && (kept != [] ==> Tokens(kept) + 4 * |kept| <= limit)
      && forall j :: 0 <= j < start ==> Costs(messages[j..]) > limit
  {
    AffordableIsSuffix(messages, limit);
    AffordableFits(messages, limit);
    CostsOverTokens(Affordable(messages, limit));
    forall j | 0 <= j < |messages| - |Affordable(messages, limit)| ensures Costs(messages[j..]) > limit {
      LongerIsTooDear(messages, limit, j);
    }
  }

  // ----- compaction

  /** How the router is reached: not set up, raising, or working. */
  datatype Router = Missing | Raising | Working(setup: Setup)

  function Conversation(scopeId: string, sessionId: string, messages: seq<Message>, ids: seq<string>, tokenLimit: int): ContextSnapshot
    requires |ids| == |messages|
  {
    ContextSnapshot(scopeId, sessionId, WrappedAll(messages, ids), Tokens(messages), tokenLimit)
  }

  function CompactionContext(messages: seq<Message>, tokenLimit: int): SelectionContext {
    SelectionContext("compaction", Tokens(messages), tokenLimit, 0)
  }

  function CompactionSchedule(messages: seq<Message>, tokenLimit: int): seq<string> {
    if Utilisation(CompactionContext(messages, tokenLimit)) > 0.95 then ["realtime", "compaction"] else ["compaction"]
  }

  lemma OnlySchedule(ids: seq<string>, both: bool)
    requires Distinct(ids) && ids != [] && ids[|ids| - 1] == "compaction"
    requires forall id :: id in ids ==> id == "realtime" || id == "compaction"
    requires "realtime" in ids <==> both
    ensures ids == if both then ["realtime", "compaction"] else ["compaction"]
  {
    assert "realtime" != "compaction" by { assert "realtime"[0] != "compaction"[0]; }
    if |ids| >= 2 {
      assert ids[0] in ids && ids[0] != ids[|ids| - 1];
      assert ids[|ids| - 2] in ids && ids[|ids| - 2] != ids[|ids| - 1];
    }
  }

  method CountTokens(messages: seq<Message>) returns (n: nat)
    ensures n == Tokens(messages)
  {
    n := 0;
    for i := 0 to |messages|
      invariant n == Tokens(messages[..i])
    {
      assert messages[..i + 1][..i] == messages[..i];
      n := n + |messages[i].content| / 4;
    }
    assert messages[..|messages|] == messages;
  }

  method Compact(router: Router, scopeId: string, sessionId: string, messages: seq<Message>, ids: seq<string>,
                 tokenLimit: int, ratio: real)
    returns (compacted: seq<Message>, before: nat, after: nat, degraded: bool)
    requires |ids| == |messages| && tokenLimit > 0
    ensures before == Tokens(messages) && after == Tokens(compacted)
    ensures !router.Working? ==> degraded && compacted == Affordable(messages, tokenLimit)
    ensures router.Working? ==>
      var output := Routed(router.setup, Conversation(scopeId, sessionId, messages, ids, tokenLimit),
                           CompactionSchedule(messages, tokenLimit));
      compacted == [Message("assistant", output.content)] && degraded == output.degraded
  {
    before := CountTokens(messages);
    if router.Working? {
      var items := MessagesToItems(messages, ids);
      var snapshot := ContextSnapshot(scopeId, sessionId, items, before, tokenLimit);
      var ctx := SelectionContext("compaction", before, tokenLimit, 0);
      var schedule := Schedule(ctx, router.setup.registry.Keys, ratio);
      assert MainChoice(ctx, ratio) == Some("compaction");
      OnlySchedule(schedule, Utilisation(ctx) > 0.95);
      var output := ApplySchedule(router.setup, snapshot, schedule);
      compacted, degraded := [Message("assistant", output.content)], output.degraded;
    } else {
      compacted := TruncateToBudget(messages, tokenLimit);
      degraded := true;
    }
    after := CountTokens(compacted);
  }

  /** The built-in strategies under their own names. */
  predicate Defaults(setup: Setup) {
    && "realtime" in setup.registry && setup.registry["realtime"] == BuiltIn(Realtime)
    && "compaction" in setup.registry && setup.registry["compaction"] == BuiltIn(Compaction)
  }

  lemma WhoCompacts(setup: Setup, messages: seq<Message>, tokenLimit: int)
    requires Defaults(setup)
    ensures Chosen(setup, CompactionSchedule(messages, tokenLimit))
      == Some(if Utilisation(CompactionContext(messages, tokenLimit)) > 0.95 then Realtime else Compaction)
  {
  }

  lemma OverLimitIsOverThreshold(used: int, limit: int)
    requires used > limit > 0
    ensures used as real / limit as real > 0.95
  {
    var u, l := used as real, limit as real;
    var q := u / l;
    assert q * l == u;
    assert (q - 1.0) * l > 0.0;
  }

  /** A conversation over its limit never reaches the compaction strategy it asks for: the
      realtime strategy, put in front above 95% utilisation, answers and cuts it down. */
  lemma OverflowGoesToRealtime(setup: Setup, scopeId: string, sessionId: string,
                               messages: seq<Message>, ids: seq<string>, tokenLimit: int)
    requires |ids| == |messages| && KnownRoles(messages) && Defaults(setup) && Tokens(messages) > tokenLimit > 0
    requires setup.help(Realtime) == NoHelp && NonBlank(messages) != []
    ensures Routed(setup, Conversation(scopeId, sessionId, messages, ids, tokenLimit), CompactionSchedule(messages, tokenLimit))
      == Built(Compressed, Recent(NonBlank(messages), tokenLimit, setup.keepLastN), true)
  {
    WhoCompacts(setup, messages, tokenLimit);
    OverLimitIsOverThreshold(Tokens(messages), tokenLimit);
    RealtimeOnOverflow(Conversation(scopeId, sessionId, messages, ids, tokenLimit), messages, ids, setup.keepLastN);
  }

  lemma RealtimeOnOverflow(snapshot: ContextSnapshot, messages: seq<Message>, ids: seq<string>, keepLastN: int)
    requires |ids| == |messages| && KnownRoles(messages) && NonBlank(messages) != []
    requires snapshot.items == WrappedAll(messages, ids) && snapshot.totalTokens > snapshot.tokenBudget > 0
    ensures Kept(Realtime, snapshot, keepLastN, NoHelp) == Recent(NonBlank(messages), snapshot.tokenBudget, keepLastN)
    ensures FellBack(Realtime, snapshot, keepLastN, NoHelp)
  {
    WrappedItemsReadBack(messages, ids);
  }

  /** A conversation that counts some tokens, but no more than its limit, comes back whole,
      whatever helpers there are. */
  lemma WithinLimitIsLossless(setup: Setup, scopeId: string, sessionId: string,
                              messages: seq<Message>, ids: seq<string>, tokenLimit: int)
    requires |ids| == |messages| && KnownRoles(messages) && Defaults(setup) && 0 < Tokens(messages) <= tokenLimit
    ensures var output := Routed(setup, Conversation(scopeId, sessionId, messages, ids, tokenLimit),
                                 CompactionSchedule(messages, tokenLimit));
      output.content == Rendered(NonBlank(messages)) && !output.degraded
  {
    WhoCompacts(setup, messages, tokenLimit);
    WrappedItemsReadBack(messages, ids);
  }

  // ----- exactly when /compact keeps every message

  /** The realtime truncation keeps everything exactly when there is nothing but system
      messages, or the characters fit and no more than the last N are asked for. */
  lemma RecentKeepsAllIff(messages: seq<Message>, budget: int, keepLastN: int)
    ensures |Recent(messages, budget, keepLastN)| == |messages| <==>
      (Others(messages) == [] || (Chars(messages) <= 4 * budget && From(Others(messages), -keepLastN) == Others(messages)))
  {
    SplitSizes(messages);
    var used, others, cap := Chars(System(messages)), Others(messages), budget * 4;
    var recent := From(others, -keepLastN);
    assert |recent| == |others| ==> recent == others;
    if |StopKeep(recent, used, cap)| == |others| && others != [] {
      StopKeepsAllOnlyIfItFits(others, used, cap);
    }
    if Chars(messages) <= 4 * budget && recent == others {
      AllThatFitsStays(others, used, cap);
    }
  }

  /** A conversation that counts no tokens goes to the compaction strategy. */
  lemma NoTokensGoToCompaction(messages: seq<Message>, tokenLimit: int)
    requires tokenLimit > 0 && Tokens(messages) == 0
    ensures Utilisation(CompactionContext(messages, tokenLimit)) <= 0.95
  {
    assert 0 as real / tokenLimit as real == 0.0;
  }

  /** What `/compact` asks of the conversation to come back whole, `kept` being its messages
      that are not blank and `tokens` what it counts for all of them. */
  predicate ComesBackWhole(kept: seq<Message>, tokens: nat, limit: int, keepLastN: int) {
    || Others(kept) == []
    || (if 0 < tokens <= limit then true
        else if tokens == 0 then Chars(kept) / 4 <= limit
        else Chars(kept) <= 4 * limit && From(Others(kept), -keepLastN) == Others(kept))
  }

  lemma KeepsAllIff(kind: Kind, snapshot: ContextSnapshot, kept: seq<Message>, keepLastN: int)
    requires ToMessages(snapshot.items) == kept && 0 <= snapshot.totalTokens && 0 < snapshot.tokenBudget
    requires snapshot.totalTokens == 0 ==> kind == Compaction
    requires snapshot.totalTokens > snapshot.tokenBudget ==> kind == Realtime
    ensures |Kept(kind, snapshot, keepLastN, NoHelp)| == |kept|
      <==> ComesBackWhole(kept, snapshot.totalTokens, snapshot.tokenBudget, keepLastN)
  {
    if snapshot.totalTokens == 0 {
      if Chars(kept) / 4 > snapshot.tokenBudget {
        OverBudgetDropsUnlessAllSystem(kind, kept, snapshot.tokenBudget, keepLastN);
      }
    } else if snapshot.totalTokens > snapshot.tokenBudget {
      RecentKeepsAllIff(kept, snapshot.tokenBudget, keepLastN);
    }
  }

  /** The strategy answering a compaction request, with no helper, keeps every message if and
      only if the conversation counts some tokens within its limit; or counts none, each text
      being short, and its characters fit; or counts too many, blank ones among them, and its
      characters fit after all and the last N reach back to its start; or holds nothing but
      system messages. */
  lemma CompactionKeepsAllIff(setup: Setup, scopeId: string, sessionId: string, messages: seq<Message>, ids: seq<string>,
                              tokenLimit: int)
    requires |ids| == |messages| && KnownRoles(messages) && tokenLimit > 0 && Defaults(setup)
    ensures var snapshot, chosen := Conversation(scopeId, sessionId, messages, ids, tokenLimit),
                                    Chosen(setup, CompactionSchedule(messages, tokenLimit));
      && chosen.Some?
      && (|Kept(chosen.value, snapshot, setup.keepLastN, NoHelp)| == |NonBlank(messages)|
          <==> ComesBackWhole(NonBlank(messages), Tokens(messages), tokenLimit, setup.keepLastN))
  {
    WhoCompacts(setup, messages, tokenLimit);
    WrappedItemsReadBack(messages, ids);
    if Tokens(messages) == 0 {
      NoTokensGoToCompaction(messages, tokenLimit);
    } else if Tokens(messages) > tokenLimit {
      OverLimitIsOverThreshold(Tokens(messages), tokenLimit);
    }
    KeepsAllIff(Chosen(setup, CompactionSchedule(messages, tokenLimit)).value,
      Conversation(scopeId, sessionId, messages, ids, tokenLimit), NonBlank(messages), setup.keepLastN);
  }

  lemma ThreeShortConversation(x: Message)
    requires x == Message("user", "abc")
    ensures NonBlank([x, x, x]) == [x, x, x] && Tokens([x, x, x]) == 0 && KnownRoles([x, x, x])
  {
    assert Strip("abc") == "abc";
    FilterAll([x, x, x], m => !Blank(m));
    assert [x, x, x][..2] == [x, x] && [x, x][..1] == [x] && [x][..0] == [];
    assert |x.content| / 4 == 0;
    assert Tokens([x]) == 0;
    assert Tokens([x, x]) == Tokens([x]) + |x.content| / 4;
  }

  /** Such a conversation: three messages "abc" count no tokens and so are within a limit of
      one; two of them are dropped, and the answer does not admit to it. */
  lemma ShortConversationIsCut(setup: Setup, scopeId: string, sessionId: string, ids: seq<string>)
    requires |ids| == 3 && Defaults(setup) && setup.help(Compaction) == NoHelp
    ensures var x := Message("user", "abc");
      && Tokens([x, x, x]) <= 1
      && Routed(setup, Conversation(scopeId, sessionId, [x, x, x], ids, 1), CompactionSchedule([x, x, x], 1))
           == Built(Structured, [x], false)
  {
    var x := Message("user", "abc");
    ThreeShortConversation(x);
    ThreeShortMessages(x);
    WhoCompacts(setup, [x, x, x], 1);
    NoTokensGoToCompaction([x, x, x], 1);
    WrappedItemsReadBack([x, x, x], ids);
    ShortKept(Conversation(scopeId, sessionId, [x, x, x], ids, 1), setup.keepLastN, x);
  }

  lemma ShortKept(snapshot: ContextSnapshot, keepLastN: int, x: Message)
    requires |x.content| == 3 && x.role != "system"
    requires ToMessages(snapshot.items) == [x, x, x] && snapshot.totalTokens == 0 && snapshot.tokenBudget == 1
    ensures Kept(Compaction, snapshot, keepLastN, NoHelp) == [x] && !FellBack(Compaction, snapshot, keepLastN, NoHelp)
  {
    ThreeShortMessages(x);
  }
}
