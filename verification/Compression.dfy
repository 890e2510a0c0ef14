/** From a snapshot to the text handed out: each strategy's gate, the schedule the router
    walks, and the raw fallback. */
module Compression {
  import opened PyCollections
  import opened ContextModels
  import opened Messages
  import opened Truncation
  import opened Aggregator

  datatype Kind = Qa | Task | LongSession | Realtime | Compaction

  datatype OutputType = Compressed | Structured | Raw

  datatype Output = Output(outputType: OutputType, content: string, tokenCount: nat, degraded: bool)

  /** What a configured helper came back with when a strategy had to compress: nothing usable,
      a compressor's messages, or a language model's. Their messages may be anything;
      `metadataKept` says whether a model's carry the metadata of those they repeat. */
  datatype Help = NoHelp | FromCompressor(messages: seq<Message>) | FromModel(messages: seq<Message>, metadataKept: bool)

  /** Whether a model's answer is, metadata and all, the truncation. */
  predicate Repeats(help: Help, truncated: seq<Message>)
    requires help.FromModel?
  {
    help.messages == truncated && (help.metadataKept || truncated == [])
  }

  function Estimate(snapshot: ContextSnapshot): int {
    if snapshot.totalTokens > 0 then snapshot.totalTokens else EstimateMessageTokens(ToMessages(snapshot.items))
  }

  function Built(outputType: OutputType, messages: seq<Message>, degraded: bool): Output {
    Output(outputType, Rendered(messages), |Rendered(messages)| / 4, degraded)
  }

  function TypeOf(kind: Kind): OutputType {
    if kind.Compaction? then Structured else Compressed
  }

  function Truncated(kind: Kind, messages: seq<Message>, budget: int, keepLastN: int): seq<Message> {
    match kind
    case Qa => Stopped(messages, budget)
    case Realtime => Recent(messages, budget, keepLastN)
    case _ => Skipped(messages, budget)
  }

  /** The messages a strategy renders. */
  function Kept(kind: Kind, snapshot: ContextSnapshot, keepLastN: int, help: Help): seq<Message> {
    var messages := ToMessages(snapshot.items);
    if messages == [] || Estimate(snapshot) <= snapshot.tokenBudget then messages
    else if help.NoHelp? then Truncated(kind, messages, snapshot.tokenBudget, keepLastN)
    else help.messages
  }

  /** Whether the strategy admits to having fallen back; compaction never does. */
  function FellBack(kind: Kind, snapshot: ContextSnapshot, keepLastN: int, help: Help): bool {
    var messages := ToMessages(snapshot.items);
    && messages != [] && snapshot.tokenBudget < Estimate(snapshot) && !kind.Compaction?
    && match help
       case NoHelp => true
       case FromCompressor(_) => false
       case FromModel(_, _) => (kind.Qa? || kind.LongSession?) && Repeats(help, Truncated(kind, messages, snapshot.tokenBudget, keepLastN))
  }

  method Compress(kind: Kind, snapshot: ContextSnapshot, keepLastN: int, help: Help) returns (output: Output)
    ensures output == Built(TypeOf(kind), Kept(kind, snapshot, keepLastN, help), FellBack(kind, snapshot, keepLastN, help))
  {
    var messages := SnapshotToMessages(snapshot.items);
    if messages == [] {
      return Built(TypeOf(kind), [], false);
    }
    var current := if snapshot.totalTokens > 0 then snapshot.totalTokens else EstimateMessageTokens(messages);
    if current <= snapshot.tokenBudget {
      return Built(TypeOf(kind), messages, false);
    }
    if help.FromCompressor? {
      return Built(TypeOf(kind), help.messages, false);
    }
    var truncated;
    match kind {
      case Qa => truncated := Truncate(messages, snapshot.tokenBudget);
      case Realtime => truncated := FastTruncate(messages, snapshot.tokenBudget, keepLastN);
      case _ => truncated := SkipTruncate(messages, snapshot.tokenBudget);
    }
    if help.FromModel? {
      return Built(TypeOf(kind), help.messages, (kind.Qa? || kind.LongSession?) && Repeats(help, truncated));
    }
    return Built(TypeOf(kind), truncated, !kind.Compaction?);
  }

  // ----- the router

  /** A registered strategy: one of the five, or one that raises. */
  datatype Strategy = BuiltIn(kind: Kind) | Failing

  /** Where the snapshot goes through the router: which strategies are registered, how the
      realtime one is configured, and what help each has. */
  datatype Setup = Setup(registry: map<string, Strategy>, keepLastN: int, help: Kind -> Help)

  /** The first scheduled strategy that is registered and does not raise. */
  function Chosen(setup: Setup, ids: seq<string>): Option<Kind> {
    if ids == [] then None
    else if ids[0] in setup.registry && setup.registry[ids[0]].BuiltIn? then Some(setup.registry[ids[0]].kind)
    else Chosen(setup, ids[1..])
  }

  function RawFallback(snapshot: ContextSnapshot): Output {
    Output(Raw, RawJoin(snapshot.items), |RawJoin(snapshot.items)| / 4, true)
  }

  function Routed(setup: Setup, snapshot: ContextSnapshot, ids: seq<string>): Output {
    match Chosen(setup, ids)
    case Some(kind) =>
      Built(TypeOf(kind), Kept(kind, snapshot, setup.keepLastN, setup.help(kind)),
        FellBack(kind, snapshot, setup.keepLastN, setup.help(kind)))
    case None => RawFallback(snapshot)
  }

  method ApplySchedule(setup: Setup, snapshot: ContextSnapshot, ids: seq<string>) returns (output: Output)
    ensures output == Routed(setup, snapshot, ids)
  {
    for i := 0 to |ids|
      invariant Chosen(setup, ids) == Chosen(setup, ids[i..])
    {
      assert ids[i..][1..] == ids[i + 1..];
      if ids[i] in setup.registry {
        match setup.registry[ids[i]]
        case Failing =>
        case BuiltIn(kind) =>
          output := Compress(kind, snapshot, setup.keepLastN, setup.help(kind));
          return;
      }
    }
    output := RawFallback(snapshot);
  }

  // ----- the scheduler

  datatype SelectionContext = SelectionContext(taskType: string, tokenUsed: int, tokenBudget: int, turnCount: int)

  function Utilisation(ctx: SelectionContext): real {
    if ctx.tokenBudget == 0 then 0.0 else ctx.tokenUsed as real / ctx.tokenBudget as real
  }

  const BUILT_INS := {"qa", "task", "long_session", "realtime", "compaction"}

  /** The one id that task type, turn count and utilisation select, if they select any. */
  function MainChoice(ctx: SelectionContext, ratio: real): Option<string> {
    if ctx.taskType in BUILT_INS then Some(ctx.taskType)
    else if ctx.turnCount > 20 then Some("long_session")
    else if Utilisation(ctx) > ratio then Some("compaction")
    else if ctx.taskType == "" then Some("qa")
    else None
  }

  /** The built-in strategies are registered before anything is scheduled; `ratio` is the
      configured compaction trigger. */
  method Schedule(ctx: SelectionContext, registered: set<string>, ratio: real) returns (ids: seq<string>)
    ensures Distinct(ids) && forall id :: id in ids ==> id in BUILT_INS
    ensures "realtime" in ids <==> Utilisation(ctx) > 0.95 || ctx.taskType == "realtime"
    ensures MainChoice(ctx, ratio).Some? ==> ids != [] && ids[|ids| - 1] == MainChoice(ctx, ratio).value
    ensures forall id :: id in ids ==> id == "realtime" || Some(id) == MainChoice(ctx, ratio)
    ensures ids == [] <==> MainChoice(ctx, ratio).None? && Utilisation(ctx) <= 0.95
  {
    var available := registered + BUILT_INS;
    ids := [];
    if ctx.taskType in BUILT_INS && ctx.taskType in available {
      ids := ids + [ctx.taskType];
    }
    if ids == [] {
      if ctx.turnCount > 20 {
        ids := ["long_session"];
      } else if Utilisation(ctx) > ratio {
        ids := ["compaction"];
      } else if ctx.taskType == "" {
        ids := ["qa"];
      }
    }
    if Utilisation(ctx) > 0.95 && "realtime" in available && "realtime" !in ids {
      ids := ["realtime"] + ids;
    }
  }

  // ----- compression after aggregation

  lemma EstimateFits(r: Request, sources: seq<Source>, snapshot: ContextSnapshot)
    requires IsAggregate(r, sources, snapshot) && snapshot.totalTokens > 0
    ensures Estimate(snapshot) <= snapshot.tokenBudget
  {
    SnapshotFitsBudget(r, sources, snapshot);
    assert snapshot.items == [] ==> snapshot.totalTokens == 0;
  }

  /** After aggregation no truncation is reached: under any schedule, registry and helpers
      the text renders every message in order, or is the raw join of every item. */
  lemma CompressionAfterAggregationIsLossless(r: Request, sources: seq<Source>, snapshot: ContextSnapshot,
                                              setup: Setup, ids: seq<string>)
    requires IsAggregate(r, sources, snapshot) && snapshot.totalTokens > 0
    ensures var output := Routed(setup, snapshot, ids);
      if Chosen(setup, ids).Some? then output.content == Rendered(ToMessages(snapshot.items)) && !output.degraded
      else output.content == RawJoin(snapshot.items) && output.degraded
  {
    EstimateFits(r, sources, snapshot);
  }

  lemma ScoreDoesNotMatter(a: ContextItem, b: ContextItem)
    requires SameButScore(a, b) && AsStored(b)
    ensures AsStored(a)
  {
    var role, content :| StoredAs(b, role, content);
    assert StoredAs(a, role, content);
  }

  lemma AggregatedItemsAreStored(r: Request, sources: seq<Source>, snapshot: ContextSnapshot, x: ContextItem)
    requires IsAggregate(r, sources, snapshot) && x in snapshot.items
    requires forall s :: s in sources && s.result.Items? ==> forall y :: y in s.result.items ==> AsStored(y)
    ensures AsStored(x)
  {
    SnapshotIsSound(r, sources, snapshot);
    var y :| SameButScore(x, y) && FirstBest(y, Surviving(r, sources));
    var i :| FirstBestAt(y, Surviving(r, sources), i);
    assert y in Surviving(r, sources);
    GatheredFrom(sources, y);
    ScoreDoesNotMatter(x, y);
  }

  /** For items stored by the orchestrator the compressed text is the raw join itself,
      whichever strategy answers. */
  lemma StoredItemsComeBackVerbatim(r: Request, sources: seq<Source>, snapshot: ContextSnapshot,
                                    setup: Setup, ids: seq<string>)
    requires IsAggregate(r, sources, snapshot) && snapshot.totalTokens > 0
    requires forall s :: s in sources && s.result.Items? ==> forall y :: y in s.result.items ==> AsStored(y)
    ensures Routed(setup, snapshot, ids).content == RawJoin(snapshot.items)
  {
    CompressionAfterAggregationIsLossless(r, sources, snapshot, setup, ids);
    forall x | x in snapshot.items ensures AsStored(x) {
      AggregatedItemsAreStored(r, sources, snapshot, x);
    }
    StoredItemsRender(snapshot.items);
  }

  // ----- exactly when nothing is lost

  lemma {:induction false} SplitSizes(messages: seq<Message>)
    ensures |System(messages)| + |Others(messages)| == |messages|
    ensures Chars(System(messages)) + Chars(Others(messages)) == Chars(messages)
  {
    if messages != [] {
      var front, last := messages[..|messages| - 1], messages[|messages| - 1];
      SplitSizes(front);
      if IsSystem()(last) {
        CharsOneMore(System(front), last);
      } else {
        CharsOneMore(Others(front), last);
      }
    }
  }

  lemma StopKeepsAllOnlyIfItFits(ms: seq<Message>, used: nat, cap: int)
    requires |StopKeep(ms, used, cap)| == |ms| && ms != []
    ensures used + Chars(ms) <= cap
  {
    StopKeepsLongestSuffix(ms, used, cap);
    assert ms[0..] == ms;
  }

  lemma {:induction false} SkipKeepsAllOnlyIfItFits(ms: seq<Message>, used: nat, cap: int)
    requires |SkipKeep(ms, used, cap)| == |ms| && ms != []
    ensures used + Chars(ms) <= cap
  {
    var front, last := ms[..|ms| - 1], ms[|ms| - 1];
    if used + |last.content| <= cap && front != [] {
      SkipKeepsAllOnlyIfItFits(front, used + |last.content|, cap);
    }
  }

  lemma OverBudgetDropsUnlessAllSystem(kind: Kind, messages: seq<Message>, budget: int, keepLastN: int)
    requires Chars(messages) > 4 * budget
    ensures |Truncated(kind, messages, budget, keepLastN)| == |messages| <==> Others(messages) == []
  {
    SplitSizes(messages);
    var used, others, cap := Chars(System(messages)), Others(messages), budget * 4;
    var recent := From(others, -keepLastN);
    if |StopKeep(others, used, cap)| == |others| && others != [] {
      StopKeepsAllOnlyIfItFits(others, used, cap);
    }
    if |SkipKeep(others, used, cap)| == |others| && others != [] {
      SkipKeepsAllOnlyIfItFits(others, used, cap);
    }
    assert |recent| == |others| ==> recent == others;
    if |StopKeep(recent, used, cap)| == |others| && others != [] {
      StopKeepsAllOnlyIfItFits(others, used, cap);
    }
  }

  /** With no helper, a strategy hands out every message of an aggregated snapshot exactly
      when the token total is positive, or the messages' characters fit after all, or every
      message is a system message. Items of fewer than four characters count no tokens, so a
      total of zero says nothing about how much text there is. */
  lemma NothingIsLostIff(r: Request, sources: seq<Source>, snapshot: ContextSnapshot, kind: Kind, keepLastN: int)
    requires IsAggregate(r, sources, snapshot)
    ensures var messages := ToMessages(snapshot.items);
      (|Kept(kind, snapshot, keepLastN, NoHelp)| == |messages| <==>
        snapshot.totalTokens > 0 || Chars(messages) / 4 <= snapshot.tokenBudget || Others(messages) == [])
  {
    var messages := ToMessages(snapshot.items);
    if snapshot.items == [] {
      assert messages == [];
    } else if snapshot.totalTokens > 0 {
      EstimateFits(r, sources, snapshot);
    } else if Chars(messages) / 4 > snapshot.tokenBudget {
      OverBudgetDropsUnlessAllSystem(kind, messages, snapshot.tokenBudget, keepLastN);
    }
  }

  // ----- short texts

  lemma ThreeAlike(x: Message)
    ensures Chars([x, x, x]) == 3 * |x.content|
  {
    assert [x, x, x][..2] == [x, x] && [x, x][..1] == [x] && [x][..0] == [];
    assert Chars([x]) == |x.content| && Chars([x, x]) == 2 * |x.content|;
  }

  lemma AllOthers(messages: seq<Message>)
    requires forall m :: m in messages ==> m.role != "system"
    ensures Others(messages) == messages && System(messages) == []
  {
    FilterNone(messages, IsSystem());
    FilterAll(messages, IsOther());
  }

  /** Three messages of three characters do not fit four characters: each loop keeps the last. */
  lemma ThreeShortMessages(x: Message)
    requires |x.content| == 3 && x.role != "system"
    ensures Chars([x, x, x]) == 9 && Others([x, x, x]) == [x, x, x] && System([x, x, x]) == []
    ensures Stopped([x, x, x], 1) == [x] && Skipped([x, x, x], 1) == [x]
  {
    ThreeAlike(x);
    AllOthers([x, x, x]);
    ShortLoops(x);
  }

  lemma ShortLoops(x: Message)
    requires |x.content| == 3
    ensures StopKeep([x, x, x], 0, 4) == [x] && SkipKeep([x, x, x], 0, 4) == [x]
  {
    assert [x, x, x][..2] == [x, x] && [x, x][..1] == [x] && [x][..0] == [];
    assert SkipKeep([x], 3, 4) == [] && SkipKeep([x, x], 3, 4) == [];
    assert StopKeep([x, x], 3, 4) == [];
  }

  function Tiny(id: string): ContextItem {
    ContextItem(id, "user", None, None, Detail, 1.0, 0, "abc", Some("user"))
  }

  lemma TinyReads(id: string)
    ensures ToMessage(Tiny(id)) == Message("user", "abc")
  {
    assert Strip("user") == "user";
    assert Prefix("user")[0] == '[' && "abc"[0] == 'a';
  }

  lemma {:induction false} ShortTextsCountNothing(items: seq<ContextItem>)
    requires forall item :: item in items ==> |item.content| < 4
    ensures TotalTokens(items) == 0
  {
    if items != [] {
      ShortTextsCountNothing(items[..|items| - 1]);
    }
  }

  /** Distinct short items of equal score make a snapshot that counts no tokens, for any
      budget that is not negative. */
  lemma ShortItemsAggregate(r: Request, items: seq<ContextItem>, name: string)
    requires 0 <= r.tokenBudget && r.adjust.None? && DistinctIds(items) && Descending(items, ByScore())
    requires forall item :: item in items ==> Passes(r, item) && |item.content| < 4
    ensures IsAggregate(r, [Source(name, Items(items))], ContextSnapshot(r.scopeId, r.sessionId, items, 0, r.tokenBudget))
  {
    OneSource(name, items);
    FilterAll(items, item => Passes(r, item));
    DistinctItemsStay(items);
    SortDescendingIdentity(items, ByScore());
    ShortTextsCountNothing(items);
  }

  lemma OneSource(name: string, items: seq<ContextItem>)
    ensures Gathered([Source(name, Items(items))]) == items
  {
    assert [Source(name, Items(items))][..0] == [];
  }

  lemma TinyItemsAreDistinct()
    ensures DistinctIds([Tiny("1"), Tiny("2"), Tiny("3")])
  {
    assert "1"[0] != "2"[0] && "1"[0] != "3"[0] && "2"[0] != "3"[0];
  }

  lemma TinyKept(snapshot: ContextSnapshot)
    requires snapshot.items == [Tiny("1"), Tiny("2"), Tiny("3")] && snapshot.totalTokens == 0 && snapshot.tokenBudget == 1
    ensures Kept(Qa, snapshot, 10, NoHelp) == [Message("user", "abc")]
  {
    var x := Message("user", "abc");
    TinyReads("1");
    TinyReads("2");
    TinyReads("3");
    assert ToMessages(snapshot.items) == [x, x, x];
    ThreeShortMessages(x);
  }

  /** Such a case: three three-character items fit a budget of one token in the aggregator,
      which counts none, and the question-answering strategy then keeps one of the three. */
  lemma TinyItemsAreDropped()
    ensures var r, items := Request("scope", "session", 1, Detail, [], None), [Tiny("1"), Tiny("2"), Tiny("3")];
      var snapshot := ContextSnapshot("scope", "session", items, 0, 1);
      && IsAggregate(r, [Source("ltm", Items(items))], snapshot)
      && snapshot.totalTokens <= snapshot.tokenBudget
      && Kept(Qa, snapshot, 10, NoHelp) == [Message("user", "abc")]
  {
    var items := [Tiny("1"), Tiny("2"), Tiny("3")];
    TinyItemsAreDistinct();
    ShortItemsAggregate(Request("scope", "session", 1, Detail, [], None), items, "ltm");
    TinyKept(ContextSnapshot("scope", "session", items, 0, 1));
  }
}
