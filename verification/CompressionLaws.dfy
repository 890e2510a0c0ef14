/** What each strategy keeps when it has to truncate, told without its loop; and what the
    labels of an output say. */
module CompressionLaws {
  import opened PyCollections
  import opened ContextModels
  import opened Messages
  import opened Truncation
  import opened Compression

  // ----- what a truncation keeps

  /** `kept` is the longest run of latest messages that fits beside `used` characters. */
  ghost predicate LongestThatFits(kept: seq<Message>, all: seq<Message>, used: nat, cap: int) {
    exists n: nat :: n <= |all| && kept == all[n..] && (kept != [] ==> used + Chars(kept) <= cap)
      && forall j: nat :: j < n ==> used + Chars(all[j..]) > cap
  }

  /** The messages that are marked. */
  function Marked(all: seq<Message>, marks: seq<bool>): seq<Message>
    requires |marks| == |all|
  {
    if all == [] then [] else (if marks[0] then [all[0]] else []) + Marked(all[1..], marks[1..])
  }

  /** A message is marked exactly when it fits beside the marked later ones. */
  ghost predicate FitBesideLater(all: seq<Message>, marks: seq<bool>, used: nat, cap: int)
    requires |marks| == |all|
  {
    forall i: nat :: i < |all| ==>
      (marks[i] <==> used + Chars(Marked(all[i + 1..], marks[i + 1..])) + |all[i].content| <= cap)
  }

  ghost predicate EachThatFits(kept: seq<Message>, all: seq<Message>, used: nat, cap: int) {
    exists marks: seq<bool> :: |marks| == |all| && FitBesideLater(all, marks, used, cap) && kept == Marked(all, marks)
  }

  lemma StopIsLongest(all: seq<Message>, used: nat, cap: int)
    ensures LongestThatFits(StopKeep(all, used, cap), all, used, cap)
  {
    StopKeepsLongestSuffix(all, used, cap);
    var n: nat := |all| - |StopKeep(all, used, cap)|;
    assert StopKeep(all, used, cap) == all[n..];
  }

  lemma MarkOneMore(m: Message, all: seq<Message>, mark: bool, marks: seq<bool>, used: nat, cap: int)
    requires |marks| == |all| && FitBesideLater(all, marks, used, cap)
    requires mark <==> used + Chars(Marked(all, marks)) + |m.content| <= cap
    ensures FitBesideLater([m] + all, [mark] + marks, used, cap)
    ensures Marked([m] + all, [mark] + marks) == (if mark then [m] else []) + Marked(all, marks)
  {
    var more, flags := [m] + all, [mark] + marks;
    assert more[1..] == all && flags[1..] == marks;
    forall i: nat | i < |more|
      ensures flags[i] <==> used + Chars(Marked(more[i + 1..], flags[i + 1..])) + |more[i].content| <= cap
    {
      if i > 0 {
        assert more[i + 1..] == all[i..] && flags[i + 1..] == marks[i..];
        assert more[i] == all[i - 1] && flags[i] == marks[i - 1];
      }
    }
  }

  lemma {:induction false} SkipMarks(all: seq<Message>, used: nat, cap: int) returns (marks: seq<bool>)
    ensures |marks| == |all| && FitBesideLater(all, marks, used, cap) && SkipKeep(all, used, cap) == Marked(all, marks)
  {
    if all == [] {
      marks := [];
    } else {
      var later := SkipMarks(all[1..], used, cap);
      var mark := used + Chars(SkipKeep(all[1..], used, cap)) + |all[0].content| <= cap;
      marks := [mark] + later;
      MarkOneMore(all[0], all[1..], mark, later, used, cap);
      SkipKeepsWhatFitsBesideLater(all[0], all[1..], used, cap);
      assert all == [all[0]] + all[1..];
    }
  }

  lemma SkipIsEachThatFits(all: seq<Message>, used: nat, cap: int)
    ensures EachThatFits(SkipKeep(all, used, cap), all, used, cap)
  {
    var marks := SkipMarks(all, used, cap);
  }

  /** What is kept of the messages that are no system messages: by question answering the longest
      run of latest ones that fits, by the realtime strategy the same among the last N, and by the
      other three each one that fits beside the later ones kept. */
  ghost predicate KeptOfOthers(kind: Kind, kept: seq<Message>, others: seq<Message>, keepLastN: int, used: nat, cap: int) {
    && (kind == Qa ==> LongestThatFits(kept, others, used, cap))
    && (kind == Realtime ==> LongestThatFits(kept, From(others, -keepLastN), used, cap))
    && (kind == Task || kind == LongSession || kind == Compaction ==> EachThatFits(kept, others, used, cap))
  }

  lemma LoopKeeps(kind: Kind, messages: seq<Message>, budget: int, keepLastN: int) returns (rest: seq<Message>)
    ensures Truncated(kind, messages, budget, keepLastN) == System(messages) + rest
    ensures KeptOfOthers(kind, rest, Others(messages), keepLastN, Chars(System(messages)), 4 * budget)
  {
    var others, used := Others(messages), Chars(System(messages));
    match kind {
      case Qa =>
        rest := StopKeep(others, used, budget * 4);
        StopIsLongest(others, used, budget * 4);
      case Realtime =>
        rest := StopKeep(From(others, -keepLastN), used, budget * 4);
        StopIsLongest(From(others, -keepLastN), used, budget * 4);
      case _ =>
        rest := SkipKeep(others, used, budget * 4);
        SkipIsEachThatFits(others, used, budget * 4);
    }
  }

  /** Over its budget and without help, a strategy keeps the system messages, all of them, and
      after them what it keeps of the others. */
  lemma WhatEachStrategyKeeps(kind: Kind, snapshot: ContextSnapshot, messages: seq<Message>, keepLastN: int)
    requires messages == ToMessages(snapshot.items) != []
    requires snapshot.tokenBudget < (if snapshot.totalTokens > 0 then snapshot.totalTokens else Chars(messages) / 4)
    ensures exists rest ::
      && Kept(kind, snapshot, keepLastN, NoHelp) == System(messages) + rest
      && KeptOfOthers(kind, rest, Others(messages), keepLastN, Chars(System(messages)), 4 * snapshot.tokenBudget)
  {
    var rest := LoopKeeps(kind, messages, snapshot.tokenBudget, keepLastN);
    assert Kept(kind, snapshot, keepLastN, NoHelp) == System(messages) + rest;
  }

  /** Within its budget a strategy keeps everything, and a helper's answer is taken as it is. */
  lemma WhenNothingIsTruncated(kind: Kind, snapshot: ContextSnapshot, keepLastN: int, help: Help)
    ensures var messages := ToMessages(snapshot.items);
      var within := messages == [] || (if snapshot.totalTokens > 0 then snapshot.totalTokens else Chars(messages) / 4) <= snapshot.tokenBudget;
      && (within ==> Kept(kind, snapshot, keepLastN, help) == messages)
      && (!within && help.FromCompressor? ==> Kept(kind, snapshot, keepLastN, help) == help.messages)
      && (!within && help.FromModel? ==> Kept(kind, snapshot, keepLastN, help) == help.messages)
  {
  }

  // ----- what the labels say

  /** An output without the degraded mark holds every message, unless compaction made it or a
      helper's messages are in their place; and one with it holds the strategy's own truncation. */
  lemma DegradedMeansTruncated(kind: Kind, snapshot: ContextSnapshot, keepLastN: int, help: Help)
    ensures help == NoHelp && kind != Compaction && !FellBack(kind, snapshot, keepLastN, help)
      ==> Kept(kind, snapshot, keepLastN, help) == ToMessages(snapshot.items)
    ensures FellBack(kind, snapshot, keepLastN, help)
      ==> kind != Compaction && Kept(kind, snapshot, keepLastN, help) == Kept(kind, snapshot, keepLastN, NoHelp)
    ensures help.FromCompressor? ==> !FellBack(kind, snapshot, keepLastN, help)
  {
  }

  /** A language model that gives back the very truncation, metadata and all, is found out by the
      question-answering and long-session strategies and by no other; one that gives back the same
      messages without their metadata by none, unless there are no messages. */
  lemma EchoIsFoundOutIff(kind: Kind, snapshot: ContextSnapshot, keepLastN: int, metadataKept: bool, echo: Help)
    requires ToMessages(snapshot.items) != [] && snapshot.tokenBudget < Estimate(snapshot)
    requires echo == FromModel(Kept(kind, snapshot, keepLastN, NoHelp), metadataKept)
    ensures FellBack(kind, snapshot, keepLastN, echo)
      <==> (kind == Qa || kind == LongSession) && (metadataKept || Kept(kind, snapshot, keepLastN, NoHelp) == [])
  {
  }

  /** Whether this scheduled strategy is registered and does not raise. */
  predicate Works(setup: Setup, id: string) {
    id in setup.registry && setup.registry[id].BuiltIn?
  }

  ghost predicate FirstWorking(setup: Setup, ids: seq<string>, i: int) {
    0 <= i < |ids| && Works(setup, ids[i]) && forall j :: 0 <= j < i ==> !Works(setup, ids[j])
  }

  lemma {:induction false} FirstThatWorks(setup: Setup, ids: seq<string>)
    ensures Chosen(setup, ids).None? ==> forall i :: 0 <= i < |ids| ==> !Works(setup, ids[i])
    ensures Chosen(setup, ids).Some? ==> exists i :: FirstWorking(setup, ids, i) && Chosen(setup, ids) == Some(setup.registry[ids[i]].kind)
  {
    if ids != [] && !Works(setup, ids[0]) {
      FirstThatWorks(setup, ids[1..]);
      if Chosen(setup, ids).Some? {
        var i :| FirstWorking(setup, ids[1..], i) && Chosen(setup, ids[1..]) == Some(setup.registry[ids[1..][i]].kind);
        forall j | 0 <= j < i + 1 ensures !Works(setup, ids[j]) {
          assert j > 0 ==> ids[j] == ids[1..][j - 1];
        }
        assert FirstWorking(setup, ids, i + 1);
      }
    } else if ids != [] {
      assert FirstWorking(setup, ids, 0);
    }
  }

  /** An output counts a token for every four characters of its text; it is raw exactly when no
      scheduled strategy works, and structured exactly when the first that works is compaction. */
  lemma LabelsAreRight(setup: Setup, snapshot: ContextSnapshot, ids: seq<string>, output: Output)
    requires output == Routed(setup, snapshot, ids)
    ensures 4 * output.tokenCount <= |output.content| < 4 * output.tokenCount + 4
    ensures output.outputType == Raw <==> forall i :: 0 <= i < |ids| ==> !Works(setup, ids[i])
    ensures output.outputType == Structured <==> exists i :: FirstWorking(setup, ids, i) && setup.registry[ids[i]].kind == Compaction
    ensures output.outputType == Raw ==> output.content == RawJoin(snapshot.items) && output.degraded
  {
    FirstThatWorks(setup, ids);
  }

  /** A task type that names a strategy selects it; any other leaves it to the signals: more than
      twenty turns, then utilisation above the trigger, then having no task type at all. */
  lemma SelectionFollowsSignals(ctx: SelectionContext, ratio: real)
    ensures ctx.taskType in ["qa", "task", "long_session", "realtime", "compaction"] ==> MainChoice(ctx, ratio) == Some(ctx.taskType)
    ensures var signals := ctx.taskType !in ["qa", "task", "long_session", "realtime", "compaction"];
      && (signals && 20 < ctx.turnCount ==> MainChoice(ctx, ratio) == Some("long_session"))
      && (signals && ctx.turnCount <= 20 && Utilisation(ctx) > ratio ==> MainChoice(ctx, ratio) == Some("compaction"))
      && (ctx.taskType == "" && ctx.turnCount <= 20 && Utilisation(ctx) <= ratio ==> MainChoice(ctx, ratio) == Some("qa"))
      && (signals && ctx.taskType != "" && ctx.turnCount <= 20 && Utilisation(ctx) <= ratio ==> MainChoice(ctx, ratio) == None)
  {
  }
}
