/** The truncation loops of the five compression strategies. Each keeps every system message
    and then walks the other messages from the newest to the oldest: two loops stop at the
    first message that does not fit, the other three skip it and go on. */
module Truncation {
  import opened PyCollections
  import opened Messages

  function IsSystem(): Message -> bool {
    (m: Message) => m.role == "system"
  }

  function IsOther(): Message -> bool {
    (m: Message) => m.role != "system"
  }

  function System(messages: seq<Message>): seq<Message> {
    Filter(messages, IsSystem())
  }

  function Others(messages: seq<Message>): seq<Message> {
    Filter(messages, IsOther())
  }

  // ----- what the loops keep, `used` characters of `cap` being taken already

  function StopKeep(ms: seq<Message>, used: nat, cap: int): (r: seq<Message>)
    ensures |r| <= |ms|
  {
    if ms == [] then []
    else
      var last := ms[|ms| - 1];
      if used + |last.content| <= cap then StopKeep(ms[..|ms| - 1], used + |last.content|, cap) + [last] else []
  }

  function SkipKeep(ms: seq<Message>, used: nat, cap: int): (r: seq<Message>)
    ensures |r| <= |ms|
  {
    if ms == [] then []
    else
      var front, last := ms[..|ms| - 1], ms[|ms| - 1];
      if used + |last.content| <= cap then SkipKeep(front, used + |last.content|, cap) + [last]
      else SkipKeep(front, used, cap)
  }

  function Stopped(messages: seq<Message>, budget: int): seq<Message> {
    System(messages) + StopKeep(Others(messages), Chars(System(messages)), budget * 4)
  }

  function Recent(messages: seq<Message>, budget: int, keepLastN: int): seq<Message> {
    System(messages) + StopKeep(From(Others(messages), -keepLastN), Chars(System(messages)), budget * 4)
  }

  function Skipped(messages: seq<Message>, budget: int): seq<Message> {
    System(messages) + SkipKeep(Others(messages), Chars(System(messages)), budget * 4)
  }

  // ----- the loops

  method Split(messages: seq<Message>) returns (system: seq<Message>, others: seq<Message>)
    ensures system == System(messages) && others == Others(messages)
  {
    system, others := [], [];
    for i := 0 to |messages|
      invariant system == System(messages[..i]) && others == Others(messages[..i])
    {
      assert messages[..i + 1][..i] == messages[..i];
      if messages[i].role == "system" {
        system := system + [messages[i]];
      } else {
        others := others + [messages[i]];
      }
    }
    assert messages[..|messages|] == messages;
  }

  method CountChars(messages: seq<Message>) returns (n: nat)
    ensures n == Chars(messages)
  {
    n := 0;
    for i := 0 to |messages|
      invariant n == Chars(messages[..i])
    {
      assert messages[..i + 1][..i] == messages[..i];
      n := n + |messages[i].content|;
    }
    assert messages[..|messages|] == messages;
  }

  /** Where a stopping loop stands: `kept` is what it has kept of `ms[i..]`, and the rest of
      `goal` comes from `ms[..i]`. */
  ghost predicate Stopping(ms: seq<Message>, i: nat, used: nat, cap: int, kept: seq<Message>, goal: seq<Message>) {
    i <= |ms| && goal == StopKeep(ms[..i], used, cap) + kept
  }

  lemma StopBegins(ms: seq<Message>, used: nat, cap: int)
    ensures Stopping(ms, |ms|, used, cap, [], StopKeep(ms, used, cap))
  {
    assert ms[..|ms|] == ms;
  }

  lemma StopTurn(ms: seq<Message>, i: nat, used: nat, cap: int, kept: seq<Message>, goal: seq<Message>)
    requires i < |ms| && Stopping(ms, i + 1, used, cap, kept, goal)
    ensures if used + |ms[i].content| <= cap then Stopping(ms, i, used + |ms[i].content|, cap, [ms[i]] + kept, goal)
            else goal == kept
  {
    assert ms[..i + 1][..i] == ms[..i];
  }

  lemma InsertBehind<T>(front: seq<T>, x: T, back: seq<T>)
    ensures (front + back)[..|front|] + [x] + (front + back)[|front|..] == front + ([x] + back)
  {
  }

  /** Where a skipping loop stands. */
  ghost predicate Skipping(ms: seq<Message>, i: nat, used: nat, cap: int, kept: seq<Message>, goal: seq<Message>) {
    i <= |ms| && goal == SkipKeep(ms[..i], used, cap) + kept
  }

  lemma SkipBegins(ms: seq<Message>, used: nat, cap: int)
    ensures Skipping(ms, |ms|, used, cap, [], SkipKeep(ms, used, cap))
  {
    assert ms[..|ms|] == ms;
  }

  lemma SkipTurn(ms: seq<Message>, i: nat, used: nat, cap: int, kept: seq<Message>, goal: seq<Message>)
    requires i < |ms| && Skipping(ms, i + 1, used, cap, kept, goal)
    ensures if used + |ms[i].content| <= cap then Skipping(ms, i, used + |ms[i].content|, cap, [ms[i]] + kept, goal)
            else Skipping(ms, i, used, cap, kept, goal)
  {
    assert ms[..i + 1][..i] == ms[..i];
  }

  /** The question-answering strategy's loop, which inserts behind the system messages. */
  method InsertWhileFits(system: seq<Message>, others: seq<Message>, charsBudget: int) returns (result: seq<Message>)
    ensures result == system + StopKeep(others, Chars(system), charsBudget)
  {
    result := system;
    var charsUsed: nat := CountChars(result);
    ghost var goal, kept: seq<Message> := StopKeep(others, charsUsed, charsBudget), [];
    StopBegins(others, charsUsed, charsBudget);
    for i := |others| downto 0
      invariant Stopping(others, i, charsUsed, charsBudget, kept, goal)
      invariant result == system + kept
    {
      var msg := others[i];
      StopTurn(others, i, charsUsed, charsBudget, kept, goal);
      InsertBehind(system, msg, kept);
      if charsUsed + |msg.content| <= charsBudget {
        result := result[..|system|] + [msg] + result[|system|..];
        charsUsed := charsUsed + |msg.content|;
        kept := [msg] + kept;
      } else {
        break;
      }
    }
  }

  /** The question-answering strategy. */
  method Truncate(messages: seq<Message>, budget: int) returns (result: seq<Message>)
    ensures result == Stopped(messages, budget)
  {
    var system, others := Split(messages);
    result := InsertWhileFits(system, others, budget * 4);
  }

  /** The realtime strategy's loop. */
  method PrependWhileFits(recent: seq<Message>, used: nat, charsBudget: int) returns (kept: seq<Message>)
    ensures kept == StopKeep(recent, used, charsBudget)
  {
    var charsUsed: nat := used;
    kept := [];
    ghost var goal := StopKeep(recent, used, charsBudget);
    StopBegins(recent, used, charsBudget);
    for i := |recent| downto 0
      invariant Stopping(recent, i, charsUsed, charsBudget, kept, goal)
    {
      var msg := recent[i];
      StopTurn(recent, i, charsUsed, charsBudget, kept, goal);
      if charsUsed + |msg.content| <= charsBudget {
        kept := [msg] + kept;
        charsUsed := charsUsed + |msg.content|;
      } else {
        break;
      }
    }
  }

  /** The realtime strategy: at most the last `keepLastN` are looked at. */
  method FastTruncate(messages: seq<Message>, budget: int, keepLastN: int) returns (result: seq<Message>)
    ensures result == Recent(messages, budget, keepLastN)
  {
    var system, others := Split(messages);
    var charsUsed: nat := CountChars(system);
    var kept := PrependWhileFits(From(others, -keepLastN), charsUsed, budget * 4);
    result := system + kept;
  }

  /** The loop of the long-session, compaction and task strategies. */
  method PrependWhatFits(others: seq<Message>, used: nat, charsBudget: int) returns (kept: seq<Message>)
    ensures kept == SkipKeep(others, used, charsBudget)
  {
    var charsUsed: nat := used;
    kept := [];
    ghost var goal := SkipKeep(others, used, charsBudget);
    SkipBegins(others, used, charsBudget);
    for i := |others| downto 0
      invariant Skipping(others, i, charsUsed, charsBudget, kept, goal)
    {
      var msg := others[i];
      SkipTurn(others, i, charsUsed, charsBudget, kept, goal);
      if charsUsed + |msg.content| <= charsBudget {
        kept := [msg] + kept;
        charsUsed := charsUsed + |msg.content|;
      }
    }
  }

  method SkipTruncate(messages: seq<Message>, budget: int) returns (result: seq<Message>)
    ensures result == Skipped(messages, budget)
  {
    var system, others := Split(messages);
    var charsUsed: nat := CountChars(system);
    var kept := PrependWhatFits(others, charsUsed, budget * 4);
    result := system + kept;
  }

  // ----- what is kept

  lemma {:induction false} CharsAppend(a: seq<Message>, b: seq<Message>)
    ensures Chars(a + b) == Chars(a) + Chars(b)
  {
    if b == [] {
      assert a + b == a;
    } else {
      assert (a + b)[..|a + b| - 1] == a + b[..|b| - 1];
      CharsAppend(a, b[..|b| - 1]);
    }
  }

  lemma CharsSplitLast(ms: seq<Message>, j: nat)
    requires j < |ms|
    ensures Chars(ms[j..]) == Chars(ms[..|ms| - 1][j..]) + |ms[|ms| - 1].content|
  {
    assert ms[j..][..|ms| - 1 - j] == ms[..|ms| - 1][j..];
  }

  lemma SuffixGrows<T>(s: seq<T>, n: nat)
    requires n < |s|
    ensures s[|s| - 1 - n..] == s[..|s| - 1][|s| - 1 - n..] + [s[|s| - 1]]
  {
  }

  lemma CharsOneMore(ms: seq<Message>, m: Message)
    ensures Chars(ms + [m]) == Chars(ms) + |m.content|
  {
    assert (ms + [m])[..|ms|] == ms;
  }

  lemma {:induction false} StopKeepsSuffix(ms: seq<Message>, used: nat, cap: int)
    ensures StopKeep(ms, used, cap) == ms[|ms| - |StopKeep(ms, used, cap)|..]
  {
    if ms != [] && used + |ms[|ms| - 1].content| <= cap {
      var front, last := ms[..|ms| - 1], ms[|ms| - 1];
      StopKeepsSuffix(front, used + |last.content|, cap);
      SuffixGrows(ms, |StopKeep(front, used + |last.content|, cap)|);
    }
  }

  lemma {:induction false} StopFits(ms: seq<Message>, used: nat, cap: int)
    ensures StopKeep(ms, used, cap) == [] || used + Chars(StopKeep(ms, used, cap)) <= cap
  {
    if ms != [] && used + |ms[|ms| - 1].content| <= cap {
      var front, last := ms[..|ms| - 1], ms[|ms| - 1];
      StopFits(front, used + |last.content|, cap);
      CharsOneMore(StopKeep(front, used + |last.content|, cap), last);
    }
  }

  lemma {:induction false} LongerSuffixesOverflow(ms: seq<Message>, used: nat, cap: int, j: nat)
    requires j < |ms| - |StopKeep(ms, used, cap)|
    ensures used + Chars(ms[j..]) > cap
  {
    var front, last := ms[..|ms| - 1], ms[|ms| - 1];
    CharsSplitLast(ms, j);
    if used + |last.content| <= cap {
      LongerSuffixesOverflow(front, used + |last.content|, cap, j);
    }
  }

  /** Stopping keeps the longest suffix that fits: nothing longer does. */
  lemma StopKeepsLongestSuffix(ms: seq<Message>, used: nat, cap: int)
    ensures var kept := StopKeep(ms, used, cap); var start := |ms| - |kept|;
      && 0 <= start && kept == ms[start..]
      && (kept != [] ==> used + Chars(kept) <= cap)
      && forall j :: 0 <= j < start ==> used + Chars(ms[j..]) > cap
  {
    StopKeepsSuffix(ms, used, cap);
    StopFits(ms, used, cap);
    forall j | 0 <= j < |ms| - |StopKeep(ms, used, cap)| ensures used + Chars(ms[j..]) > cap {
      LongerSuffixesOverflow(ms, used, cap, j);
    }
  }

  /** Skipping, told from the oldest message on: a message is kept exactly when it fits
      beside the later ones kept. */
  lemma {:induction false} SkipKeepsWhatFitsBesideLater(m: Message, later: seq<Message>, used: nat, cap: int)
    ensures var kept := SkipKeep(later, used, cap);
      SkipKeep([m] + later, used, cap) == if used + Chars(kept) + |m.content| <= cap then [m] + kept else kept
  {
    var all := [m] + later;
    if later == [] {
      assert all == [m] && all[..0] == [];
    } else {
      var front, last := later[..|later| - 1], later[|later| - 1];
      assert all[..|all| - 1] == [m] + front && all[|all| - 1] == last;
      if used + |last.content| <= cap {
        SkipKeepsWhatFitsBesideLater(m, front, used + |last.content|, cap);
        var k := SkipKeep(front, used + |last.content|, cap);
        CharsOneMore(k, last);
        assert [m] + (k + [last]) == ([m] + k) + [last];
      } else {
        SkipKeepsWhatFitsBesideLater(m, front, used, cap);
      }
    }
  }

  /** `a` is `b` with some messages left out. */
  ghost predicate Subsequence(a: seq<Message>, b: seq<Message>) {
    a == [] || (b != [] &&
      (Subsequence(a, b[..|b| - 1]) || (a[|a| - 1] == b[|b| - 1] && Subsequence(a[..|a| - 1], b[..|b| - 1]))))
  }

  lemma {:induction false} SkipKeepsOrder(ms: seq<Message>, used: nat, cap: int)
    ensures Subsequence(SkipKeep(ms, used, cap), ms)
  {
    if ms != [] {
      var front, last := ms[..|ms| - 1], ms[|ms| - 1];
      SkipKeepsOrder(front, used + |last.content|, cap);
      SkipKeepsOrder(front, used, cap);
      var k := SkipKeep(front, used + |last.content|, cap);
      assert (k + [last])[..|k|] == k;
    }
  }

  lemma {:induction false} SkipEndsWithStop(ms: seq<Message>, used: nat, cap: int)
    ensures |StopKeep(ms, used, cap)| <= |SkipKeep(ms, used, cap)|
    ensures SkipKeep(ms, used, cap)[|SkipKeep(ms, used, cap)| - |StopKeep(ms, used, cap)|..] == StopKeep(ms, used, cap)
  {
    if ms != [] && used + |ms[|ms| - 1].content| <= cap {
      var front, last := ms[..|ms| - 1], ms[|ms| - 1];
      SkipEndsWithStop(front, used + |last.content|, cap);
      var skip := SkipKeep(front, used + |last.content|, cap);
      SuffixGrows(skip + [last], |StopKeep(front, used + |last.content|, cap)|);
      assert (skip + [last])[..|skip|] == skip;
    }
  }

  /** Skipping keeps messages in order, and at least those that stopping would keep. */
  lemma {:induction false} SkipKeepsMoreThanStop(ms: seq<Message>, used: nat, cap: int)
    ensures var skip, stop := SkipKeep(ms, used, cap), StopKeep(ms, used, cap);
      Subsequence(skip, ms) && |stop| <= |skip| && skip[|skip| - |stop|..] == stop
  {
    SkipKeepsOrder(ms, used, cap);
    SkipEndsWithStop(ms, used, cap);
  }

  lemma {:induction false} StopOfSuffix(ms: seq<Message>, n: nat, used: nat, cap: int)
    requires n <= |ms|
    ensures var all := StopKeep(ms, used, cap);
      StopKeep(ms[|ms| - n..], used, cap) == all[|all| - Min(n, |all|)..]
  {
    if ms != [] && 0 < n {
      var front, last := ms[..|ms| - 1], ms[|ms| - 1];
      var tail := ms[|ms| - n..];
      assert tail[..|tail| - 1] == front[|front| - (n - 1)..];
      if used + |last.content| <= cap {
        StopOfSuffix(front, n - 1, used + |last.content|, cap);
      }
    }
  }

  /** Looking only at the last N keeps the last N of what stopping keeps, for N from 1 up;
      an N of zero looks at everything. */
  lemma RecentKeepsLastOfStop(messages: seq<Message>, budget: int, keepLastN: nat)
    ensures var stop := StopKeep(Others(messages), Chars(System(messages)), budget * 4);
      var n := if keepLastN == 0 then |stop| else Min(keepLastN, |stop|);
      Recent(messages, budget, keepLastN) == System(messages) + stop[|stop| - n..]
  {
    var others := Others(messages);
    var stop := StopKeep(others, Chars(System(messages)), budget * 4);
    if keepLastN == 0 {
      assert From(others, 0) == others;
      assert stop[0..] == stop;
    } else {
      var n := Min(keepLastN, |others|);
      assert From(others, -(keepLastN as int)) == others[|others| - n..];
      StopOfSuffix(others, n, Chars(System(messages)), budget * 4);
      StopKeepsLongestSuffix(others, Chars(System(messages)), budget * 4);
    }
  }

  // ----- the bound

  lemma {:induction false} SkipFits(ms: seq<Message>, used: nat, cap: int)
    ensures SkipKeep(ms, used, cap) == [] || used + Chars(SkipKeep(ms, used, cap)) <= cap
  {
    if ms != [] {
      var front, last := ms[..|ms| - 1], ms[|ms| - 1];
      if used + |last.content| <= cap {
        SkipFits(front, used + |last.content|, cap);
        CharsOneMore(SkipKeep(front, used + |last.content|, cap), last);
      } else {
        SkipFits(front, used, cap);
      }
    }
  }

  function Max(a: int, b: int): int {
    if a >= b then a else b
  }

  /** No loop keeps more characters than the budget allows, or than the system messages
      alone already take. */
  lemma TruncationBound(messages: seq<Message>, budget: int, keepLastN: int)
    ensures var limit := Max(4 * budget, Chars(System(messages)));
      && Chars(Stopped(messages, budget)) <= limit
      && Chars(Recent(messages, budget, keepLastN)) <= limit
      && Chars(Skipped(messages, budget)) <= limit
  {
    var used := Chars(System(messages));
    var recent := From(Others(messages), -keepLastN);
    StopKeepsLongestSuffix(Others(messages), used, budget * 4);
    StopKeepsLongestSuffix(recent, used, budget * 4);
    SkipFits(Others(messages), used, budget * 4);
    CharsAppend(System(messages), StopKeep(Others(messages), used, budget * 4));
    CharsAppend(System(messages), StopKeep(recent, used, budget * 4));
    CharsAppend(System(messages), SkipKeep(Others(messages), used, budget * 4));
  }

  // ----- a second application changes nothing

  lemma {:induction false} AllThatFitsStays(ms: seq<Message>, used: nat, cap: int)
    requires ms == [] || used + Chars(ms) <= cap
    ensures StopKeep(ms, used, cap) == ms && SkipKeep(ms, used, cap) == ms
  {
    if ms != [] {
      AllThatFitsStays(ms[..|ms| - 1], used + |ms[|ms| - 1].content|, cap);
    }
  }

  lemma SplitOfResult(system: seq<Message>, kept: seq<Message>)
    requires forall m :: m in system ==> IsSystem()(m)
    requires forall m :: m in kept ==> IsOther()(m)
    ensures System(system + kept) == system && Others(system + kept) == kept
  {
    FilterAppend(system, kept, IsSystem());
    FilterAppend(system, kept, IsOther());
    FilterAll(system, IsSystem());
    FilterNone(system, IsOther());
    FilterAll(kept, IsOther());
    FilterNone(kept, IsSystem());
  }

  lemma {:induction false} SkipKeepsMembers(ms: seq<Message>, used: nat, cap: int)
    ensures forall m :: m in SkipKeep(ms, used, cap) ==> m in ms
  {
    if ms != [] {
      var front, last := ms[..|ms| - 1], ms[|ms| - 1];
      SkipKeepsMembers(front, used + |last.content|, cap);
      SkipKeepsMembers(front, used, cap);
    }
  }

  lemma TruncationIsIdempotent(messages: seq<Message>, budget: int, keepLastN: nat)
    ensures Stopped(Stopped(messages, budget), budget) == Stopped(messages, budget)
    ensures Skipped(Skipped(messages, budget), budget) == Skipped(messages, budget)
    ensures Recent(Recent(messages, budget, keepLastN), budget, keepLastN) == Recent(messages, budget, keepLastN)
  {
    var system, others := System(messages), Others(messages);
    var used, cap := Chars(system), budget * 4;
    var stop, skip := StopKeep(others, used, cap), SkipKeep(others, used, cap);
    StopKeepsLongestSuffix(others, used, cap);
    SkipFits(others, used, cap);
    SkipKeepsMembers(others, used, cap);
    SplitOfResult(system, stop);
    SplitOfResult(system, skip);
    AllThatFitsStays(stop, used, cap);
    AllThatFitsStays(skip, used, cap);
    RecentIsIdempotent(messages, budget, keepLastN);
  }

  lemma RecentIsIdempotent(messages: seq<Message>, budget: int, keepLastN: nat)
    ensures Recent(Recent(messages, budget, keepLastN), budget, keepLastN) == Recent(messages, budget, keepLastN)
  {
    var system := System(messages);
    var used, cap := Chars(system), budget * 4;
    var recent := From(Others(messages), -(keepLastN as int));
    var kept := StopKeep(recent, used, cap);
    StopKeepsLongestSuffix(recent, used, cap);
    SplitOfResult(system, kept);
    AllThatFitsStays(kept, used, cap);
    assert From(kept, -(keepLastN as int)) == kept;
  }

  // ----- tokens of the rendered text

  function Overhead(messages: seq<Message>): nat {
    if messages == [] then 0 else Overhead(messages[..|messages| - 1]) + |messages[|messages| - 1].role| + 5
  }

  lemma {:induction false} RenderedLength(messages: seq<Message>)
    ensures |Rendered(messages)| <= Chars(messages) + Overhead(messages)
    ensures Pieces(messages) != [] ==> |Rendered(messages)| + 2 <= Chars(messages) + Overhead(messages)
  {
    if messages != [] {
      var front, last := messages[..|messages| - 1], messages[|messages| - 1];
      RenderedLength(front);
      if Piece(last).Some? {
        assert |Piece(last).value| <= |last.content| + |last.role| + 3;
        assert Pieces(messages)[..|Pieces(front)|] == Pieces(front);
      }
    }
  }

  /** When the system messages fit, the rendered tokens exceed the budget by no more than
      the role tags and separators account for. */
  lemma RenderedTokensBound(messages: seq<Message>, budget: int, keepLastN: int, kept: seq<Message>)
    requires Chars(System(messages)) <= 4 * budget
    requires kept == Stopped(messages, budget) || kept == Recent(messages, budget, keepLastN) || kept == Skipped(messages, budget)
    ensures |Rendered(kept)| / 4 <= budget + Overhead(kept) / 4
  {
    TruncationBound(messages, budget, keepLastN);
    RenderedLength(kept);
  }
}
