/** Whole runs of the hot tier. A usage call reads the shared cache and later writes it back,
    and between the two any other call may run; a warming is one write. Each step below is
    one cache call, so a run is any interleaving of them. */
module TieredUsage {
  import opened PyCollections
  import opened ContextModels
  import opened TieredRouter

  // ----- what has been written under one scope

  /** A write that reached the cache: a warming, or a usage call that had read the cache when
      `base` writes had been made. */
  datatype Landing = Warming(items: seq<ContextItem>) | Usage(ids: set<string>, base: nat)

  type Log = seq<Landing>

  ghost predicate Formed(log: Log) {
    forall i :: 0 <= i < |log| && log[i].Usage? ==> 1 <= log[i].base <= i
  }

  /** What the last write put there: each usage call writes what it had read, bumped. */
  ghost function Content(log: Log): seq<ContextItem>
    requires Formed(log) && log != []
  {
    match log[|log| - 1]
    case Warming(items) => items
    case Usage(ids, base) => Bumped(Content(log[..base]), ids)
  }

  /** The warming the content comes from. */
  ghost function Root(log: Log): (r: nat)
    requires Formed(log) && log != []
    ensures r < |log| && log[r].Warming?
  {
    if log[|log| - 1].Warming? then |log| - 1 else Root(log[..log[|log| - 1].base])
  }

  /** The usage calls whose bumps the content still has. */
  ghost function Kept(log: Log): (r: set<nat>)
    requires Formed(log) && log != []
    ensures forall i :: i in r ==> Root(log) < i < |log| && log[i].Usage?
  {
    if log[|log| - 1].Warming? then {} else Kept(log[..log[|log| - 1].base]) + {|log| - 1}
  }

  ghost function LastWarming(log: Log): (r: nat)
    requires Formed(log) && log != []
    ensures r < |log| && log[r].Warming? && forall i :: r < i < |log| ==> log[i].Usage?
  {
    if log[|log| - 1].Warming? then |log| - 1 else LastWarming(log[..|log| - 1])
  }

  predicate Names(l: Landing, id: string) {
    l.Usage? && id in l.ids
  }

  /** How many usage calls written after position `from` name the item. */
  function Uses(log: Log, from: nat, id: string): nat {
    if |log| <= from + 1 then 0 else Uses(log[..|log| - 1], from, id) + (if Names(log[|log| - 1], id) then 1 else 0)
  }

  /** The same of the calls the content still has. */
  ghost function KeptUses(log: Log, id: string): nat
    requires Formed(log) && log != []
  {
    var last := log[|log| - 1];
    if last.Warming? then 0 else KeptUses(log[..last.base], id) + (if id in last.ids then 1 else 0)
  }

  /** No write came between the read and the write of a usage call after position `from`. */
  ghost predicate Undisturbed(log: Log, from: nat) {
    forall i :: from < i < |log| ==> log[i].Usage? && log[i].base == i
  }

  lemma {:induction false} BumpedAt(items: seq<ContextItem>, ids: set<string>)
    ensures |Bumped(items, ids)| == |items|
    ensures forall i :: 0 <= i < |items| ==>
      Bumped(items, ids)[i] == if items[i].itemId in ids then items[i].(activeCount := items[i].activeCount + 1) else items[i]
  {
    if items != [] {
      BumpedAt(items[..|items| - 1], ids);
    }
  }

  /** The content is that of its root warming, each item with the uses still there added. */
  lemma {:induction false} ContentCounts(log: Log)
    requires Formed(log) && log != []
    ensures var root := log[Root(log)].items;
      && |Content(log)| == |root|
      && forall j :: 0 <= j < |root| ==>
           Content(log)[j] == root[j].(activeCount := root[j].activeCount + KeptUses(log, root[j].itemId))
  {
    var last := log[|log| - 1];
    if last.Usage? {
      ContentCounts(log[..last.base]);
      BumpedAt(Content(log[..last.base]), last.ids);
    }
  }

  lemma {:induction false} UsesGrow(log: Log, from: nat, n: nat, id: string)
    requires from < n <= |log|
    ensures Uses(log[..n], from, id) <= Uses(log, from, id)
    ensures Uses(log[..n], from, id) == Uses(log, from, id) <==> forall i :: n <= i < |log| ==> !Names(log[i], id)
  {
    if n < |log| {
      var front := log[..|log| - 1];
      assert front[..n] == log[..n];
      UsesGrow(front, from, n, id);
      assert forall i :: n <= i < |front| ==> front[i] == log[i];
    } else {
      assert log[..n] == log;
    }
  }

  /** All the uses of an item are still there exactly when no write that named it was
      overwritten unread. */
  lemma {:induction false} KeptUsesAre(log: Log, id: string)
    requires Formed(log) && log != []
    ensures KeptUses(log, id) <= Uses(log, Root(log), id)
    ensures KeptUses(log, id) == Uses(log, Root(log), id)
      <==> forall i :: Root(log) < i < |log| && Names(log[i], id) ==> i in Kept(log)
  {
    var last := log[|log| - 1];
    if last.Usage? {
      var read, front := log[..last.base], log[..|log| - 1];
      KeptUsesAre(read, id);
      assert front[..last.base] == read;
      UsesGrow(front, Root(log), last.base, id);
      assert forall i :: 0 <= i < |front| ==> front[i] == log[i];
      assert forall i :: 0 <= i < |read| ==> read[i] == log[i];
    }
  }

  /** In every interleaving the counts lie between the warmed ones and those with every use
      since added; a single item's count is exact if and only if no write that named it was
      overwritten by a call that had not read it. */
  lemma CountIsExactIff(log: Log, j: nat)
    requires Formed(log) && log != [] && j < |log[Root(log)].items|
    ensures var warmed := log[Root(log)].items[j];
      && |Content(log)| == |log[Root(log)].items|
      && warmed.activeCount <= Content(log)[j].activeCount
                            <= warmed.activeCount + Uses(log, Root(log), warmed.itemId)
      && Content(log)[j] == warmed.(activeCount := Content(log)[j].activeCount)
      && (Content(log)[j].activeCount == warmed.activeCount + Uses(log, Root(log), warmed.itemId)
          <==> forall i :: Root(log) < i < |log| && Names(log[i], warmed.itemId) ==> i in Kept(log))
  {
    ContentCounts(log);
    KeptUsesAre(log, log[Root(log)].items[j].itemId);
  }

  /** The content comes from the last warming and has every use written since. */
  ghost predicate NothingLost(log: Log)
    requires Formed(log) && log != []
  {
    Root(log) == LastWarming(log) && forall i :: LastWarming(log) < i < |log| ==> i in Kept(log)
  }

  lemma {:induction false} UndisturbedLosesNothing(log: Log)
    requires Formed(log) && log != [] && Undisturbed(log, LastWarming(log))
    ensures NothingLost(log)
  {
    if log[|log| - 1].Usage? {
      UndisturbedLosesNothing(log[..|log| - 1]);
    }
  }

  lemma {:induction false} NothingLostIsUndisturbed(log: Log)
    requires Formed(log) && log != [] && NothingLost(log)
    ensures Undisturbed(log, LastWarming(log))
  {
    var last := log[|log| - 1];
    if last.Usage? {
      var front := log[..|log| - 1];
      assert last.base == |log| - 1 by {
        assert |log| - 2 == LastWarming(log) || |log| - 2 in Kept(log);
      }
      forall i | LastWarming(front) < i < |front| ensures i in Kept(front) {
        assert i in Kept(log);
      }
      NothingLostIsUndisturbed(front);
    }
  }

  /** The cache holds the last warming with every use written since if and only if nothing
      was written on the scope between the read and the write of any of them. */
  lemma NothingLostIffUndisturbed(log: Log)
    requires Formed(log) && log != []
    ensures NothingLost(log) <==> Undisturbed(log, LastWarming(log))
  {
    if Undisturbed(log, LastWarming(log)) {
      UndisturbedLosesNothing(log);
    }
    if NothingLost(log) {
      NothingLostIsUndisturbed(log);
    }
  }

  /** The last warming with every use written since added. */
  ghost predicate CountsEveryUse(log: Log, items: seq<ContextItem>)
    requires Formed(log) && log != []
  {
    var w := LastWarming(log);
    && |items| == |log[w].items|
    && forall j :: 0 <= j < |items| ==>
         items[j] == log[w].items[j].(activeCount := log[w].items[j].activeCount + Uses(log, w, log[w].items[j].itemId))
  }

  /** A call writes only when it named an item it had read. */
  ghost predicate Effective(log: Log)
    requires Formed(log)
  {
    forall i :: 0 <= i < |log| && log[i].Usage? ==> NamesSome(Content(log[..log[i].base]), log[i].ids)
  }

  predicate NamesSome(items: seq<ContextItem>, ids: set<string>) {
    exists item :: item in items && item.itemId in ids
  }

  /** Every call that wrote after the last warming had also read after it. */
  ghost predicate NoneStale(log: Log)
    requires Formed(log) && log != []
  {
    forall i :: LastWarming(log) < i < |log| ==> LastWarming(log) < log[i].base
  }

  lemma {:induction false} RootsAreLast(log: Log, n: nat)
    requires Formed(log) && log != [] && NoneStale(log) && LastWarming(log) < n <= |log|
    ensures Root(log[..n]) == LastWarming(log)
    decreases n
  {
    var part := log[..n];
    if n - 1 > LastWarming(log) {
      assert part[..part[n - 1].base] == log[..log[n - 1].base];
      RootsAreLast(log, log[n - 1].base);
    }
  }

  /** A call that had read after the last warming names an item of that warming. */
  lemma NamesAWarmedItem(log: Log, i: nat) returns (j: nat)
    requires Formed(log) && log != [] && NoneStale(log) && Effective(log) && LastWarming(log) < i < |log|
    ensures j < |log[LastWarming(log)].items| && Names(log[i], log[LastWarming(log)].items[j].itemId)
  {
    var read := log[..log[i].base];
    RootsAreLast(log, log[i].base);
    ContentCounts(read);
    assert NamesSome(Content(read), log[i].ids);
    var item :| item in Content(read) && item.itemId in log[i].ids;
    j :| 0 <= j < |Content(read)| && Content(read)[j] == item;
  }

  lemma CountingEveryUseKeepsAll(log: Log)
    requires Formed(log) && log != [] && Effective(log) && NoneStale(log) && CountsEveryUse(log, Content(log))
    ensures NothingLost(log)
  {
    assert log[..|log|] == log;
    RootsAreLast(log, |log|);
    forall i | LastWarming(log) < i < |log| ensures i in Kept(log) {
      var j := NamesAWarmedItem(log, i);
      CountIsExactIff(log, j);
    }
  }

  lemma UndisturbedCountsEveryUse(log: Log)
    requires Formed(log) && log != [] && Undisturbed(log, LastWarming(log))
    ensures CountsEveryUse(log, Content(log))
  {
    UndisturbedLosesNothing(log);
    ContentCounts(log);
    forall j | 0 <= j < |Content(log)|
      ensures Content(log)[j].activeCount
        == log[Root(log)].items[j].activeCount + Uses(log, Root(log), log[Root(log)].items[j].itemId)
    {
      CountIsExactIff(log, j);
    }
  }

  // ----- the calls

  /** A usage call between its read and its write; the last two fields are history. */
  datatype Pending = Pending(scopeId: string, data: seq<ContextItem>, ids: set<string>, base: nat)

  /** `logs` is history, written by the steps and never read by them. */
  datatype State = State(cache: HotCache, pending: map<nat, Pending>, logs: map<string, Log>)

  /** `Read` and `Write` are the two cache calls of usage call `call`; a call that reads again
      has given up what it had read. */
  datatype Step =
    | Warm(scopeId: string, items: seq<ContextItem>, ttl: Option<int>, now: real, up: bool)
    | Read(call: nat, scopeId: string, ids: set<string>, now: real, up: bool)
    | Write(call: nat, now: real, up: bool)

  function LogOf(st: State, scopeId: string): Log {
    if scopeId in st.logs then st.logs[scopeId] else []
  }

  function Landed(st: State, scopeId: string, l: Landing): map<string, Log> {
    st.logs[scopeId := LogOf(st, scopeId) + [l]]
  }

  /** A warming that reaches the cache: something to store, a working cache, a time to live. */
  predicate Stores(s: Settings, step: Step) {
    step.Warm? && step.up && Filter(step.items, IsVariable()) != []
    && 0 < (if step.ttl.Some? && step.ttl.value != 0 then step.ttl.value else s.hotTtl)
  }

  function Apply(s: Settings, st: State, step: Step): State {
    match step
    case Warm(scopeId, items, ttl, now, up) =>
      st.(cache := Warmed(s, st.cache, scopeId, items, ttl, now, up),
          logs := if Stores(s, step) then Landed(st, scopeId, Warming(Filter(items, IsVariable()))) else st.logs)
    case Read(call, scopeId, ids, now, up) =>
      var data := UsageRead(st.cache, scopeId, ids, now, up);
      st.(pending := if data.None? then st.pending - {call}
                     else st.pending[call := Pending(scopeId, data.value, ids, |LogOf(st, scopeId)|)])
    case Write(call, now, up) =>
      if call !in st.pending then st
      else
        var p := st.pending[call];
        st.(cache := UsageWritten(s, st.cache, p.scopeId, p.data, now, up),
            pending := st.pending - {call},
            logs := if up then Landed(st, p.scopeId, Usage(p.ids, p.base)) else st.logs)
  }

  const INIT := State(map[], map[], map[])

  function Run(s: Settings, steps: seq<Step>): State {
    if steps == [] then INIT else Apply(s, Run(s, steps[..|steps| - 1]), steps[|steps| - 1])
  }

  // ----- the cache follows the logs

  ghost predicate AllVariable(log: Log) {
    forall i :: 0 <= i < |log| && log[i].Warming? ==> forall item :: item in log[i].items ==> IsVariable()(item)
  }

  ghost predicate GoodLog(log: Log) {
    log != [] && Formed(log) && Effective(log) && AllVariable(log)
  }

  /** `p` holds what it read, bumped. */
  ghost predicate FromRead(p: Pending, log: Log) {
    && Formed(log) && 1 <= p.base <= |log|
    && p.data == Bumped(Content(log[..p.base]), p.ids) && NamesSome(Content(log[..p.base]), p.ids)
  }

  /** What the cache holds under the scope is the content of its log. */
  ghost predicate ScopeFollows(st: State, scopeId: string) {
    && (scopeId in st.cache <==> scopeId in st.logs)
    && (scopeId in st.logs ==> GoodLog(st.logs[scopeId]) && st.cache[scopeId].items == Content(st.logs[scopeId]))
  }

  ghost predicate CallFollows(st: State, call: nat) {
    call in st.pending ==> FromRead(st.pending[call], LogOf(st, st.pending[call].scopeId))
  }

  ghost predicate Follows(st: State) {
    (forall scopeId :: ScopeFollows(st, scopeId)) && (forall call :: CallFollows(st, call))
  }

  /** Appending a landing leaves what earlier writes put there as it was. */
  lemma GrowGood(log: Log, l: Landing)
    requires log == [] || GoodLog(log)
    requires l.Warming? ==> forall item :: item in l.items ==> IsVariable()(item)
    requires l.Usage? ==> 1 <= l.base <= |log| && NamesSome(Content(log[..l.base]), l.ids)
    ensures GoodLog(log + [l])
  {
    var longer := log + [l];
    forall i | 0 <= i < |longer| && longer[i].Usage?
      ensures NamesSome(Content(longer[..longer[i].base]), longer[i].ids)
    {
      assert longer[..longer[i].base] == log[..longer[i].base];
      assert i < |log| ==> log[i] == longer[i];
    }
  }

  lemma GrowFromRead(p: Pending, log: Log, l: Landing)
    requires FromRead(p, log) && Formed(log + [l])
    ensures FromRead(p, log + [l])
  {
    assert (log + [l])[..p.base] == log[..p.base];
  }

  function AfterLanding(st: State, scopeId: string, l: Landing, entry: HotEntry): State {
    st.(cache := st.cache[scopeId := entry], logs := Landed(st, scopeId, l))
  }

  /** The landing writes what it should: the items warmed, or what the call had read, bumped. */
  ghost predicate Fits(log: Log, scopeId: string, l: Landing, items: seq<ContextItem>) {
    match l
    case Warming(warmed) => items == warmed && forall item :: item in warmed ==> IsVariable()(item)
    case Usage(ids, base) => FromRead(Pending(scopeId, items, ids, base), log)
  }

  lemma LandingKeepsScope(st: State, scopeId: string, l: Landing, entry: HotEntry)
    requires ScopeFollows(st, scopeId) && Fits(LogOf(st, scopeId), scopeId, l, entry.items)
    ensures ScopeFollows(AfterLanding(st, scopeId, l, entry), scopeId)
  {
    var log := LogOf(st, scopeId);
    GrowGood(log, l);
    assert l.Usage? ==> (log + [l])[..l.base] == log[..l.base];
  }

  lemma LandingKeepsCall(st: State, scopeId: string, l: Landing, entry: HotEntry, call: nat)
    requires ScopeFollows(st, scopeId) && CallFollows(st, call) && Fits(LogOf(st, scopeId), scopeId, l, entry.items)
    ensures CallFollows(AfterLanding(st, scopeId, l, entry), call)
  {
    if call in st.pending && st.pending[call].scopeId == scopeId {
      GrowGood(LogOf(st, scopeId), l);
      GrowFromRead(st.pending[call], LogOf(st, scopeId), l);
    }
  }

  lemma LandingFollows(st: State, scopeId: string, l: Landing, entry: HotEntry)
    requires Follows(st) && Fits(LogOf(st, scopeId), scopeId, l, entry.items)
    ensures Follows(AfterLanding(st, scopeId, l, entry))
  {
    var st' := AfterLanding(st, scopeId, l, entry);
    assert ScopeFollows(st, scopeId);
    forall other ensures ScopeFollows(st', other) {
      if other == scopeId {
        LandingKeepsScope(st, scopeId, l, entry);
      } else {
        assert ScopeFollows(st, other);
      }
    }
    forall call ensures CallFollows(st', call) {
      assert CallFollows(st, call);
      LandingKeepsCall(st, scopeId, l, entry, call);
    }
  }

  /** Changing one pending call leaves everything else as it was. */
  lemma PendingFollows(st: State, st': State, call: nat)
    requires Follows(st) && st'.cache == st.cache && st'.logs == st.logs
    requires forall other :: other in st'.pending && other != call ==> other in st.pending && st'.pending[other] == st.pending[other]
    requires CallFollows(st', call)
    ensures Follows(st')
  {
    forall scopeId ensures ScopeFollows(st', scopeId) {
      assert ScopeFollows(st, scopeId);
    }
    forall other ensures CallFollows(st', other) {
      assert CallFollows(st, other);
    }
  }

  lemma WarmFollows(s: Settings, st: State, step: Step)
    requires Follows(st) && step.Warm?
    ensures Follows(Apply(s, st, step))
  {
    if Stores(s, step) {
      var effective := if step.ttl.Some? && step.ttl.value != 0 then step.ttl.value else s.hotTtl;
      var data := Filter(step.items, IsVariable());
      LandingFollows(st, step.scopeId, Warming(data), HotEntry(data, step.now + effective as real));
    }
  }

  lemma ReadFollows(s: Settings, st: State, step: Step)
    requires Follows(st) && step.Read?
    ensures Follows(Apply(s, st, step))
  {
    var st', log := Apply(s, st, step), LogOf(st, step.scopeId);
    assert ScopeFollows(st, step.scopeId);
    assert log[..|log|] == log;
    if UsageRead(st.cache, step.scopeId, step.ids, step.now, step.up).Some? {
      assert FromRead(st'.pending[step.call], log);
    }
    PendingFollows(st, st', step.call);
  }

  lemma WriteFollows(s: Settings, st: State, step: Step)
    requires Follows(st) && step.Write?
    ensures Follows(Apply(s, st, step))
  {
    if step.call in st.pending {
      var p, given := st.pending[step.call], st.(pending := st.pending - {step.call});
      assert CallFollows(st, step.call);
      PendingFollows(st, given, step.call);
      if step.up {
        LandingFollows(given, p.scopeId, Usage(p.ids, p.base), HotEntry(p.data, step.now + s.hotTtl as real));
      }
    }
  }

  lemma {:induction false} RunFollows(s: Settings, steps: seq<Step>)
    ensures Follows(Run(s, steps))
  {
    if steps != [] {
      var st, step := Run(s, steps[..|steps| - 1]), steps[|steps| - 1];
      RunFollows(s, steps[..|steps| - 1]);
      match step
      case Warm(_, _, _, _, _) => WarmFollows(s, st, step);
      case Read(_, _, _, _, _) => ReadFollows(s, st, step);
      case Write(_, _, _) => WriteFollows(s, st, step);
    }
  }

  // ----- what a hot search finds after any run

  /** Every interleaving: what a hot search finds is VARIABLE only, the first k items of the
      warming the entry comes from, and no count ever exceeds the warmed one plus the usage
      calls that have written since. */
  lemma HotSearchCountsUses(s: Settings, steps: seq<Step>, scopeId: string, topK: int, now: real)
    ensures var st := Run(s, steps); var found := HotItems(st.cache, scopeId, topK, now);
      found != [] ==>
        && scopeId in st.logs && GoodLog(st.logs[scopeId])
        && var log := st.logs[scopeId];
           var root := Take(log[Root(log)].items, topK);
           && |found| == |root|
           && forall i :: 0 <= i < |found| ==>
                && IsVariable()(found[i]) && found[i] == root[i].(activeCount := found[i].activeCount)
                && root[i].activeCount <= found[i].activeCount
                                       <= root[i].activeCount + Uses(log, Root(log), root[i].itemId)
  {
    var st := Run(s, steps);
    RunFollows(s, steps);
    assert ScopeFollows(st, scopeId);
    var entry := Visible(st.cache, scopeId, now);
    if entry.Some? {
      var log := st.logs[scopeId];
      ContentCounts(log);
      forall i | 0 <= i < |Content(log)|
        ensures IsVariable()(Content(log)[i])
        ensures var w := log[Root(log)].items[i];
          && Content(log)[i] == w.(activeCount := Content(log)[i].activeCount)
          && w.activeCount <= Content(log)[i].activeCount <= w.activeCount + Uses(log, Root(log), w.itemId)
      {
        CountIsExactIff(log, i);
        assert log[Root(log)].items[i] in log[Root(log)].items;
      }
    }
  }

  /** An entry counts every use written since the last warming whenever no write came between
      the read and the write of any of them; and, unless one of them had read before that
      warming, only then. */
  lemma EveryUseCountsIff(s: Settings, steps: seq<Step>, scopeId: string)
    requires scopeId in Run(s, steps).cache
    ensures var st := Run(s, steps);
      && scopeId in st.logs && GoodLog(st.logs[scopeId])
      && var log, items := st.logs[scopeId], st.cache[scopeId].items;
         && (Undisturbed(log, LastWarming(log)) ==> CountsEveryUse(log, items))
         && (NoneStale(log) ==> (CountsEveryUse(log, items) <==> Undisturbed(log, LastWarming(log))))
  {
    RunFollows(s, steps);
    assert ScopeFollows(Run(s, steps), scopeId);
    var log := Run(s, steps).logs[scopeId];
    if Undisturbed(log, LastWarming(log)) {
      UndisturbedCountsEveryUse(log);
    }
    if NoneStale(log) && CountsEveryUse(log, Content(log)) {
      CountingEveryUseKeepsAll(log);
      NothingLostIsUndisturbed(log);
    }
  }

  // ----- calls that do not overlap

  /** Each cache write of a usage call directly follows its read. */
  ghost predicate Serial(steps: seq<Step>) {
    forall i :: 0 <= i < |steps| && steps[i].Write? ==> 0 < i && steps[i - 1].Read? && steps[i - 1].call == steps[i].call
  }

  ghost predicate AllUndisturbed(st: State) {
    forall scopeId, i :: scopeId in st.logs && 0 <= i < |st.logs[scopeId]| && st.logs[scopeId][i].Usage? ==>
      st.logs[scopeId][i].base == i
  }

  lemma RunStep(s: Settings, steps: seq<Step>, step: Step)
    ensures Run(s, steps + [step]) == Apply(s, Run(s, steps), step)
  {
    assert (steps + [step])[..|steps|] == steps;
  }

  /** A pending call left by the last step has read the log as it stands. */
  lemma ReadIsFresh(s: Settings, st: State, read: Step, write: Step)
    requires read.Read? && write.Write? && read.call == write.call && AllUndisturbed(st)
    ensures AllUndisturbed(Apply(s, Apply(s, st, read), write))
  {
  }

  lemma {:induction false} SerialRunsAreUndisturbed(s: Settings, steps: seq<Step>)
    requires Serial(steps)
    ensures AllUndisturbed(Run(s, steps))
    decreases |steps|
  {
    if steps != [] {
      var front, step := steps[..|steps| - 1], steps[|steps| - 1];
      SerialRunsAreUndisturbed(s, front);
      if step.Write? {
        var before, read := front[..|front| - 1], front[|front| - 1];
        assert Serial(before);
        SerialRunsAreUndisturbed(s, before);
        ReadIsFresh(s, Run(s, before), read, step);
      }
    }
  }

  /** So when usage calls never overlap another write, what the cache holds is the last
      warming with every use written since added. */
  lemma SerialUsesAllCount(s: Settings, steps: seq<Step>, scopeId: string)
    requires Serial(steps) && scopeId in Run(s, steps).cache
    ensures var st := Run(s, steps);
      scopeId in st.logs && GoodLog(st.logs[scopeId]) && CountsEveryUse(st.logs[scopeId], st.cache[scopeId].items)
  {
    SerialRunsAreUndisturbed(s, steps);
    EveryUseCountsIff(s, steps, scopeId);
  }

  // ----- calls that do

  lemma OneItem(item: ContextItem, ids: set<string>)
    requires IsVariable()(item)
    ensures Filter([item], IsVariable()) == [item]
    ensures item.itemId in ids ==> Bumped([item], ids) == [item.(activeCount := item.activeCount + 1)]
  {
    assert [item][..0] == [];
  }

  lemma RunOfFour(s: Settings, a: Step, b: Step, c: Step, d: Step)
    ensures Run(s, [a, b, c, d]) == Apply(s, Apply(s, Apply(s, Apply(s, INIT, a), b), c), d)
  {
    RunStep(s, [], a);
    RunStep(s, [a], b);
    RunStep(s, [a, b], c);
    RunStep(s, [a, b, c], d);
    assert [] + [a] == [a] && [a] + [b] == [a, b] && [a, b] + [c] == [a, b, c] && [a, b, c] + [d] == [a, b, c, d];
  }

  /** A warming with one item, and what a usage call that names it then reads. */
  lemma WarmThenRead(s: Settings, item: ContextItem, scopeId: string, call: nat, st: State)
    requires IsVariable()(item) && 0 < s.hotTtl
    requires st.cache == map[scopeId := HotEntry([item], s.hotTtl as real)] && st.logs == map[scopeId := [Warming([item])]]
    ensures var bumped := [item.(activeCount := item.activeCount + 1)];
      Apply(s, st, Read(call, scopeId, {item.itemId}, 0.0, true))
        == st.(pending := st.pending[call := Pending(scopeId, bumped, {item.itemId}, 1)])
  {
    OneItem(item, {item.itemId});
    assert item in [item];
  }

  /** A warming and a write, when the scope is the only one. */
  lemma OnlyWarming(s: Settings, st: State, item: ContextItem, scopeId: string)
    requires IsVariable()(item) && 0 < s.hotTtl && st.cache.Keys <= {scopeId} && st.logs.Keys <= {scopeId}
    ensures Apply(s, st, Warm(scopeId, [item], None, 0.0, true))
      == State(map[scopeId := HotEntry([item], s.hotTtl as real)], st.pending, map[scopeId := LogOf(st, scopeId) + [Warming([item])]])
  {
    OneItem(item, {});
    assert Stores(s, Warm(scopeId, [item], None, 0.0, true));
    assert 0.0 + s.hotTtl as real == s.hotTtl as real;
  }

  lemma OnlyWrite(s: Settings, st: State, call: nat, scopeId: string)
    requires st.cache.Keys <= {scopeId} && st.logs.Keys <= {scopeId}
    requires call in st.pending && st.pending[call].scopeId == scopeId
    ensures var p := st.pending[call];
      Apply(s, st, Write(call, 0.0, true)) == State(map[scopeId := HotEntry(p.data, s.hotTtl as real)],
        st.pending - {call}, map[scopeId := LogOf(st, scopeId) + [Usage(p.ids, p.base)]])
  {
    assert 0.0 + s.hotTtl as real == s.hotTtl as real;
  }

  lemma FindsOne(s: Settings, cache: HotCache, item: ContextItem, scopeId: string)
    requires IsVariable()(item) && 0 < s.hotTtl && cache == map[scopeId := HotEntry([item], s.hotTtl as real)]
    ensures HotItems(cache, scopeId, 1, 0.0) == [item]
  {
  }

  /** Two usage calls that both read before either writes: the item gains one use, not two. */
  lemma OverlappingUsesLoseOne(s: Settings, item: ContextItem, scopeId: string)
    requires IsVariable()(item) && 0 < s.hotTtl
    ensures var ids := {item.itemId};
      var st := Run(s, [Warm(scopeId, [item], None, 0.0, true), Read(0, scopeId, ids, 0.0, true),
                        Read(1, scopeId, ids, 0.0, true), Write(0, 0.0, true), Write(1, 0.0, true)]);
      && HotItems(st.cache, scopeId, 1, 0.0) == [item.(activeCount := item.activeCount + 1)]
      && LogOf(st, scopeId) == [Warming([item]), Usage(ids, 1), Usage(ids, 1)]
      && Uses(LogOf(st, scopeId), 0, item.itemId) == 2
  {
    var ids := {item.itemId};
    var warm, read0, read1 := Warm(scopeId, [item], None, 0.0, true), Read(0, scopeId, ids, 0.0, true), Read(1, scopeId, ids, 0.0, true);
    var write0, write1 := Write(0, 0.0, true), Write(1, 0.0, true);
    RunOfFour(s, warm, read0, read1, write0);
    RunStep(s, [warm, read0, read1, write0], write1);
    assert [warm, read0, read1, write0] + [write1] == [warm, read0, read1, write0, write1];
    OverlapEnds(s, item, scopeId);
    TwoUses(item, ids);
  }

  lemma OverlapEnds(s: Settings, item: ContextItem, scopeId: string)
    requires IsVariable()(item) && 0 < s.hotTtl
    ensures var ids, bumped := {item.itemId}, item.(activeCount := item.activeCount + 1);
      var st3 := Apply(s, Apply(s, Apply(s, INIT, Warm(scopeId, [item], None, 0.0, true)),
                                Read(0, scopeId, ids, 0.0, true)), Read(1, scopeId, ids, 0.0, true));
      var st5 := Apply(s, Apply(s, st3, Write(0, 0.0, true)), Write(1, 0.0, true));
      && HotItems(st5.cache, scopeId, 1, 0.0) == [bumped]
      && LogOf(st5, scopeId) == [Warming([item]), Usage(ids, 1), Usage(ids, 1)]
  {
    var ids := {item.itemId};
    OnlyWarming(s, INIT, item, scopeId);
    assert LogOf(INIT, scopeId) + [Warming([item])] == [Warming([item])];
    var st1 := Apply(s, INIT, Warm(scopeId, [item], None, 0.0, true));
    WarmThenRead(s, item, scopeId, 0, st1);
    var st2 := Apply(s, st1, Read(0, scopeId, ids, 0.0, true));
    WarmThenRead(s, item, scopeId, 1, st2);
    var st3 := Apply(s, st2, Read(1, scopeId, ids, 0.0, true));
    OnlyWrite(s, st3, 0, scopeId);
    var st4 := Apply(s, st3, Write(0, 0.0, true));
    OnlyWrite(s, st4, 1, scopeId);
    FindsOne(s, Apply(s, st4, Write(1, 0.0, true)).cache, item.(activeCount := item.activeCount + 1), scopeId);
  }

  lemma TwoUses(item: ContextItem, ids: set<string>)
    requires item.itemId in ids
    ensures Uses([Warming([item]), Usage(ids, 1), Usage(ids, 1)], 0, item.itemId) == 2
  {
    var log := [Warming([item]), Usage(ids, 1), Usage(ids, 1)];
    assert log[..2] == [Warming([item]), Usage(ids, 1)] && log[..2][..1] == [Warming([item])];
    assert Uses(log[..2], 0, item.itemId) == 1;
  }

  /** A usage call that read before a warming and writes after it puts the older items back. */
  lemma StaleUseUndoesWarming(s: Settings, older: ContextItem, newer: ContextItem, scopeId: string)
    requires IsVariable()(older) && IsVariable()(newer) && 0 < s.hotTtl
    ensures var st := Run(s, [Warm(scopeId, [older], None, 0.0, true), Read(0, scopeId, {older.itemId}, 0.0, true),
                              Warm(scopeId, [newer], None, 0.0, true), Write(0, 0.0, true)]);
      && HotItems(st.cache, scopeId, 1, 0.0) == [older.(activeCount := older.activeCount + 1)]
      && LogOf(st, scopeId) == [Warming([older]), Warming([newer]), Usage({older.itemId}, 1)]
  {
    RunOfFour(s, Warm(scopeId, [older], None, 0.0, true), Read(0, scopeId, {older.itemId}, 0.0, true),
      Warm(scopeId, [newer], None, 0.0, true), Write(0, 0.0, true));
    StaleEnds(s, older, newer, scopeId);
  }

  lemma StaleEnds(s: Settings, older: ContextItem, newer: ContextItem, scopeId: string)
    requires IsVariable()(older) && IsVariable()(newer) && 0 < s.hotTtl
    ensures var ids := {older.itemId};
      var st2 := Apply(s, Apply(s, INIT, Warm(scopeId, [older], None, 0.0, true)), Read(0, scopeId, ids, 0.0, true));
      var st4 := Apply(s, Apply(s, st2, Warm(scopeId, [newer], None, 0.0, true)), Write(0, 0.0, true));
      && HotItems(st4.cache, scopeId, 1, 0.0) == [older.(activeCount := older.activeCount + 1)]
      && LogOf(st4, scopeId) == [Warming([older]), Warming([newer]), Usage(ids, 1)]
  {
    OnlyWarming(s, INIT, older, scopeId);
    assert LogOf(INIT, scopeId) + [Warming([older])] == [Warming([older])];
    var st1 := Apply(s, INIT, Warm(scopeId, [older], None, 0.0, true));
    WarmThenRead(s, older, scopeId, 0, st1);
    var st2 := Apply(s, st1, Read(0, scopeId, {older.itemId}, 0.0, true));
    OnlyWarming(s, st2, newer, scopeId);
    var st3 := Apply(s, st2, Warm(scopeId, [newer], None, 0.0, true));
    OnlyWrite(s, st3, 0, scopeId);
    FindsOne(s, Apply(s, st3, Write(0, 0.0, true)).cache, older.(activeCount := older.activeCount + 1), scopeId);
  }
}
