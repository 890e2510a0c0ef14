/** The collector with its batches as lists that are changed in place and shared: a flush
    hands the list itself to the subscribers, and the worker then takes up a new one. Lists
    are known by number. The machine of values in Collector is what this one computes. */
module CollectorLists {
  import opened PyCollections
  import opened Collector

  datatype Lists = Lists(
    now: real,
    queue: seq<Option<Record>>,
    worker: Worker,
    contents: map<nat, seq<Held>>,
    current: nat,                 // the list the worker's `batch` names
    lastFlush: real,
    delivered: seq<nat>,          // the lists handed to subscribers
    started: real,
    flushedAt: seq<real>,
    emitted: seq<Record>,
    stopMark: Option<nat>)

  function ListOf(l: Lists, id: nat): seq<Held> {
    if id in l.contents then l.contents[id] else []
  }

  function Delivered(l: Lists): seq<seq<Record>> {
    seq(|l.delivered|, i requires 0 <= i < |l.delivered| => Records(ListOf(l, l.delivered[i])))
  }

  /** What the lists amount to; a worker that has ended has no batch. */
  function View(l: Lists): State {
    State(l.now, l.queue, l.worker, if l.worker.Ended? then [] else ListOf(l, l.current), l.lastFlush, Delivered(l),
      l.started, l.flushedAt, l.emitted, l.stopMark)
  }

  function InitLists(c: Config, now: real): Lists {
    Lists(now, [], Waiting(NextDeadline(c, now, now)), map[0 := []], 0, now, [], now, [], [], None)
  }

  /** A flush binds `batch` to a new list and leaves the delivered one to its readers. */
  function EndTurnLists(c: Config, l: Lists): Lists {
    var batch := ListOf(l, l.current);
    if c.batchSize <= |batch| || (c.flushInterval <= l.now - l.lastFlush && batch != [])
    then l.(delivered := l.delivered + [l.current], flushedAt := l.flushedAt + [l.now], current := l.current + 1,
            contents := l.contents[l.current + 1 := []], lastFlush := l.now,
            worker := Waiting(NextDeadline(c, l.now, l.now)))
    else l.(worker := Waiting(NextDeadline(c, l.now, l.lastFlush)))
  }

  /** A received record is appended to the current list in place. */
  function Appended(l: Lists): Lists
    requires l.queue != [] && l.queue[0].Some?
  {
    l.(queue := l.queue[1..],
       contents := l.contents[l.current := ListOf(l, l.current) + [Held(l.queue[0].value, l.now)]])
  }

  function ApplyLists(c: Config, l: Lists, step: Step): Lists
    requires Enabled(View(l), step)
  {
    match step
    case Tick(to) => l.(now := to)
    case Emit(record) => l.(queue := l.queue + [Some(record)], emitted := l.emitted + [record])
    case Stop => l.(queue := l.queue + [None], stopMark := if l.stopMark.None? then Some(|l.emitted|) else l.stopMark)
    case Receive =>
      if l.queue[0].None? then
        l.(queue := l.queue[1..], worker := Ended,
           delivered := if ListOf(l, l.current) == [] then l.delivered else l.delivered + [l.current],
           flushedAt := if ListOf(l, l.current) == [] then l.flushedAt else l.flushedAt + [l.now])
      else
        EndTurnLists(c, Appended(l))
    case Timeout => EndTurnLists(c, l)
  }

  /** These very steps lead from `l` to `m`. */
  ghost predicate RunsLists(c: Config, l: Lists, steps: seq<Step>, m: Lists)
    decreases |steps|
  {
    if steps == [] then l == m else Enabled(View(l), steps[0]) && RunsLists(c, ApplyLists(c, l, steps[0]), steps[1..], m)
  }

  ghost predicate ReachableLists(c: Config, l: Lists) {
    exists now, steps :: RunsLists(c, InitLists(c, now), steps, l)
  }

  // ----- the worker's list is nobody else's

  /** The list the worker appends to has not been delivered. */
  ghost predicate Apart(l: Lists) {
    && l.current in l.contents
    && (forall id :: id in l.delivered ==> id in l.contents && id <= l.current)
    && (l.worker.Waiting? ==> l.current !in l.delivered)
  }

  /** The delivered lists are still delivered, and hold what they held. */
  ghost predicate Untouched(l: Lists, m: Lists) {
    && l.delivered <= m.delivered
    && forall id :: id in l.delivered ==> id in l.contents && id in m.contents && m.contents[id] == l.contents[id]
  }

  lemma SameDelivered(l: Lists, m: Lists)
    requires Apart(l) && Untouched(l, m) && m.delivered == l.delivered
    ensures Delivered(m) == Delivered(l)
  {
    forall i | 0 <= i < |l.delivered| ensures Delivered(m)[i] == Delivered(l)[i] {
      assert l.delivered[i] in l.delivered;
    }
  }

  lemma OneMoreDelivered(l: Lists, m: Lists)
    requires Apart(l) && Untouched(l, m) && m.delivered == l.delivered + [l.current]
    requires l.current in m.contents && m.contents[l.current] == l.contents[l.current]
    ensures Delivered(m) == Delivered(l) + [Records(ListOf(l, l.current))]
  {
    forall i | 0 <= i < |l.delivered| ensures Delivered(m)[i] == Delivered(l)[i] {
      assert l.delivered[i] in l.delivered && m.delivered[i] == l.delivered[i];
    }
  }

  lemma EndTurnRefines(c: Config, l: Lists)
    requires Apart(l) && l.worker.Waiting?
    ensures var m := EndTurnLists(c, l); Apart(m) && Untouched(l, m) && View(m) == EndTurn(c, View(l))
  {
    var m := EndTurnLists(c, l);
    assert forall id :: id in l.delivered ==> id < l.current + 1;
    if m.current == l.current {
      SameDelivered(l, m);
    } else {
      OneMoreDelivered(l, m);
    }
  }

  lemma AppendRefines(l: Lists)
    requires Apart(l) && l.worker.Waiting? && l.queue != [] && l.queue[0].Some?
    ensures var m := Appended(l);
      && Apart(m) && Untouched(l, m)
      && View(m) == View(l).(queue := l.queue[1..], batch := View(l).batch + [Held(l.queue[0].value, l.now)])
  {
    SameDelivered(l, Appended(l));
  }

  lemma EndRefines(c: Config, l: Lists)
    requires Apart(l) && Enabled(View(l), Receive) && l.queue[0].None?
    ensures var m := ApplyLists(c, l, Receive); Apart(m) && Untouched(l, m) && View(m) == Apply(c, View(l), Receive)
  {
    var m := ApplyLists(c, l, Receive);
    if ListOf(l, l.current) == [] {
      SameDelivered(l, m);
    } else {
      OneMoreDelivered(l, m);
    }
  }

  /** One step on the lists is that step on the values, and no delivered list changes. */
  lemma StepRefines(c: Config, l: Lists, step: Step)
    requires Apart(l) && Enabled(View(l), step)
    ensures var m := ApplyLists(c, l, step); Apart(m) && Untouched(l, m) && View(m) == Apply(c, View(l), step)
  {
    match step
    case Tick(_) => SameDelivered(l, ApplyLists(c, l, step));
    case Emit(_) => SameDelivered(l, ApplyLists(c, l, step));
    case Stop => SameDelivered(l, ApplyLists(c, l, step));
    case Receive =>
      if l.queue[0].None? {
        EndRefines(c, l);
      } else {
        AppendRefines(l);
        EndTurnRefines(c, Appended(l));
      }
    case Timeout => EndTurnRefines(c, l);
  }

  lemma UntouchedTwice(l: Lists, k: Lists, m: Lists)
    requires Untouched(l, k) && Untouched(k, m)
    ensures Untouched(l, m)
  {
    assert forall id :: id in l.delivered ==> id in k.delivered;
  }

  lemma {:induction false} RunRefines(c: Config, l: Lists, steps: seq<Step>, m: Lists)
    requires Apart(l) && RunsLists(c, l, steps, m)
    ensures Apart(m) && Untouched(l, m) && Runs(c, View(l), steps, View(m))
    decreases |steps|
  {
    if steps != [] {
      var next := ApplyLists(c, l, steps[0]);
      StepRefines(c, l, steps[0]);
      RunRefines(c, next, steps[1..], m);
      UntouchedTwice(l, next, m);
    }
  }

  lemma {:induction false} RunsLead(c: Config, first: State, n: nat, s: State, steps: seq<Step>, t: State)
    requires Leads(c, first, s, n) && Runs(c, s, steps, t)
    ensures Leads(c, first, t, n + |steps|)
    decreases |steps|
  {
    if steps != [] {
      RunsLead(c, first, n + 1, Apply(c, s, steps[0]), steps[1..], t);
    }
  }

  /** Every state of the lists amounts to a reachable state of the values, so all that holds
      of those holds of the lists. */
  lemma ListsRefineValues(c: Config, l: Lists)
    requires ReachableLists(c, l)
    ensures Apart(l) && exists steps :: Reachable(c, View(l), steps)
  {
    var now, steps :| RunsLists(c, InitLists(c, now), steps, l);
    RunRefines(c, InitLists(c, now), steps, l);
    assert View(InitLists(c, now)) == Init(c, now);
    RunsLead(c, Init(c, now), 0, Init(c, now), steps, View(l));
    assert Reachable(c, View(l), |steps|);
  }

  /** A list handed to subscribers is never changed by the collector again. */
  lemma DeliveredIsFinal(c: Config, l: Lists, steps: seq<Step>, m: Lists)
    requires ReachableLists(c, l) && RunsLists(c, l, steps, m)
    ensures Untouched(l, m)
  {
    ListsRefineValues(c, l);
    RunRefines(c, l, steps, m);
  }
}
