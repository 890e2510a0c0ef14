/** The metrics collector: emitters put records in an unbounded queue, one worker gathers
    them into batches and flushes a batch when it is full or old enough. The clock is ideal:
    a wait with a timeout ends by its deadline and work between waits takes no time. */
module Collector {
  import opened PyCollections

  type Record = string

  /** A record with the moment it entered the batch. */
  datatype Held = Held(record: Record, since: real)

  datatype Worker = Waiting(deadline: real) | Ended

  datatype Config = Config(batchSize: int, flushInterval: real)

  datatype State = State(
    now: real,
    queue: seq<Option<Record>>,   // None is the shutdown sentinel
    worker: Worker,
    batch: seq<Held>,
    lastFlush: real,
    delivered: seq<seq<Record>>,
    // history
    started: real,
    flushedAt: seq<real>,         // when each batch was flushed
    emitted: seq<Record>,
    stopMark: Option<nat>)        // how many records had been emitted at the first stop()

  datatype Step =
    | Tick(to: real)
    | Emit(record: Record)
    | Stop
    | Receive
    | Timeout

  function RealMax(a: real, b: real): real {
    if a >= b then a else b
  }

  function NextDeadline(c: Config, now: real, lastFlush: real): real {
    now + RealMax(0.1, c.flushInterval - (now - lastFlush))
  }

  function Init(c: Config, now: real): State {
    State(now, [], Waiting(NextDeadline(c, now, now)), [], now, [], now, [], [], None)
  }

  predicate Enabled(s: State, step: Step) {
    match step
    case Tick(to) => s.now <= to && (s.worker.Waiting? ==> to <= s.worker.deadline)
    case Emit(_) => true
    case Stop => true
    case Receive => s.worker.Waiting? && s.queue != []
    case Timeout => s.worker.Waiting? && s.worker.deadline <= s.now
  }

  function Records(batch: seq<Held>): seq<Record> {
    seq(|batch|, i requires 0 <= i < |batch| => batch[i].record)
  }

  /** The end of one turn of the worker: flush if the batch is full or old, then wait again. */
  function EndTurn(c: Config, s: State): State {
    if c.batchSize <= |s.batch| || (c.flushInterval <= s.now - s.lastFlush && s.batch != [])
    then s.(delivered := s.delivered + [Records(s.batch)], flushedAt := s.flushedAt + [s.now], batch := [], lastFlush := s.now,
            worker := Waiting(NextDeadline(c, s.now, s.now)))
    else s.(worker := Waiting(NextDeadline(c, s.now, s.lastFlush)))
  }

  function Apply(c: Config, s: State, step: Step): State
    requires Enabled(s, step)
  {
    match step
    case Tick(to) => s.(now := to)
    case Emit(record) => s.(queue := s.queue + [Some(record)], emitted := s.emitted + [record])
    case Stop => s.(queue := s.queue + [None], stopMark := if s.stopMark.None? then Some(|s.emitted|) else s.stopMark)
    case Receive =>
      if s.queue[0].None? then
        s.(queue := s.queue[1..], worker := Ended, batch := [],
           delivered := if s.batch == [] then s.delivered else s.delivered + [Records(s.batch)],
           flushedAt := if s.batch == [] then s.flushedAt else s.flushedAt + [s.now])
      else
        EndTurn(c, s.(queue := s.queue[1..], batch := s.batch + [Held(s.queue[0].value, s.now)]))
    case Timeout => EndTurn(c, s)
  }

  /** `steps` steps of some interleaving lead from `s` to `t`. */
  ghost predicate Leads(c: Config, s: State, t: State, steps: nat)
    decreases steps
  {
    if steps == 0 then s == t
    else exists before, step :: Leads(c, s, before, steps - 1) && Enabled(before, step) && Apply(c, before, step) == t
  }

  ghost predicate Reachable(c: Config, s: State, steps: nat) {
    exists now :: Leads(c, Init(c, now), s, steps)
  }

  // ----- the invariant

  function Flat(batches: seq<seq<Record>>): seq<Record> {
    if batches == [] then [] else Flat(batches[..|batches| - 1]) + batches[|batches| - 1]
  }

  /** The records of the queue, sentinels left out. */
  function Queued(q: seq<Option<Record>>): seq<Record> {
    if q == [] then [] else (if q[0].Some? then [q[0].value] else []) + Queued(q[1..])
  }

  /** The records of the queue that come before its first sentinel. */
  function BeforeSentinel(q: seq<Option<Record>>): seq<Record> {
    if q == [] || q[0].None? then [] else [q[0].value] + BeforeSentinel(q[1..])
  }

  predicate HasSentinel(q: seq<Option<Record>>) {
    exists i :: 0 <= i < |q| && q[i].None?
  }

  lemma {:induction false} PutAtEnd(q: seq<Option<Record>>, e: Option<Record>)
    ensures Queued(q + [e]) == Queued(q) + (if e.Some? then [e.value] else [])
    ensures BeforeSentinel(q + [e]) == if e.None? || HasSentinel(q) then BeforeSentinel(q) else BeforeSentinel(q) + [e.value]
  {
    if q == [] {
      assert q + [e] == [e];
      assert [e][1..] == [];
    } else {
      assert (q + [e])[1..] == q[1..] + [e];
      PutAtEnd(q[1..], e);
      if q[0].Some? && HasSentinel(q) {
        var i :| 0 <= i < |q| && q[i].None?;
        assert q[1..][i - 1].None?;
      }
      if HasSentinel(q[1..]) {
        var i :| 0 <= i < |q[1..]| && q[1..][i].None?;
        assert q[i + 1].None?;
      }
    }
  }

  lemma {:induction false} NoSentinel(q: seq<Option<Record>>)
    requires !HasSentinel(q)
    ensures BeforeSentinel(q) == Queued(q)
  {
    if q != [] {
      assert q[0].Some?;
      forall i | 0 <= i < |q[1..]| ensures q[1..][i].Some? {
        assert q[1..][i] == q[i + 1];
      }
      NoSentinel(q[1..]);
    }
  }

  lemma FlatAppend(batches: seq<seq<Record>>, batch: seq<Record>)
    ensures Flat(batches + [batch]) == Flat(batches) + batch
  {
    assert (batches + [batch])[..|batches|] == batches;
  }

  /** Everything the worker has taken from the queue: flushed, then held. */
  function Taken(s: State): seq<Record> {
    Flat(s.delivered) + Records(s.batch)
  }

  /** Flushed, then held, then queued: together the records emitted, in order. */
  ghost predicate Conserved(s: State) {
    Taken(s) + Queued(s.queue) == s.emitted
  }

  /** Where the first shutdown cuts the stream of records. */
  ghost predicate CutPlaced(s: State) {
    match s.stopMark
    case None => s.worker.Waiting? && !HasSentinel(s.queue)
    case Some(n) =>
      if s.worker.Ended? then s.batch == [] && |Flat(s.delivered)| == n
      else HasSentinel(s.queue) && |Taken(s) + BeforeSentinel(s.queue)| == n
  }

  ghost predicate BatchesSized(c: Config, s: State) {
    && |s.batch| < c.batchSize
    && forall i :: 0 <= i < |s.delivered| ==> 0 < |s.delivered[i]| <= c.batchSize
  }

  /** A held record came in since the last flush, and the next wake-up is not far off. */
  ghost predicate Timely(c: Config, s: State) {
    && s.lastFlush <= s.now
    && (forall i :: 0 <= i < |s.batch| ==> s.lastFlush <= s.batch[i].since <= s.now)
    && (s.worker.Waiting? ==> s.now <= s.worker.deadline)
    && (s.worker.Waiting? && s.batch != [] ==> s.worker.deadline < s.lastFlush + c.flushInterval + 0.1)
    && (s.worker.Ended? ==> s.batch == [])
  }

  ghost predicate Inv(c: Config, s: State) {
    Conserved(s) && CutPlaced(s) && BatchesSized(c, s) && Timely(c, s)
  }

  lemma EndTurnTakesNothing(c: Config, s: State)
    ensures Taken(EndTurn(c, s)) == Taken(s)
  {
    FlatAppend(s.delivered, Records(s.batch));
    assert Records([]) == [];
  }

  /** A turn of the worker takes at most the record it was handed. */
  lemma TurnTakes(c: Config, s: State)
    requires Enabled(s, Receive)
    ensures Taken(Apply(c, s, Receive)) == Taken(s) + (if s.queue[0].Some? then [s.queue[0].value] else [])
  {
    if s.queue[0].Some? {
      var handed := s.(queue := s.queue[1..], batch := s.batch + [Held(s.queue[0].value, s.now)]);
      assert Records(handed.batch) == Records(s.batch) + [s.queue[0].value];
      EndTurnTakesNothing(c, handed);
    } else {
      FlatAppend(s.delivered, Records(s.batch));
      assert Records([]) == [];
    }
  }

  /** A received record moves from the queue's head to the end of what was taken. */
  lemma ReceiveKeepsConserved(c: Config, s: State)
    requires Conserved(s) && Enabled(s, Receive)
    ensures Conserved(Apply(c, s, Receive))
  {
    TurnTakes(c, s);
    Regroup(Taken(s), if s.queue[0].Some? then [s.queue[0].value] else [], Queued(s.queue[1..]));
    assert Apply(c, s, Receive).queue == s.queue[1..] && Apply(c, s, Receive).emitted == s.emitted;
  }

  lemma StepKeepsConserved(c: Config, s: State, step: Step)
    requires Conserved(s) && Enabled(s, step)
    ensures Conserved(Apply(c, s, step))
  {
    match step
    case Tick(_) =>
    case Emit(r) =>
      PutAtEnd(s.queue, Some(r));
      Regroup(Taken(s), Queued(s.queue), [r]);
    case Stop => PutAtEnd(s.queue, None);
    case Receive => ReceiveKeepsConserved(c, s);
    case Timeout => EndTurnTakesNothing(c, s);
  }

  lemma StepKeepsCut(c: Config, s: State, step: Step)
    requires Conserved(s) && CutPlaced(s) && Enabled(s, step)
    ensures CutPlaced(Apply(c, s, step))
  {
    match step
    case Tick(_) =>
    case Emit(r) =>
      PutAtEnd(s.queue, Some(r));
      SentinelAtEnd(s.queue, Some(r));
    case Stop =>
      PutAtEnd(s.queue, None);
      SentinelAtEnd(s.queue, None);
      if s.stopMark.None? {
        NoSentinel(s.queue);
      }
    case Receive =>
      TurnTakes(c, s);
      SentinelAtHead(s.queue);
      assert Records([]) == [];
    case Timeout => EndTurnTakesNothing(c, s);
  }

  lemma SentinelAtEnd(q: seq<Option<Record>>, e: Option<Record>)
    ensures HasSentinel(q + [e]) <==> HasSentinel(q) || e.None?
  {
    if HasSentinel(q) {
      var i :| 0 <= i < |q| && q[i].None?;
      assert (q + [e])[i].None?;
    }
    assert (q + [e])[|q|] == e;
  }

  lemma SentinelAtHead(q: seq<Option<Record>>)
    requires q != []
    ensures HasSentinel(q) <==> q[0].None? || HasSentinel(q[1..])
  {
    if HasSentinel(q[1..]) {
      var i :| 0 <= i < |q[1..]| && q[1..][i].None?;
      assert q[i + 1].None?;
    }
    if HasSentinel(q) && q[0].Some? {
      var i :| 0 <= i < |q| && q[i].None?;
      assert q[1..][i - 1].None?;
    }
  }

  lemma StepKeepsBatches(c: Config, s: State, step: Step)
    requires 1 <= c.batchSize && BatchesSized(c, s) && Enabled(s, step)
    ensures BatchesSized(c, Apply(c, s, step))
  {
  }

  lemma StepKeepsTimely(c: Config, s: State, step: Step)
    requires Timely(c, s) && Enabled(s, step)
    ensures Timely(c, Apply(c, s, step))
  {
  }

  lemma StepKeepsInv(c: Config, s: State, step: Step)
    requires 1 <= c.batchSize && Inv(c, s) && Enabled(s, step)
    ensures Inv(c, Apply(c, s, step))
  {
    StepKeepsConserved(c, s, step);
    StepKeepsCut(c, s, step);
    StepKeepsBatches(c, s, step);
    StepKeepsTimely(c, s, step);
  }

  lemma {:induction false} RunKeepsInv(c: Config, s: State, t: State, steps: nat)
    requires 1 <= c.batchSize && Inv(c, s) && Leads(c, s, t, steps)
    ensures Inv(c, t)
    decreases steps
  {
    if steps > 0 {
      var before, step :| Leads(c, s, before, steps - 1) && Enabled(before, step) && Apply(c, before, step) == t;
      RunKeepsInv(c, s, before, steps - 1);
      StepKeepsInv(c, before, step);
    }
  }

  lemma ReachableInv(c: Config, s: State, steps: nat)
    requires 1 <= c.batchSize && Reachable(c, s, steps)
    ensures Inv(c, s)
  {
    var now :| Leads(c, Init(c, now), s, steps);
    RunKeepsInv(c, Init(c, now), s, steps);
  }

  // ----- what every reachable state guarantees

  /** No emitter waits; nothing is lost, doubled or reordered, and every delivered batch is non-empty and no
      larger than the batch size. */
  lemma RecordsAreConserved(c: Config, s: State, steps: nat)
    requires 1 <= c.batchSize && Reachable(c, s, steps)
    ensures Flat(s.delivered) + Records(s.batch) + Queued(s.queue) == s.emitted
    ensures forall i :: 0 <= i < |s.delivered| ==> 0 < |s.delivered[i]| <= c.batchSize
    ensures forall r :: Enabled(s, Emit(r))
  {
    ReachableInv(c, s, steps);
  }

  /** When stop() returns, which is when the worker has ended, exactly the records emitted
      before the first stop() have been flushed, once and in order. */
  lemma StopFlushesEverything(c: Config, s: State, steps: nat)
    requires 1 <= c.batchSize && Reachable(c, s, steps) && s.worker.Ended?
    ensures s.stopMark.Some? && s.stopMark.value <= |s.emitted|
    ensures Flat(s.delivered) == s.emitted[..s.stopMark.value]
    ensures Queued(s.queue) == s.emitted[s.stopMark.value..]
  {
    ReachableInv(c, s, steps);
    assert Records(s.batch) == [];
  }

  /** On the ideal clock a record is held for less than the flush interval plus 0.1 s. */
  lemma HeldOnlyBriefly(c: Config, s: State, steps: nat, i: nat)
    requires 1 <= c.batchSize && Reachable(c, s, steps) && i < |s.batch|
    ensures s.now - s.batch[i].since < c.flushInterval + 0.1
  {
    ReachableInv(c, s, steps);
  }

  // ----- stop() returns

  /** How many records the worker still has to take before it ends. */
  function Ahead(s: State): nat {
    if s.worker.Ended? then 0 else 1 + |BeforeSentinel(s.queue)|
  }

  /** These very steps lead from `s` to `t`. */
  ghost predicate Runs(c: Config, s: State, steps: seq<Step>, t: State)
    decreases |steps|
  {
    if steps == [] then s == t else Enabled(s, steps[0]) && Runs(c, Apply(c, s, steps[0]), steps[1..], t)
  }

  function Receives(steps: seq<Step>): nat {
    if steps == [] then 0 else (if steps[0].Receive? then 1 else 0) + Receives(steps[1..])
  }

  lemma SentinelCanBeReached(c: Config, s: State)
    requires CutPlaced(s) && s.stopMark.Some? && s.worker.Waiting?
    ensures Enabled(s, Receive) && Ahead(Apply(c, s, Receive)) < Ahead(s)
  {
    var i :| 0 <= i < |s.queue| && s.queue[i].None?;
  }

  lemma StepKeepsAhead(c: Config, s: State, step: Step)
    requires CutPlaced(s) && s.stopMark.Some? && Enabled(s, step)
    ensures Ahead(Apply(c, s, step)) + (if step.Receive? then 1 else 0) <= Ahead(s)
    ensures Apply(c, s, step).stopMark.Some?
  {
    match step
    case Tick(_) =>
    case Emit(r) => PutAtEnd(s.queue, Some(r));
    case Stop => PutAtEnd(s.queue, None);
    case Receive => SentinelCanBeReached(c, s);
    case Timeout =>
  }

  lemma {:induction false} ReceivesAreBounded(c: Config, s: State, steps: seq<Step>, t: State)
    requires 1 <= c.batchSize && Inv(c, s) && s.stopMark.Some? && Runs(c, s, steps, t)
    ensures Inv(c, t) && t.stopMark.Some? && Ahead(t) + Receives(steps) <= Ahead(s)
    decreases |steps|
  {
    if steps != [] {
      StepKeepsInv(c, s, steps[0]);
      StepKeepsAhead(c, s, steps[0]);
      ReceivesAreBounded(c, Apply(c, s, steps[0]), steps[1..], t);
    }
  }

  /** Once stop() has been called the worker can always receive until it ends, and it ends
      with the last of at most Ahead(s) receives, whatever else happens in between. */
  lemma StopReturns(c: Config, s: State, n: nat, steps: seq<Step>, t: State)
    requires 1 <= c.batchSize && Reachable(c, s, n) && s.stopMark.Some? && Runs(c, s, steps, t)
    ensures Receives(steps) <= Ahead(s)
    ensures t.worker.Ended? || Enabled(t, Receive)
    ensures Receives(steps) == Ahead(s) ==> t.worker.Ended?
  {
    ReachableInv(c, s, n);
    ReceivesAreBounded(c, s, steps, t);
    if t.worker.Waiting? {
      SentinelCanBeReached(c, t);
    }
  }
}
