/** How often the collector's worker flushes and wakes: not before a batch is full or the flush
    interval has passed, whatever the emitters do. */
module CollectorPace {
  import opened PyCollections
  import opened Collector

  /** The flush before batch `i`, or the start. */
  function FlushBefore(s: State, i: nat): real
    requires i <= |s.flushedAt|
  {
    if i == 0 then s.started else s.flushedAt[i - 1]
  }

  /** Batch `i` went out full. */
  predicate Full(c: Config, s: State, i: nat)
    requires i < |s.delivered|
  {
    c.batchSize <= |s.delivered[i]|
  }

  /** Batch `i` is the one flushed as the worker ended. */
  predicate Final(s: State, i: nat) {
    s.worker.Ended? && i + 1 == |s.delivered|
  }

  ghost predicate Due(c: Config, s: State, i: nat)
    requires i < |s.delivered| == |s.flushedAt|
  {
    Full(c, s, i) || FlushBefore(s, i) + c.flushInterval <= s.flushedAt[i] || Final(s, i)
  }

  ghost predicate DueInTurn(c: Config, s: State, i: nat)
    requires i < |s.delivered| == |s.flushedAt|
  {
    Due(c, s, i) && FlushBefore(s, i) <= s.flushedAt[i]
  }

  ghost predicate Paced(c: Config, s: State) {
    && |s.flushedAt| == |s.delivered|
    && (forall i :: 0 <= i < |s.delivered| ==> DueInTurn(c, s, i))
    && FlushBefore(s, |s.flushedAt|) <= s.now
    && (s.worker.Waiting? ==> s.lastFlush == FlushBefore(s, |s.flushedAt|) && s.lastFlush + c.flushInterval <= s.worker.deadline)
  }

  lemma DueStays(c: Config, s: State, s': State)
    requires Paced(c, s) && s.worker.Waiting?
    requires s.delivered <= s'.delivered && s.flushedAt <= s'.flushedAt && |s'.flushedAt| == |s'.delivered| && s'.started == s.started
    ensures forall i :: 0 <= i < |s.delivered| ==> DueInTurn(c, s', i)
  {
    forall i | 0 <= i < |s.delivered| ensures DueInTurn(c, s', i) {
      assert DueInTurn(c, s, i) && !Final(s, i);
      assert s'.delivered[i] == s.delivered[i] && s'.flushedAt[i] == s.flushedAt[i];
    }
  }

  lemma TurnKeepsPace(c: Config, s: State, s': State)
    requires Paced(c, s) && s.worker.Waiting? && s' == EndTurn(c, s)
    ensures Paced(c, s')
  {
    DueStays(c, s, s');
    var n := |s.delivered|;
    if |s'.delivered| > n {
      assert s'.delivered[n] == Records(s.batch) && s'.flushedAt[n] == s.now;
      assert DueInTurn(c, s', n);
    }
  }

  lemma EndKeepsPace(c: Config, s: State, s': State)
    requires Paced(c, s) && Enabled(s, Receive) && s.queue[0].None? && s' == Apply(c, s, Receive)
    ensures Paced(c, s')
  {
    DueStays(c, s, s');
  }

  lemma SamePace(c: Config, s: State, s': State)
    requires Paced(c, s) && s'.delivered == s.delivered && s'.flushedAt == s.flushedAt && s'.started == s.started
    requires s'.worker == s.worker && s'.lastFlush == s.lastFlush && s.now <= s'.now
    ensures Paced(c, s')
  {
    forall i | 0 <= i < |s.delivered| ensures DueInTurn(c, s', i) {
      assert DueInTurn(c, s, i);
    }
  }

  lemma StepKeepsPace(c: Config, s: State, step: Step, s': State)
    requires Paced(c, s) && Enabled(s, step) && s' == Apply(c, s, step)
    ensures Paced(c, s')
  {
    if step.Timeout? {
      TurnKeepsPace(c, s, s');
    } else if step.Receive? && s.queue[0].None? {
      EndKeepsPace(c, s, s');
    } else if step.Receive? {
      var handed := s.(queue := s.queue[1..], batch := s.batch + [Held(s.queue[0].value, s.now)]);
      SamePace(c, s, handed);
      TurnKeepsPace(c, handed, s');
    } else {
      SamePace(c, s, s');
    }
  }

  lemma {:induction false} LeadsPaced(c: Config, s: State, t: State, steps: nat)
    requires Paced(c, s) && Leads(c, s, t, steps)
    ensures Paced(c, t)
    decreases steps
  {
    if steps > 0 {
      var before, step :| Leads(c, s, before, steps - 1) && Enabled(before, step) && Apply(c, before, step) == t;
      LeadsPaced(c, s, before, steps - 1);
      StepKeepsPace(c, before, step, t);
    }
  }

  lemma ReachablePaced(c: Config, s: State, steps: nat)
    requires Reachable(c, s, steps)
    ensures Paced(c, s)
  {
    var now :| Leads(c, Init(c, now), s, steps);
    LeadsPaced(c, Init(c, now), s, steps);
  }

  /** Every batch delivered holds exactly batch_size records, or went out at least the flush
      interval after the flush before it (or the start), or is the one flushed as the worker
      ended. */
  lemma BatchesWait(c: Config, s: State, steps: nat, i: nat)
    requires 1 <= c.batchSize && Reachable(c, s, steps) && i < |s.delivered|
    ensures |s.flushedAt| == |s.delivered|
    ensures |s.delivered[i]| == c.batchSize || FlushBefore(s, i) + c.flushInterval <= s.flushedAt[i] || Final(s, i)
  {
    ReachablePaced(c, s, steps);
    RecordsAreConserved(c, s, steps);
    assert DueInTurn(c, s, i);
  }

  /** How many of the batches `i`, …, `j` - 1 went out neither full nor last. */
  function Partial(c: Config, s: State, i: nat, j: nat): nat
    requires i <= j <= |s.delivered|
  {
    if i == j then 0 else Partial(c, s, i, j - 1) + (if Full(c, s, j - 1) || Final(s, j - 1) then 0 else 1)
  }

  /** `n` times `x`. */
  function Times(n: nat, x: real): real {
    if n == 0 then 0.0 else Times(n - 1, x) + x
  }

  lemma {:induction false} PartialTakesTime(c: Config, s: State, i: nat, j: nat)
    requires Paced(c, s) && i <= j <= |s.delivered|
    ensures Times(Partial(c, s, i, j), c.flushInterval) <= FlushBefore(s, j) - FlushBefore(s, i)
  {
    if i < j {
      PartialTakesTime(c, s, i, j - 1);
      assert DueInTurn(c, s, j - 1);
    }
  }

  /** The rate law: between two flushes, each batch that goes out neither full nor last takes
      the whole flush interval. */
  lemma PartialBatchesAreRare(c: Config, s: State, steps: nat, i: nat, j: nat)
    requires Reachable(c, s, steps) && i < j < |s.delivered|
    ensures |s.flushedAt| == |s.delivered|
    ensures Times(Partial(c, s, i + 1, j + 1), c.flushInterval) <= s.flushedAt[j] - s.flushedAt[i]
  {
    ReachablePaced(c, s, steps);
    PartialTakesTime(c, s, i + 1, j + 1);
    assert FlushBefore(s, i + 1) == s.flushedAt[i] && FlushBefore(s, j + 1) == s.flushedAt[j];
  }

  /** The worker does not wake for nothing: a wake-up by time-out with records in the batch
      flushes them, and the next one is at least 0.1 s away. */
  lemma TimeoutsFlush(c: Config, s: State, steps: nat)
    requires Reachable(c, s, steps) && Enabled(s, Timeout)
    ensures var after := Apply(c, s, Timeout);
      && (s.batch != [] ==> after.delivered == s.delivered + [Records(s.batch)] && after.batch == [])
      && after.worker.Waiting? && s.now + 0.1 <= after.worker.deadline
  {
    ReachablePaced(c, s, steps);
  }
}
