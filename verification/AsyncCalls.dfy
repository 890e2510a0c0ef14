/** What the memory queue's workers ask of the services behind them: which tasks go to the
    conflict checker, what each call to the long-term memory carries, and when the hot tier
    is refreshed. */
module AsyncCalls {
  import opened PyCollections
  import opened AsyncProcessor

  function IsAdd(): Sent -> bool {
    (x: Sent) => x.task.kind.Add?
  }

  /** What the checker's answers ask for: its replacement, or the task's own messages. */
  function Asked(checks: seq<Check>): (r: seq<Sent>)
    ensures |r| == |checks|
  {
    seq(|checks|, i requires 0 <= i < |checks| =>
      Sent(checks[i].worker, checks[i].task,
        if checks[i].replacement.Some? then checks[i].replacement.value else checks[i].task.messages))
  }

  function TasksOf(sent: seq<Sent>): (r: seq<Task>)
    ensures |r| == |sent|
  {
    seq(|sent|, i requires 0 <= i < |sent| => sent[i].task)
  }

  /** The last call this worker made. */
  function Latest(sent: seq<Sent>, w: nat): Option<Sent> {
    if sent == [] then None
    else if sent[|sent| - 1].worker == w then Some(sent[|sent| - 1])
    else Latest(sent[..|sent| - 1], w)
  }

  /** Whether a worker has asked the long-term memory about `t` and not yet marked it done. */
  function Past(t: Task): Worker -> nat {
    (w: Worker) => if (w.Calling? || w.Warming? || w.Notifying? || w.Finishing?) && w.task == t then 1 else 0
  }

  function Refreshing(t: Task): Worker -> nat {
    (w: Worker) => if w == Warming(t) then 1 else 0
  }

  // ----- the invariant

  /** Only adds are checked, and only with a checker; nobody is asked about a conflict check. */
  predicate Placed(c: Config, w: Worker) {
    match w
    case Checking(t) => c.hasChecker && t.kind.Add?
    case Calling(t, _) => !t.kind.CheckConflicts?
    case Warming(t) => c.hasRouter && t.kind.Add?
    case _ => true
  }

  ghost predicate AllPlaced(c: Config, s: State) {
    forall w :: 0 <= w < |s.workers| ==> Placed(c, s.workers[w])
  }

  /** A call that no checker has a say in carries the task's own messages. */
  predicate OwnMessages(c: Config, x: Sent) {
    !c.hasChecker || !x.task.kind.Add? ==> x.messages == x.task.messages
  }

  /** With a checker the adds sent are what its answers ask for, one by one; every other
      call carries the task's own messages. */
  ghost predicate SentAsAsked(c: Config, sent: seq<Sent>, checks: seq<Check>) {
    && (if c.hasChecker then Filter(sent, IsAdd()) == Asked(checks) else checks == [])
    && (forall i :: 0 <= i < |sent| ==> OwnMessages(c, sent[i]))
  }

  /** A worker waiting for an answer waits for that of its last call. */
  ghost predicate WaitsForLast(s: State, w: nat) {
    w < |s.workers| && s.workers[w].Calling? ==> Latest(s.sent, w) == Some(Sent(w, s.workers[w].task, s.workers[w].messages))
  }

  /** Each time a task was taken it has been sent once, or has not got so far. */
  ghost predicate SentOnce(s: State, t: Task) {
    multiset(TasksOf(s.sent))[t] == if t.kind.CheckConflicts? then 0 else s.done[t] + Weight(s.workers, Past(t))
  }

  /** The hot tier is refreshed after each add that succeeded, and after nothing else. */
  ghost predicate RefreshedAfter(c: Config, s: State, t: Task) {
    s.refreshed[t] + Weight(s.workers, Refreshing(t))
      == if c.hasRouter && t.kind.Add? then s.replies[Verdict(t, true)] else 0
  }

  /** While it runs, all workers are there; while it stops, none has gone missing. */
  ghost predicate Staffed(c: Config, s: State) {
    && (s.running ==> |s.workers| == c.workerCount)
    && (s.workers != [] ==> |s.workers| == c.workerCount)
    && (s.stopping.No? && !s.running ==> s.workers == [])
    && (!s.stopping.No? ==> !s.running)
  }

  ghost predicate CallsInv(c: Config, s: State) {
    && AllPlaced(c, s)
    && SentAsAsked(c, s.sent, s.checks)
    && (forall w :: WaitsForLast(s, w))
    && (forall t :: SentOnce(s, t) && RefreshedAfter(c, s, t))
    && Staffed(c, s)
  }

  // ----- one step keeps it

  lemma AskedPush(checks: seq<Check>, x: Check)
    ensures Asked(checks + [x]) == Asked(checks) + Asked([x])
  {
  }

  /** What one step may add: nothing, a call that is nobody's to check, or what an answer asks for. */
  predicate Together(c: Config, more: seq<Sent>, got: seq<Check>) {
    if got == [] then more == [] || (|more| == 1 && OwnMessages(c, more[0]) && (c.hasChecker ==> !more[0].task.kind.Add?))
    else |got| == 1 && c.hasChecker && more == Asked(got) && more[0].task.kind.Add?
  }

  lemma StepAsksRight(c: Config, s: State, step: Step)
    requires Enabled(c, s, step) && WorkerStep(step) && Placed(c, s.workers[step.w])
    ensures Together(c, SentBy(c, s, step), ChecksBy(c, s, step))
  {
  }

  lemma PushKeepsAsAsked(c: Config, sent: seq<Sent>, checks: seq<Check>, more: seq<Sent>, got: seq<Check>)
    requires SentAsAsked(c, sent, checks) && Together(c, more, got)
    ensures SentAsAsked(c, sent + more, checks + got)
  {
    if more == [] {
      assert sent + more == sent && checks + got == checks;
    } else {
      assert more == [more[0]];
      FilterPush(sent, more[0], IsAdd());
      if got == [] {
        assert checks + got == checks;
      } else {
        assert got == [got[0]];
        AskedPush(checks, got[0]);
      }
    }
  }

  lemma StepKeepsAsAsked(c: Config, s: State, step: Step)
    requires SentAsAsked(c, s.sent, s.checks) && Enabled(c, s, step) && WorkerStep(step) && Placed(c, s.workers[step.w])
    ensures SentAsAsked(c, s.sent + SentBy(c, s, step), s.checks + ChecksBy(c, s, step))
  {
    StepAsksRight(c, s, step);
    PushKeepsAsAsked(c, s.sent, s.checks, SentBy(c, s, step), ChecksBy(c, s, step));
  }

  lemma LatestAfter(c: Config, s: State, step: Step, w: nat)
    requires Enabled(c, s, step) && WorkerStep(step)
    ensures Latest(s.sent + SentBy(c, s, step), w)
         == if step.w == w && After(c, s, step).Calling? then Some(SentBy(c, s, step)[0]) else Latest(s.sent, w)
  {
    var more := SentBy(c, s, step);
    if more == [] {
      assert s.sent + more == s.sent;
    } else {
      assert (s.sent + more)[..|s.sent|] == s.sent;
    }
  }

  lemma StepKeepsLast(c: Config, s: State, step: Step, w: nat)
    requires WaitsForLast(s, w) && Enabled(c, s, step) && WorkerStep(step)
    ensures WaitsForLast(Moved(c, s, step), w)
  {
    LatestAfter(c, s, step, w);
  }

  lemma StepKeepsPlaces(c: Config, s: State, step: Step)
    requires Enabled(c, s, step) && WorkerStep(step) && Placed(c, s.workers[step.w])
    ensures Placed(c, After(c, s, step))
  {
  }

  /** A task sent is then past its call; a task past its call is then done. */
  lemma StepMovesCall(c: Config, s: State, step: Step, t: Task)
    requires Enabled(c, s, step) && WorkerStep(step) && Placed(c, s.workers[step.w])
    ensures !t.kind.CheckConflicts? ==>
      multiset(TasksOf(SentBy(c, s, step)))[t] + Past(t)(s.workers[step.w])
        == DoneBy(c, s, step)[t] + Past(t)(After(c, s, step))
    ensures t.kind.CheckConflicts? ==> t !in TasksOf(SentBy(c, s, step))
  {
  }

  lemma TasksPush(sent: seq<Sent>, more: seq<Sent>, t: Task)
    ensures multiset(TasksOf(sent + more))[t] == multiset(TasksOf(sent))[t] + multiset(TasksOf(more))[t]
  {
    assert TasksOf(sent + more) == TasksOf(sent) + TasksOf(more);
  }

  lemma StepKeepsSentOnce(c: Config, s: State, step: Step, t: Task)
    requires SentOnce(s, t) && Enabled(c, s, step) && WorkerStep(step) && Placed(c, s.workers[step.w])
    ensures SentOnce(Moved(c, s, step), t)
  {
    StepMovesCall(c, s, step, t);
    WeightUpdate(s.workers, step.w, After(c, s, step), Past(t));
    TasksPush(s.sent, SentBy(c, s, step), t);
  }

  /** An add that succeeded is then being refreshed after, if there is a router. */
  lemma StepMovesRefresh(c: Config, s: State, step: Step, t: Task)
    requires Enabled(c, s, step) && WorkerStep(step) && Placed(c, s.workers[step.w])
    ensures RefreshedBy(c, s, step)[t] + Refreshing(t)(After(c, s, step))
         == Refreshing(t)(s.workers[step.w]) + (if c.hasRouter && t.kind.Add? then RepliesBy(c, s, step)[Verdict(t, true)] else 0)
  {
  }

  lemma StepKeepsRefreshes(c: Config, s: State, step: Step, t: Task)
    requires RefreshedAfter(c, s, t) && Enabled(c, s, step) && WorkerStep(step) && Placed(c, s.workers[step.w])
    ensures RefreshedAfter(c, Moved(c, s, step), t)
  {
    StepMovesRefresh(c, s, step, t);
    WeightUpdate(s.workers, step.w, After(c, s, step), Refreshing(t));
  }

  lemma WorkerStepKeepsCalls(c: Config, s: State, step: Step)
    requires CallsInv(c, s) && Enabled(c, s, step) && WorkerStep(step)
    ensures CallsInv(c, Moved(c, s, step))
  {
    var s' := Moved(c, s, step);
    assert Placed(c, s.workers[step.w]);
    StepKeepsAsAsked(c, s, step);
    StepKeepsPlaces(c, s, step);
    forall w ensures WaitsForLast(s', w) {
      assert WaitsForLast(s, w);
      StepKeepsLast(c, s, step, w);
    }
    forall t ensures SentOnce(s', t) && RefreshedAfter(c, s', t) {
      assert SentOnce(s, t) && RefreshedAfter(c, s, t);
      StepKeepsSentOnce(c, s, step, t);
      StepKeepsRefreshes(c, s, step, t);
    }
  }

  ghost predicate SameCalls(s: State, s': State) {
    s'.sent == s.sent && s'.checks == s.checks && s'.refreshed == s.refreshed && s'.replies == s.replies && s'.done == s.done
  }

  /** Workers that have ended may be exchanged for workers that have not begun. */
  lemma IdleWorkersKeepCalls(c: Config, s: State, s': State)
    requires CallsInv(c, s) && SameCalls(s, s') && Staffed(c, s')
    requires forall i :: 0 <= i < |s.workers| ==> s.workers[i] == Exited
    requires forall i :: 0 <= i < |s'.workers| ==> s'.workers[i] == Waiting
    ensures CallsInv(c, s')
  {
    forall t ensures SentOnce(s', t) && RefreshedAfter(c, s', t) {
      assert SentOnce(s, t) && RefreshedAfter(c, s, t);
      UniformWorkers(s.workers, Exited, Past(t));
      UniformWorkers(s.workers, Exited, Refreshing(t));
      UniformWorkers(s'.workers, Waiting, Past(t));
      UniformWorkers(s'.workers, Waiting, Refreshing(t));
    }
  }

  lemma SameWorkersKeepCalls(c: Config, s: State, s': State)
    requires CallsInv(c, s) && SameCalls(s, s') && s'.workers == s.workers && Staffed(c, s')
    ensures CallsInv(c, s')
  {
    forall w ensures WaitsForLast(s', w) {
      assert WaitsForLast(s, w);
    }
    forall t ensures SentOnce(s', t) && RefreshedAfter(c, s', t) {
      assert SentOnce(s, t) && RefreshedAfter(c, s, t);
    }
  }

  lemma StepKeepsCalls(c: Config, s: State, step: Step)
    requires CallsInv(c, s) && Enabled(c, s, step)
    ensures CallsInv(c, Apply(c, s, step))
  {
    if WorkerStep(step) {
      WorkerStepKeepsCalls(c, s, step);
    } else if step.StopReturns? || (step.Start? && !s.running) {
      IdleWorkersKeepCalls(c, s, Apply(c, s, step));
    } else {
      SameWorkersKeepCalls(c, s, Apply(c, s, step));
    }
  }

  lemma {:induction false} RunKeepsCalls(c: Config, s: State, steps: seq<Step>)
    requires CallsInv(c, s) && Admissible(c, s, steps)
    ensures CallsInv(c, Exec(c, s, steps))
    decreases |steps|
  {
    if steps != [] {
      StepKeepsCalls(c, s, steps[0]);
      RunKeepsCalls(c, Apply(c, s, steps[0]), steps[1..]);
    }
  }

  lemma ReachableCalls(c: Config, s: State)
    requires Reachable(c, s)
    ensures CallsInv(c, s)
  {
    var steps :| Admissible(c, INIT, steps) && Exec(c, INIT, steps) == s;
    assert INIT.workers == [];
    RunKeepsCalls(c, INIT, steps);
  }

  // ----- what every reachable state guarantees

  /** A worker waiting on the long-term memory has asked for the task's own messages when
      there is no checker or the task is no add, and otherwise for what the checker's answer
      to that very worker asks for. */
  lemma CallsCarryTheirMessages(c: Config, s: State, w: nat)
    requires Reachable(c, s) && w < |s.workers| && s.workers[w].Calling?
    ensures var t, messages := s.workers[w].task, s.workers[w].messages;
      && (!c.hasChecker || !t.kind.Add? ==> messages == t.messages)
      && (c.hasChecker && t.kind.Add? ==>
            (exists i :: 0 <= i < |s.checks| && s.checks[i].worker == w && s.checks[i].task == t
               && messages == (if s.checks[i].replacement.Some? then s.checks[i].replacement.value else t.messages)))
  {
    ReachableCalls(c, s);
    var t, messages := s.workers[w].task, s.workers[w].messages;
    assert WaitsForLast(s, w);
    LatestIsSent(s.sent, w);
    var last := Sent(w, t, messages);
    if c.hasChecker && t.kind.Add? {
      assert last in Filter(s.sent, IsAdd());
      var i :| 0 <= i < |s.checks| && Asked(s.checks)[i] == last;
      assert s.checks[i].worker == w;
    }
  }

  lemma {:induction false} LatestIsSent(sent: seq<Sent>, w: nat)
    ensures Latest(sent, w).Some? ==> Latest(sent, w).value in sent
  {
    if sent != [] {
      LatestIsSent(sent[..|sent| - 1], w);
    }
  }

  /** Over the whole history: without a checker every call carries its task's own messages;
      with one, the adds sent are, in order, one for each answer of the checker. Every task
      finished has been sent exactly once, but for conflict checks, which never are. */
  lemma EveryTaskIsSentOnce(c: Config, s: State, t: Task)
    requires Reachable(c, s)
    ensures forall i :: 0 <= i < |s.sent| ==> OwnMessages(c, s.sent[i])
    ensures c.hasChecker ==> Filter(s.sent, IsAdd()) == Asked(s.checks)
    ensures multiset(TasksOf(s.sent))[t]
      == if t.kind.CheckConflicts? then 0 else s.done[t] + Weight(s.workers, Past(t))
  {
    ReachableCalls(c, s);
    assert SentOnce(s, t);
  }

  /** At the return of `stop()` each accepted task up to the mark has been sent as often as it
      was accepted, and the hot tier refreshed after just the adds that succeeded. */
  lemma StopHasSentEverything(c: Config, s: State, t: Task)
    requires Reachable(c, s) && Enabled(c, s, StopReturns) && s.workers != []
    ensures s.mark <= |s.accepted|
    ensures multiset(TasksOf(s.sent))[t] == if t.kind.CheckConflicts? then 0 else multiset(s.accepted[..s.mark])[t]
    ensures s.refreshed[t] == if c.hasRouter && t.kind.Add? then s.events[Verdict(t, true)] else 0
  {
    ReachableCalls(c, s);
    StopDrainsTheQueue(c, s);
    assert SentOnce(s, t) && RefreshedAfter(c, s, t);
    UniformWorkers(s.workers, Exited, Past(t));
    UniformWorkers(s.workers, Exited, Refreshing(t));
  }

  /** A running processor has all its workers; it can be started and stopped while no stop is
      under way, and refuses a task exactly when a bounded
      queue is as long as its bound. */
  lemma RunningIsStaffed(c: Config, s: State, t: Task)
    requires Reachable(c, s)
    ensures s.running ==> |s.workers| == c.workerCount
    ensures s.running ==> (forall w :: 0 <= w < |s.workers| ==> !s.workers[w].Exited?)
    ensures !Enabled(c, s, Enqueue(t)) <==> 0 < c.maxsize == |s.queue|
    ensures s.stopping.No? ==> Enabled(c, s, Stop) && Enabled(c, s, Start) && Apply(c, s, Start).running
  {
    ReachableCalls(c, s);
    ReachableInv(c, s);
    if s.running {
      AllAlive(s.workers);
    }
  }

  lemma {:induction false} AllAlive(ws: seq<Worker>)
    ensures Weight(ws, Alive) <= |ws|
    ensures Weight(ws, Alive) == |ws| ==> forall w :: 0 <= w < |ws| ==> !ws[w].Exited?
  {
    if ws != [] {
      AllAlive(ws[..|ws| - 1]);
    }
  }
}
