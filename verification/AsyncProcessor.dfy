/** The asynchronous memory queue: a bounded FIFO, the worker tasks that drain it, and
    `stop()`, which puts one sentinel per worker and then joins the workers.

    Each step below is one stretch of coroutine code between two suspension points, so a
    run is any interleaving the event loop may choose. */
module AsyncProcessor {
  import opened PyCollections

  datatype TaskKind = Add | Delete | Update | CheckConflicts

  /** `id` stands for the identity of the task object. */
  datatype Task = Task(id: nat, scopeId: string, kind: TaskKind, messages: seq<string>)

  datatype Entry = Sentinel | Job(task: Task)

  /** What became of a task: the `success` flag of its event. */
  datatype Verdict = Verdict(task: Task, success: bool)

  /** What worker `worker` asked of the long-term memory. */
  datatype Sent = Sent(worker: nat, task: Task, messages: seq<string>)

  /** What the conflict checker answered worker `worker`. */
  datatype Check = Check(worker: nat, task: Task, replacement: Option<seq<string>>)

  /** Where a worker coroutine is suspended. */
  datatype Worker =
    | Waiting                                      // on queue.get()
    | Checking(task: Task)                         // on the conflict checker
    | Calling(task: Task, messages: seq<string>)   // on the long-term memory
    | Warming(task: Task)                          // on the hot-tier refresh
    | Notifying(task: Task, success: bool)         // event built, subscribers not told yet
    | Finishing(task: Task)                        // subscribers told, task_done() still to come
    | Exited

  /** How far `stop()` has come. */
  datatype Stopping = No | Putting(remaining: nat) | Joining

  datatype Config = Config(maxsize: int, workerCount: nat, hasChecker: bool, hasRouter: bool)

  datatype State = State(
    queue: seq<Entry>,
    workers: seq<Worker>,
    running: bool,
    stopping: Stopping,
    // history, written by the steps and never read by them
    accepted: seq<Task>,
    taken: seq<Task>,
    checks: seq<Check>,
    sent: seq<Sent>,
    refreshed: multiset<Task>,   // tasks after which the hot tier was refreshed
    replies: multiset<Verdict>,
    events: multiset<Verdict>,
    done: multiset<Task>,
    mark: nat)   // how many tasks had been accepted when the last sentinel went in

  datatype Step =
    | Start
    | Stop
    | PutSentinel
    | StopReturns
    | Enqueue(task: Task)
    | Get(w: nat)
    | CheckerReplies(w: nat, replacement: Option<seq<string>>)
    | LtmReplies(w: nat, ok: bool)
    | WarmReplies(w: nat)
    | Notify(w: nat)
    | TaskDone(w: nat)

  const INIT := State([], [], false, No, [], [], [], [], multiset{}, multiset{}, multiset{}, multiset{}, 0)

  /** asyncio.Queue.full(): a bound of zero or less means no bound. */
  predicate Full(c: Config, s: State) {
    0 < c.maxsize && c.maxsize <= |s.queue|
  }

  predicate Enabled(c: Config, s: State, step: Step) {
    match step
    case Start => s.stopping.No?
    case Stop => s.stopping.No?
    case PutSentinel => s.stopping.Putting? && !Full(c, s)
    case StopReturns => s.stopping.Joining? && forall i :: 0 <= i < |s.workers| ==> s.workers[i].Exited?
    case Enqueue(_) => !Full(c, s)
    case Get(w) => w < |s.workers| && s.workers[w].Waiting? && s.queue != []
    case CheckerReplies(w, _) => w < |s.workers| && s.workers[w].Checking?
    case LtmReplies(w, _) => w < |s.workers| && s.workers[w].Calling?
    case WarmReplies(w) => w < |s.workers| && s.workers[w].Warming?
    case Notify(w) => w < |s.workers| && s.workers[w].Notifying?
    case TaskDone(w) => w < |s.workers| && s.workers[w].Finishing?
  }

  /** The stretch of `_process` from its entry to its first suspension. */
  function Begin(c: Config, task: Task): Worker {
    if task.kind.CheckConflicts? then Notifying(task, true)
    else if task.kind.Add? && c.hasChecker then Checking(task)
    else Calling(task, task.messages)
  }

  /** The steps a worker coroutine takes. */
  predicate WorkerStep(step: Step) {
    step.Get? || step.CheckerReplies? || step.LtmReplies? || step.WarmReplies? || step.Notify? || step.TaskDone?
  }

  /** Where a worker's step leaves it suspended. */
  function After(c: Config, s: State, step: Step): Worker
    requires Enabled(c, s, step) && WorkerStep(step)
  {
    match step
    case Get(_) => if s.queue[0].Sentinel? then Exited else Begin(c, s.queue[0].task)
    case CheckerReplies(w, replacement) =>
      var task := s.workers[w].task;
      Calling(task, if replacement.Some? then replacement.value else task.messages)
    case LtmReplies(w, ok) =>
      var task := s.workers[w].task;
      if ok && c.hasRouter && task.kind.Add? then Warming(task) else Notifying(task, ok)
    case WarmReplies(w) => Notifying(s.workers[w].task, true)
    case Notify(w) => Finishing(s.workers[w].task)
    case TaskDone(_) => Waiting
  }

  /** The task a step takes from the queue. */
  function TakenBy(c: Config, s: State, step: Step): seq<Task>
    requires Enabled(c, s, step)
  {
    if step.Get? && s.queue[0].Job? then [s.queue[0].task] else []
  }

  /** The answer a step brings; a conflict check asks nobody and always succeeds. */
  function RepliesBy(c: Config, s: State, step: Step): multiset<Verdict>
    requires Enabled(c, s, step)
  {
    if step.Get? && s.queue[0].Job? && s.queue[0].task.kind.CheckConflicts? then multiset{Verdict(s.queue[0].task, true)}
    else if step.LtmReplies? then multiset{Verdict(s.workers[step.w].task, step.ok)}
    else multiset{}
  }

  function ChecksBy(c: Config, s: State, step: Step): seq<Check>
    requires Enabled(c, s, step)
  {
    if step.CheckerReplies? then [Check(step.w, s.workers[step.w].task, step.replacement)] else []
  }

  /** The call a step leaves the worker suspended on. */
  function SentBy(c: Config, s: State, step: Step): seq<Sent>
    requires Enabled(c, s, step) && WorkerStep(step)
  {
    var after := After(c, s, step);
    if after.Calling? then [Sent(step.w, after.task, after.messages)] else []
  }

  function RefreshedBy(c: Config, s: State, step: Step): multiset<Task>
    requires Enabled(c, s, step)
  {
    if step.WarmReplies? then multiset{s.workers[step.w].task} else multiset{}
  }

  function EventsBy(c: Config, s: State, step: Step): multiset<Verdict>
    requires Enabled(c, s, step)
  {
    if step.Notify? then multiset{Verdict(s.workers[step.w].task, s.workers[step.w].success)} else multiset{}
  }

  function DoneBy(c: Config, s: State, step: Step): multiset<Task>
    requires Enabled(c, s, step)
  {
    if step.TaskDone? then multiset{s.workers[step.w].task} else multiset{}
  }

  function QueueAfter(c: Config, s: State, step: Step): seq<Entry>
    requires Enabled(c, s, step)
  {
    if step.Get? then s.queue[1..] else s.queue
  }

  function Moved(c: Config, s: State, step: Step): State
    requires Enabled(c, s, step) && WorkerStep(step)
  {
    s.(queue := QueueAfter(c, s, step),
       workers := s.workers[step.w := After(c, s, step)],
       taken := s.taken + TakenBy(c, s, step),
       checks := s.checks + ChecksBy(c, s, step),
       sent := s.sent + SentBy(c, s, step),
       refreshed := s.refreshed + RefreshedBy(c, s, step),
       replies := s.replies + RepliesBy(c, s, step),
       events := s.events + EventsBy(c, s, step),
       done := s.done + DoneBy(c, s, step))
  }

  function Apply(c: Config, s: State, step: Step): State
    requires Enabled(c, s, step)
  {
    match step
    case Start =>
      if s.running then s
      else s.(running := true, workers := s.workers + seq(c.workerCount, _ => Waiting))
    case Stop =>
      s.(running := false, stopping := if s.workers == [] then Joining else Putting(|s.workers|))
    case PutSentinel =>
      s.(queue := s.queue + [Sentinel],
         stopping := if s.stopping.remaining <= 1 then Joining else Putting(s.stopping.remaining - 1),
         mark := |s.accepted|)
    case StopReturns => s.(workers := [], stopping := No)
    case Enqueue(task) => s.(queue := s.queue + [Job(task)], accepted := s.accepted + [task])
    case _ => Moved(c, s, step)
  }

  ghost predicate Admissible(c: Config, s: State, steps: seq<Step>)
    decreases |steps|
  {
    steps == [] || (Enabled(c, s, steps[0]) && Admissible(c, Apply(c, s, steps[0]), steps[1..]))
  }

  ghost function Exec(c: Config, s: State, steps: seq<Step>): State
    requires Admissible(c, s, steps)
    decreases |steps|
  {
    if steps == [] then s else Exec(c, Apply(c, s, steps[0]), steps[1..])
  }

  // ----- what the queue and the workers hold

  function Jobs(q: seq<Entry>): seq<Task> {
    if q == [] then []
    else if q[0].Sentinel? then Jobs(q[1..])
    else [q[0].task] + Jobs(q[1..])
  }

  function Sentinels(q: seq<Entry>): nat {
    if q == [] then 0 else (if q[0].Sentinel? then 1 else 0) + Sentinels(q[1..])
  }

  /** How many entries follow the last sentinel; all of them when there is none. */
  function AfterLast(q: seq<Entry>): nat {
    if Sentinels(q) == 0 then |q| else AfterLast(q[1..])
  }

  lemma {:induction false} PutAtEnd(q: seq<Entry>, e: Entry)
    ensures Jobs(q + [e]) == Jobs(q) + (if e.Job? then [e.task] else [])
    ensures Sentinels(q + [e]) == Sentinels(q) + (if e.Sentinel? then 1 else 0)
    ensures AfterLast(q + [e]) == if e.Sentinel? then 0 else AfterLast(q) + 1
  {
    if q == [] {
      assert q + [e] == [e];
      assert [e][1..] == [];
    } else {
      assert (q + [e])[1..] == q[1..] + [e];
      PutAtEnd(q[1..], e);
    }
  }

  lemma {:induction false} NoSentinel(q: seq<Entry>)
    requires Sentinels(q) == 0
    ensures |Jobs(q)| == |q|
    ensures forall i :: 0 <= i < |q| ==> q[i] == Job(Jobs(q)[i])
  {
    if q != [] {
      NoSentinel(q[1..]);
      assert forall i :: 1 <= i < |q| ==> q[i] == q[1..][i - 1];
    }
  }

  ghost function Weight(ws: seq<Worker>, f: Worker -> nat): nat {
    if ws == [] then 0 else Weight(ws[..|ws| - 1], f) + f(ws[|ws| - 1])
  }

  lemma {:induction false} WeightUpdate(ws: seq<Worker>, w: nat, x: Worker, f: Worker -> nat)
    requires w < |ws|
    ensures Weight(ws[w := x], f) + f(ws[w]) == Weight(ws, f) + f(x)
  {
    var init := ws[..|ws| - 1];
    if w == |ws| - 1 {
      assert ws[w := x][..|ws| - 1] == init;
    } else {
      assert ws[w := x][..|ws| - 1] == init[w := x];
      assert ws[w := x][|ws| - 1] == ws[|ws| - 1];
      WeightUpdate(init, w, x, f);
    }
  }

  lemma {:induction false} UniformWorkers(ws: seq<Worker>, x: Worker, f: Worker -> nat)
    requires forall i :: 0 <= i < |ws| ==> ws[i] == x
    requires f(x) <= 1
    ensures Weight(ws, f) == if f(x) == 1 then |ws| else 0
  {
    if ws != [] {
      UniformWorkers(ws[..|ws| - 1], x, f);
    }
  }

  function Alive(w: Worker): nat {
    if w.Exited? then 0 else 1
  }

  /** Whether a worker has taken `t` and not yet marked it done. */
  function Holds(t: Task): Worker -> nat {
    (w: Worker) => if !w.Waiting? && !w.Exited? && w.task == t then 1 else 0
  }

  /** Whether a worker has received answer `v` and not yet announced it. */
  function Knows(v: Verdict): Worker -> nat {
    (w: Worker) => if (w.Warming? && v == Verdict(w.task, true)) || (w.Notifying? && v == Verdict(w.task, w.success)) then 1 else 0
  }

  /** Whether a worker has announced `t` and not yet marked it done. */
  function Announced(t: Task): Worker -> nat {
    (w: Worker) => if w.Finishing? && w.task == t then 1 else 0
  }

  // ----- the invariant

  /** Tasks leave in the order they were accepted. */
  ghost predicate InOrder(s: State) {
    s.accepted == s.taken + Jobs(s.queue)
  }

  /** Every time `t` was taken it is now in some worker's hands or done. */
  ghost predicate Counted(s: State, t: Task) {
    multiset(s.taken)[t] == Weight(s.workers, Holds(t)) + s.done[t]
  }

  /** Every answer received has been announced, or is about to be. */
  ghost predicate Answered(s: State, v: Verdict) {
    s.replies[v] == s.events[v] + Weight(s.workers, Knows(v))
  }

  /** Every event about `t` belongs to a time it was done, or is about to be. */
  ghost predicate Told(s: State, t: Task) {
    s.events[Verdict(t, true)] + s.events[Verdict(t, false)] == s.done[t] + Weight(s.workers, Announced(t))
  }

  /** No task is lost or run twice, and each finished one has had exactly one event. */
  ghost predicate Tracked(s: State) {
    && (forall t :: Counted(s, t) && Told(s, t))
    && (forall v :: Answered(s, v))
  }

  /** Sentinels still to put plus sentinels queued equal the workers alive. */
  ghost predicate SentinelBalance(s: State) {
    var alive := Weight(s.workers, Alive);
    match s.stopping
    case No => Sentinels(s.queue) == 0 && alive == |s.workers| && (s.running || s.workers == [])
    case Putting(n) => 0 < n && n + Sentinels(s.queue) == alive && !s.running
    case Joining => Sentinels(s.queue) == alive && !s.running
  }

  ghost predicate MarkPlaced(s: State) {
    && s.mark <= |s.accepted|
    && (s.stopping.Joining? && s.workers != [] ==> |s.accepted| - s.mark == AfterLast(s.queue))
  }

  ghost predicate Inv(c: Config, s: State) {
    && InOrder(s)
    && Tracked(s)
    && SentinelBalance(s)
    && MarkPlaced(s)
    && (0 < c.maxsize ==> |s.queue| <= c.maxsize)
  }

  // ----- one step keeps it

  ghost predicate SameHistory(s: State, s': State) {
    s'.taken == s.taken && s'.done == s.done && s'.replies == s.replies && s'.events == s.events
  }

  lemma SameWorkersKeepTracked(s: State, s': State)
    requires Tracked(s) && SameHistory(s, s') && s'.workers == s.workers
    ensures Tracked(s')
  {
    forall t ensures Counted(s', t) && Told(s', t) {
      assert Counted(s, t) && Told(s, t);
    }
    forall v ensures Answered(s', v) {
      assert Answered(s, v);
    }
  }

  /** Workers that have ended may be exchanged for workers that have not begun. */
  lemma IdleWorkersKeepTracked(s: State, s': State)
    requires Tracked(s) && SameHistory(s, s')
    requires forall i :: 0 <= i < |s.workers| ==> s.workers[i] == Exited
    requires forall i :: 0 <= i < |s'.workers| ==> s'.workers[i] == Waiting
    ensures Tracked(s')
  {
    forall t ensures Counted(s', t) && Told(s', t) {
      assert Counted(s, t) && Told(s, t);
      UniformWorkers(s.workers, Exited, Holds(t));
      UniformWorkers(s.workers, Exited, Announced(t));
      UniformWorkers(s'.workers, Waiting, Holds(t));
      UniformWorkers(s'.workers, Waiting, Announced(t));
    }
    forall v ensures Answered(s', v) {
      assert Answered(s, v);
      UniformWorkers(s.workers, Exited, Knows(v));
      UniformWorkers(s'.workers, Waiting, Knows(v));
    }
  }

  lemma StartStopKeepsInv(c: Config, s: State, step: Step)
    requires Inv(c, s) && Enabled(c, s, step) && (step.Start? || step.StopReturns?)
    ensures Inv(c, Apply(c, s, step))
  {
    var s' := Apply(c, s, step);
    if step.StopReturns? {
      UniformWorkers(s.workers, Exited, Alive);
      IdleWorkersKeepTracked(s, s');
    } else if !s.running {
      UniformWorkers(s'.workers, Waiting, Alive);
      IdleWorkersKeepTracked(s, s');
    }
  }

  lemma QueueStepKeepsInv(c: Config, s: State, step: Step)
    requires Inv(c, s) && Enabled(c, s, step) && (step.Stop? || step.PutSentinel? || step.Enqueue?)
    ensures Inv(c, Apply(c, s, step))
  {
    SameWorkersKeepTracked(s, Apply(c, s, step));
    match step
    case Stop =>
    case PutSentinel => PutAtEnd(s.queue, Sentinel);
    case Enqueue(task) => PutAtEnd(s.queue, Job(task));
  }

  /** A task taken is then held; a task held is then done. */
  lemma WorkerStepMovesUnit(c: Config, s: State, step: Step, t: Task)
    requires Enabled(c, s, step) && WorkerStep(step)
    ensures multiset(TakenBy(c, s, step))[t] + Holds(t)(s.workers[step.w])
         == DoneBy(c, s, step)[t] + Holds(t)(After(c, s, step))
  {
  }

  lemma WorkerStepKeepsCount(c: Config, s: State, step: Step, t: Task)
    requires Enabled(c, s, step) && WorkerStep(step) && Counted(s, t)
    ensures Counted(Moved(c, s, step), t)
  {
    WorkerStepMovesUnit(c, s, step, t);
    WeightUpdate(s.workers, step.w, After(c, s, step), Holds(t));
    assert multiset(s.taken + TakenBy(c, s, step)) == multiset(s.taken) + multiset(TakenBy(c, s, step));
  }

  lemma WorkerStepKeepsOrder(c: Config, s: State, step: Step)
    requires InOrder(s) && Enabled(c, s, step) && WorkerStep(step)
    ensures InOrder(Moved(c, s, step))
  {
    var rest := Jobs(QueueAfter(c, s, step));
    assert Jobs(s.queue) == TakenBy(c, s, step) + rest;
    assert s.taken + (TakenBy(c, s, step) + rest) == s.taken + TakenBy(c, s, step) + rest;
  }

  /** An answer received is then known; an answer known is then announced. */
  lemma WorkerStepMovesAnswer(c: Config, s: State, step: Step, v: Verdict)
    requires Enabled(c, s, step) && WorkerStep(step)
    ensures RepliesBy(c, s, step)[v] + Knows(v)(s.workers[step.w]) == EventsBy(c, s, step)[v] + Knows(v)(After(c, s, step))
  {
  }

  /** A task announced is then done. */
  lemma WorkerStepMovesEvent(c: Config, s: State, step: Step, t: Task)
    requires Enabled(c, s, step) && WorkerStep(step)
    ensures EventsBy(c, s, step)[Verdict(t, true)] + EventsBy(c, s, step)[Verdict(t, false)] + Announced(t)(s.workers[step.w])
         == DoneBy(c, s, step)[t] + Announced(t)(After(c, s, step))
  {
  }

  lemma WorkerStepKeepsTracked(c: Config, s: State, step: Step)
    requires Tracked(s) && Enabled(c, s, step) && WorkerStep(step)
    ensures Tracked(Moved(c, s, step))
  {
    var after := After(c, s, step);
    forall t ensures Counted(Moved(c, s, step), t) && Told(Moved(c, s, step), t) {
      assert Counted(s, t) && Told(s, t);
      WorkerStepKeepsCount(c, s, step, t);
      WorkerStepMovesEvent(c, s, step, t);
      WeightUpdate(s.workers, step.w, after, Announced(t));
    }
    forall v ensures Answered(Moved(c, s, step), v) {
      assert Answered(s, v);
      WorkerStepMovesAnswer(c, s, step, v);
      WeightUpdate(s.workers, step.w, after, Knows(v));
    }
  }

  lemma {:induction false} AliveWorkerCounts(ws: seq<Worker>, w: nat)
    requires w < |ws| && !ws[w].Exited?
    ensures Weight(ws, Alive) > 0
  {
    if w < |ws| - 1 {
      AliveWorkerCounts(ws[..|ws| - 1], w);
    }
  }

  /** A sentinel taken is a worker ended; any other step leaves both alone. */
  lemma WorkerStepEndsWithSentinel(c: Config, s: State, step: Step)
    requires Enabled(c, s, step) && WorkerStep(step)
    ensures Sentinels(s.queue) + Alive(After(c, s, step)) == Sentinels(QueueAfter(c, s, step)) + Alive(s.workers[step.w])
  {
  }

  lemma WorkerStepKeepsBalance(c: Config, s: State, step: Step)
    requires SentinelBalance(s) && MarkPlaced(s) && Enabled(c, s, step) && WorkerStep(step)
    ensures SentinelBalance(Moved(c, s, step))
  {
    WorkerStepEndsWithSentinel(c, s, step);
    WeightUpdate(s.workers, step.w, After(c, s, step), Alive);
    AliveWorkerCounts(s.workers, step.w);
  }

  lemma WorkerStepKeepsMark(c: Config, s: State, step: Step)
    requires SentinelBalance(s) && MarkPlaced(s) && Enabled(c, s, step) && WorkerStep(step)
    ensures MarkPlaced(Moved(c, s, step))
  {
    AliveWorkerCounts(s.workers, step.w);
  }

  lemma WorkerStepKeepsInv(c: Config, s: State, step: Step)
    requires Inv(c, s) && Enabled(c, s, step) && WorkerStep(step)
    ensures Inv(c, Moved(c, s, step))
  {
    WorkerStepKeepsOrder(c, s, step);
    WorkerStepKeepsTracked(c, s, step);
    WorkerStepKeepsBalance(c, s, step);
    WorkerStepKeepsMark(c, s, step);
  }

  lemma StepKeepsInv(c: Config, s: State, step: Step)
    requires Inv(c, s) && Enabled(c, s, step)
    ensures Inv(c, Apply(c, s, step))
  {
    if WorkerStep(step) {
      WorkerStepKeepsInv(c, s, step);
    } else if step.Start? || step.StopReturns? {
      StartStopKeepsInv(c, s, step);
    } else {
      QueueStepKeepsInv(c, s, step);
    }
  }

  /** Every interleaving keeps the invariant. */
  lemma {:induction false} RunKeepsInv(c: Config, s: State, steps: seq<Step>)
    requires Inv(c, s) && Admissible(c, s, steps)
    ensures Inv(c, Exec(c, s, steps))
    decreases |steps|
  {
    if steps != [] {
      StepKeepsInv(c, s, steps[0]);
      RunKeepsInv(c, Apply(c, s, steps[0]), steps[1..]);
    }
  }

  /** The states some interleaving from the freshly built processor leads to. */
  ghost predicate Reachable(c: Config, s: State) {
    exists steps :: Admissible(c, INIT, steps) && Exec(c, INIT, steps) == s
  }

  lemma InitKeepsInv(c: Config)
    ensures Inv(c, INIT)
  {
    assert INIT.workers == [];
  }

  lemma ReachableInv(c: Config, s: State)
    requires Reachable(c, s)
    ensures Inv(c, s)
  {
    var steps :| Admissible(c, INIT, steps) && Exec(c, INIT, steps) == s;
    InitKeepsInv(c);
    RunKeepsInv(c, INIT, steps);
  }

  // ----- what every reachable state guarantees

  /** Conservation: at any moment the accepted tasks are those queued, those in some
      worker's hands and those finished; they are taken in the order accepted; no event
      is sent without the matching answer, and a finished task has had its one event. */
  lemma AcceptedTasksAreAccountedFor(c: Config, s: State)
    requires Reachable(c, s)
    ensures
      && s.accepted == s.taken + Jobs(s.queue)
      && (0 < c.maxsize ==> |s.queue| <= c.maxsize)
      && (forall t :: multiset(s.accepted)[t]
                   == multiset(Jobs(s.queue))[t] + Weight(s.workers, Holds(t)) + s.done[t])
      && (forall v :: s.events[v] <= s.replies[v])
      && (forall t :: s.events[Verdict(t, true)] + s.events[Verdict(t, false)]
                   == s.done[t] + Weight(s.workers, Announced(t)))
  {
    ReachableInv(c, s);
    assert multiset(s.accepted) == multiset(s.taken) + multiset(Jobs(s.queue));
    forall t
      ensures multiset(s.taken)[t] == Weight(s.workers, Holds(t)) + s.done[t]
      ensures s.events[Verdict(t, true)] + s.events[Verdict(t, false)] == s.done[t] + Weight(s.workers, Announced(t))
    {
      assert Counted(s, t) && Told(s, t);
    }
    forall v ensures s.events[v] <= s.replies[v] {
      assert Answered(s, v);
    }
  }

  /** Drain: when `stop()` is about to return, every worker has ended and no sentinel is
      left; exactly the tasks accepted before the last sentinel went in were processed,
      each with one event carrying its answer; later tasks are still queued in order. */
  lemma StopDrainsTheQueue(c: Config, s: State)
    requires Reachable(c, s) && Enabled(c, s, StopReturns) && s.workers != []
    ensures
      && s.mark <= |s.accepted|
      && s.taken == s.accepted[..s.mark]
      && |s.queue| == |s.accepted| - s.mark
      && (forall i :: 0 <= i < |s.queue| ==> s.queue[i] == Job(s.accepted[s.mark + i]))
      && s.done == multiset(s.accepted[..s.mark])
      && s.events == s.replies
      && (forall t :: multiset(s.accepted[..s.mark])[t] == s.events[Verdict(t, true)] + s.events[Verdict(t, false)])
  {
    ReachableInv(c, s);
    UniformWorkers(s.workers, Exited, Alive);
    NoSentinel(s.queue);
    forall t
      ensures multiset(s.taken)[t] == s.done[t] == s.events[Verdict(t, true)] + s.events[Verdict(t, false)]
    {
      assert Counted(s, t) && Told(s, t);
      UniformWorkers(s.workers, Exited, Holds(t));
      UniformWorkers(s.workers, Exited, Announced(t));
    }
    forall v ensures s.replies[v] == s.events[v] {
      assert Answered(s, v);
      UniformWorkers(s.workers, Exited, Knows(v));
    }
    assert s.taken == s.accepted[..s.mark];
  }

  /** Throughout `stop()`: sentinels still to put plus sentinels queued equal the workers
      that have not ended. */
  lemma SentinelsMatchWorkers(c: Config, s: State)
    requires Reachable(c, s)
    ensures !s.stopping.No? ==>
        (if s.stopping.Putting? then s.stopping.remaining else 0) + Sentinels(s.queue) == Weight(s.workers, Alive)
  {
    ReachableInv(c, s);
  }
}
