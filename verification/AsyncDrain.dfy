/** Progress of the memory queue's `stop()`: it never deadlocks, and every drain ends. */
module AsyncDrain {
  import opened PyCollections
  import opened AsyncProcessor

  function Cost(w: Worker): nat {
    match w
    case Checking(_) => 5
    case Calling(_, _) => 4
    case Warming(_) => 3
    case Notifying(_, _) => 2
    case Finishing(_) => 1
    case _ => 0
  }

  /** What `stop()` itself has left to do, sentinels weighing what workers then do with them. */
  function ToPut(stopping: Stopping): nat {
    match stopping
    case No => 0
    case Putting(n) => 7 * n + 1
    case Joining => 1
  }

  /** What is left to do before `stop()` returns. */
  ghost function Measure(s: State): nat {
    ToPut(s.stopping) + 6 * |s.queue| + Weight(s.workers, Cost)
  }

  /** The steps of `stop()` and of the workers, as opposed to calls from outside. */
  predicate Internal(step: Step) {
    WorkerStep(step) || step.PutSentinel? || step.StopReturns?
  }

  lemma WorkerStepDescends(c: Config, s: State, step: Step)
    requires Enabled(c, s, step) && WorkerStep(step)
    ensures Measure(Moved(c, s, step)) < Measure(s)
  {
    WeightUpdate(s.workers, step.w, After(c, s, step), Cost);
    assert 6 * |QueueAfter(c, s, step)| + Cost(After(c, s, step)) < 6 * |s.queue| + Cost(s.workers[step.w]);
  }

  lemma InternalStepDescends(c: Config, s: State, step: Step)
    requires SentinelBalance(s) && Enabled(c, s, step) && Internal(step)
    ensures Measure(Apply(c, s, step)) < Measure(s)
  {
    if WorkerStep(step) {
      WorkerStepDescends(c, s, step);
    }
  }

  lemma {:induction false} AllExitedOrFindAlive(ws: seq<Worker>) returns (w: nat)
    ensures w <= |ws|
    ensures w < |ws| ==> !ws[w].Exited?
    ensures w == |ws| ==> (forall i :: 0 <= i < |ws| ==> ws[i].Exited?) && Weight(ws, Alive) == 0
  {
    if ws == [] {
      w := 0;
    } else {
      w := AllExitedOrFindAlive(ws[..|ws| - 1]);
      if w == |ws| - 1 && ws[w].Exited? {
        w := |ws|;
      }
    }
  }

  lemma {:induction false} FindBusy(ws: seq<Worker>) returns (w: nat)
    ensures w <= |ws|
    ensures w < |ws| ==> !ws[w].Exited? && !ws[w].Waiting?
    ensures w == |ws| ==> forall i :: 0 <= i < |ws| ==> ws[i].Exited? || ws[i].Waiting?
  {
    w := 0;
    while w < |ws| && (ws[w].Exited? || ws[w].Waiting?)
      invariant w <= |ws|
      invariant forall i :: 0 <= i < w ==> ws[i].Exited? || ws[i].Waiting?
    {
      w := w + 1;
    }
  }

  /** `stop()` never deadlocks, whatever the queue bound: while it has not returned, some
      step of a worker or of `stop()` itself can be taken. */
  lemma StopIsNeverStuck(c: Config, s: State)
    requires Reachable(c, s) && !s.stopping.No?
    ensures exists step :: Internal(step) && Enabled(c, s, step)
  {
    ReachableInv(c, s);
    var w := FindBusy(s.workers);
    var step;
    if w < |s.workers| {
      match s.workers[w] {
        case Checking(_) => step := CheckerReplies(w, None);
        case Calling(_, _) => step := LtmReplies(w, false);
        case Warming(_) => step := WarmReplies(w);
        case Notifying(_, _) => step := Notify(w);
        case Finishing(_) => step := TaskDone(w);
      }
    } else {
      w := AllExitedOrFindAlive(s.workers);
      if w == |s.workers| {
        step := StopReturns;
      } else if s.queue != [] {
        step := Get(w);
      } else {
        AliveWorkerCounts(s.workers, w);
        step := PutSentinel;
      }
    }
    assert Internal(step) && Enabled(c, s, step);
  }

  /** With no further calls from outside, the steps of a stopping processor are bounded by
      the measure; so together with StopIsNeverStuck every drain ends with `stop()` returned. */
  lemma {:induction false} DrainIsBounded(c: Config, s: State, steps: seq<Step>)
    requires Inv(c, s) && Admissible(c, s, steps)
    requires forall i :: 0 <= i < |steps| ==> Internal(steps[i])
    ensures |steps| + Measure(Exec(c, s, steps)) <= Measure(s)
    decreases |steps|
  {
    if steps != [] {
      var s' := Apply(c, s, steps[0]);
      InternalStepDescends(c, s, steps[0]);
      RunKeepsInv(c, s, [steps[0]]);
      assert Exec(c, s, [steps[0]]) == Exec(c, s', []);
      DrainIsBounded(c, s', steps[1..]);
    }
  }

  lemma {:induction false} RunsCompose(c: Config, s: State, first: seq<Step>, second: seq<Step>)
    requires Admissible(c, s, first) && Admissible(c, Exec(c, s, first), second)
    ensures Admissible(c, s, first + second)
    ensures Exec(c, s, first + second) == Exec(c, Exec(c, s, first), second)
    decreases |first|
  {
    if first == [] {
      assert first + second == second;
    } else {
      assert (first + second)[1..] == first[1..] + second;
      RunsCompose(c, Apply(c, s, first[0]), first[1..], second);
    }
  }

  /** Liveness: a drain that runs until no worker and no part of `stop()` can move any
      further takes at most Measure(s) steps and ends with `stop()` returned. */
  lemma EveryMaximalDrainReturns(c: Config, s: State, steps: seq<Step>)
    requires Reachable(c, s) && !s.stopping.No?
    requires Admissible(c, s, steps) && forall i :: 0 <= i < |steps| ==> Internal(steps[i])
    requires forall step :: Internal(step) ==> !Enabled(c, Exec(c, s, steps), step)
    ensures Exec(c, s, steps).stopping.No? && |steps| <= Measure(s)
  {
    ReachableInv(c, s);
    DrainIsBounded(c, s, steps);
    var s' := Exec(c, s, steps);
    var past :| Admissible(c, INIT, past) && Exec(c, INIT, past) == s;
    RunsCompose(c, INIT, past, steps);
    assert Reachable(c, s');
    if !s'.stopping.No? {
      StopIsNeverStuck(c, s');
      assert false;
    }
  }
}
