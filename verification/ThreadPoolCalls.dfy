/**
  Whole calls of the owning thread: construction, wait_for_tasks, reset and destruction, from the
  call to its return, whatever the workers do meanwhile.
 */
module ThreadPoolCalls {
  import opened Sequences
  import opened ThreadPool
  import opened ThreadPoolSafety
  import opened ThreadPoolWaiting
  import opened ThreadPoolHazards

  /** No push, no pause or unpause, no other call of the owner: a step of a worker or of the call itself. */
  predicate Unattended(a: Action) { Undisturbing(a) && LeavesOwnerAlone(a) }

  /** Nothing runs, and no worker is going to take a task while the pool is left alone. */
  ghost predicate AtRest(s: Pool) {
    && Active(s.workers) == 0
    && (s.paused || s.queue == [])
    && forall i :: 0 <= i < |s.workers| ==> !s.workers[i].Popping?
  }

  /** About to wait, or inside the wait. */
  predicate Waits(o: Owner) { o.RaiseWaiting? || InsideWait(o) }

  /** Between the wait and the end of the workers. */
  predicate TearsDown(o: Owner) { o.Stopping? || o.Joining? || o.Rebuilding? }

  /** Inside or just after a call with purpose `p` on a pool that had been given `tasks` and was paused or not. */
  ghost predicate During(s: Pool, p: Purpose, wasPaused: bool, tasks: seq<Task>) {
    && Inv(s) && Silent(s) && s.enqueued == tasks
    && (!p.Reset? ==> s.paused == wasPaused)
    && (s.owner.SawPaused? || s.owner.Satisfied? ==> s.owner.sawPaused == s.paused)
    && if s.owner.SavePaused? then p == Reset(s.owner.count, s.paused)
       else if s.owner.ForcePause? then s.owner.purpose == p && p.Reset?
       else if Waits(s.owner) then s.owner.purpose == p && (p.Reset? ==> s.paused)
       else if TearsDown(s.owner) then s.owner.purpose == p && !p.Plain? && AtRest(s)
       else if s.owner.Gone? then p.Destroy? && AtRest(s)
       else if s.owner.Idle? then p.Reset? || (p.Plain? && AtRest(s))
       else p.Reset?
  }

  lemma AtRestKept(s: Pool, i: nat)
    requires Inv(s) && AtRest(s) && Enabled(s, WorkerStep(i))
    ensures AtRest(StepWorker(s, i))
  {
    ActiveIdle(s.workers);
    ActiveUpdate(s.workers, i, StepWorker(s, i).workers[i]);
  }

  /** The wait ends at rest. */
  lemma WaitEndsAtRest(s: Pool)
    requires Inv(s) && Silent(s) && s.owner.Satisfied? && s.owner.sawPaused == s.paused
    ensures AtRest(s)
  {
    ActiveIdle(s.workers);
    assert |s.queue| + Active(s.workers) < WORD;
    assert forall i :: 0 <= i < |s.workers| ==> !WorkerHolds(s.workers[i]);
  }

  lemma DuringKeptByWorker(s: Pool, i: nat, p: Purpose, wasPaused: bool, tasks: seq<Task>)
    requires During(s, p, wasPaused, tasks) && Enabled(s, WorkerStep(i))
    ensures During(StepWorker(s, i), p, wasPaused, tasks)
  {
    InvKept(s, WorkerStep(i));
    hide Inv;
    if AtRest(s) {
      AtRestKept(s, i);
    }
  }

  lemma DuringKeptByOwner(s: Pool, p: Purpose, wasPaused: bool, tasks: seq<Task>)
    requires During(s, p, wasPaused, tasks) && OwnerCanStep(s)
    ensures During(StepOwner(s), p, wasPaused, tasks)
  {
    InvKept(s, OwnerStep);
    if s.owner.Satisfied? {
      WaitEndsAtRest(s);
    }
    hide Inv;
  }

  lemma {:induction false} DuringRun(s: Pool, actions: seq<Action>, p: Purpose, wasPaused: bool, tasks: seq<Task>)
    requires During(s, p, wasPaused, tasks) && Legal(s, actions)
    requires forall a :: a in actions ==> Unattended(a)
    ensures During(Exec(s, actions), p, wasPaused, tasks)
    decreases |actions|
  {
    if actions != [] {
      DuringKept(s, actions[0], p, wasPaused, tasks);
      hide During;
      DuringRun(Apply(s, actions[0]), actions[1..], p, wasPaused, tasks);
    }
  }

  lemma DuringKept(s: Pool, a: Action, p: Purpose, wasPaused: bool, tasks: seq<Task>)
    requires During(s, p, wasPaused, tasks) && Enabled(s, a) && Unattended(a)
    ensures During(Apply(s, a), p, wasPaused, tasks)
  {
    match a
    case WorkerStep(i) => DuringKeptByWorker(s, i, p, wasPaused, tasks);
    case OwnerStep => DuringKeptByOwner(s, p, wasPaused, tasks);
    case OwnerReadsTotal =>
      InvKept(s, a);
      hide Inv;
  }

  lemma CallRun(s: Pool, call: Action, rest: seq<Action>)
    requires Legal(s, [call] + rest)
    ensures Enabled(s, call) && Legal(Apply(s, call), rest)
    ensures Exec(s, [call] + rest) == Exec(Apply(s, call), rest)
  {
    assert ([call] + rest)[1..] == rest;
  }

  /** An idle pool with no push in flight on which an owner's call may be made. */
  ghost predicate Quiet(s: Pool) {
    Reachable(s) && s.owner.Idle? && s.uncounted == {}
  }

  lemma AtRestMeansFinished(s: Pool)
    requires Inv(s) && AtRest(s)
    ensures forall t :: t in s.started ==> t in s.finished
    ensures !s.paused ==> forall t :: t in s.enqueued ==> t in s.finished
  {
    IdleMeansFinished(s);
  }

  /**
    wait_for_tasks, from its call to its return: on an unpaused pool every task pushed before the call
    has finished, and on a paused one every task that was started.
   */
  lemma WaitFinishesTasks(s: Pool, rest: seq<Action>)
    requires Quiet(s) && Legal(s, [CallWait] + rest) && forall a :: a in rest ==> Unattended(a)
    requires Exec(s, [CallWait] + rest).owner.Idle?
    ensures var s' := Exec(s, [CallWait] + rest);
      && s'.enqueued == s.enqueued && Active(s'.workers) == 0
      && (forall t :: t in s'.started ==> t in s'.finished)
      && (!s.paused ==> forall t :: t in s.enqueued ==> t in s'.finished)
  {
    hide Exec, Legal, Reachable;
    ReachedInv(s);
    CallRun(s, CallWait, rest);
    InvKept(s, CallWait);
    DuringRun(Apply(s, CallWait), rest, Plain, s.paused, s.enqueued);
    AtRestMeansFinished(Exec(s, [CallWait] + rest));
  }

  /**
    The destructor, from its call to the end of the pool: on an unpaused pool every task pushed before
    the call has finished; on a paused one those that were started have, and the others never run.
   */
  lemma DestructorFinishesTasks(s: Pool, rest: seq<Action>)
    requires Quiet(s) && Legal(s, [CallDestroy] + rest) && forall a :: a in rest ==> Unattended(a)
    requires Exec(s, [CallDestroy] + rest).owner.Gone?
    ensures var s' := Exec(s, [CallDestroy] + rest);
      && s'.enqueued == s.enqueued
      && (forall i :: 0 <= i < |s'.workers| ==> s'.workers[i].Exited?)
      && (forall t :: t in s'.started ==> t in s'.finished)
      && (!s.paused ==> forall t :: t in s.enqueued ==> t in s'.finished)
  {
    hide Exec, Legal, Reachable;
    ReachedInv(s);
    CallRun(s, CallDestroy, rest);
    InvKept(s, CallDestroy);
    DuringRun(Apply(s, CallDestroy), rest, Destroy, s.paused, s.enqueued);
    AtRestMeansFinished(Exec(s, [CallDestroy] + rest));
  }

  /** The thread count that the documentation of the constructor and of reset promises. */
  ghost predicate Promised(n: nat, requested: nat, hardware: nat) {
    if requested > 0 then n == requested else if hardware > 0 then n == hardware else n == 1
  }

  /**
    A reset, from its call: the workers are stopped only when nothing runs any more; and when it
    returns, the pool runs the promised number of threads, is paused exactly if it was before, and
    still holds every task that was not started.
   */
  lemma ResetWaitsAndRestores(s: Pool, requested: nat, hardware: nat, rest: seq<Action>)
    requires Quiet(s) && Legal(s, [CallReset(requested, hardware)] + rest)
    requires forall a :: a in rest ==> Unattended(a)
    ensures var s' := Exec(s, [CallReset(requested, hardware)] + rest);
      && (TearsDown(s'.owner) ==> AtRest(s') && s'.paused)
      && (s'.owner.Idle? ==> s'.running && s'.paused == s.paused && Promised(|s'.workers|, requested, hardware))
      && s'.enqueued == s.enqueued == s'.started + s'.queue
  {
    hide Exec, Legal, Reachable;
    ReachedInv(s);
    var call := CallReset(requested, hardware);
    var n := DetermineThreadCount(requested, hardware);
    CallRun(s, call, rest);
    InvKept(s, call);
    DuringRun(Apply(s, call), rest, Reset(n, s.paused), s.paused, s.enqueued);
    ResetRestores(Apply(s, call), rest, n, s.paused);
  }

  /** The constructor returns an unpaused pool that runs the promised number of threads. */
  lemma ConstructionStarts(requested: nat, hardware: nat, actions: seq<Action>)
    requires requested <= THREADS_MAX && hardware <= THREADS_MAX
    requires Legal(Constructed(requested, hardware), actions) && forall a :: a in actions ==> LeavesOwnerAlone(a)
    requires Exec(Constructed(requested, hardware), actions).owner.Idle?
    ensures var s := Exec(Constructed(requested, hardware), actions);
      s.running && !s.paused && Promised(|s.workers|, requested, hardware)
  {
    hide Exec, Legal;
    ConstructedIsReachable(requested, hardware);
    ReachedInv(Constructed(requested, hardware));
    ResetRestores(Constructed(requested, hardware), actions, DetermineThreadCount(requested, hardware), false);
  }

  // Workers are never stuck.

  /** The steps a worker of a stopped pool still takes up to its end. */
  function StepsToExit(w: Worker, paused: bool): nat {
    match w
    case AtTop => 1
    case Acquiring | Parked => 4
    case Testing => 3
    case Past => 2
    case Cleared => if paused then 2 else 7
    case Popping => 6
    case Executing(_) => 5
    case Returning(_) => 4
    case Decrementing => 3
    case Notifying => 2
    case Exited => 0
  }

  lemma StepToExit(s: Pool, i: nat)
    requires Inv(s) && !s.running && i < |s.workers| && !s.workers[i].Exited?
    requires s.lock.Free? || s.lock == HeldByWorker(i)
    ensures Enabled(s, WorkerStep(i))
    ensures var s' := Apply(s, WorkerStep(i));
      && |s'.workers| == |s.workers| && !s'.running && (s'.lock.Free? || s'.lock == HeldByWorker(i))
      && StepsToExit(s'.workers[i], s'.paused) == StepsToExit(s.workers[i], s.paused) - 1
  {
  }

  /**
    Once the pool is stopped, every worker that can have the lock gets to its end by its own steps,
    wherever it is: parked, about to take a task, or inside one. So the joins wait for nothing else.
   */
  lemma {:induction false} StoppedWorkerExits(s: Pool, i: nat)
    requires Inv(s) && !s.running && i < |s.workers|
    requires s.lock.Free? || s.lock == HeldByWorker(i)
    ensures var turn := Repeat(WorkerStep(i), StepsToExit(s.workers[i], s.paused));
      Legal(s, turn) && |Exec(s, turn).workers| == |s.workers| && Exec(s, turn).workers[i].Exited?
    decreases StepsToExit(s.workers[i], s.paused)
  {
    var n := StepsToExit(s.workers[i], s.paused);
    if n > 0 {
      StepToExit(s, i);
      InvKept(s, WorkerStep(i));
      hide Inv, NextWorker, StepWorker, StepsToExit;
      assert Repeat(WorkerStep(i), n)[1..] == Repeat(WorkerStep(i), n - 1);
      StoppedWorkerExits(Apply(s, WorkerStep(i)), i);
    }
  }

  /** The steps a worker takes up to its next task, when there is one to take. */
  function StepsToTask(w: Worker): nat {
    match w
    case AtTop => 6
    case Acquiring | Parked => 5
    case Testing => 4
    case Past => 3
    case Cleared => 2
    case Popping => 1
    case Executing(_) => 10
    case Returning(_) => 9
    case Decrementing => 8
    case Notifying => 7
    case Exited => 0
  }

  lemma StepToTask(s: Pool, i: nat)
    requires Inv(s) && s.running && !s.paused && s.queue != []
    requires i < |s.workers| && !s.workers[i].Exited? && (s.lock.Free? || s.lock == HeldByWorker(i))
    ensures Enabled(s, WorkerStep(i))
    ensures var s' := Apply(s, WorkerStep(i));
      && |s'.workers| == |s.workers| && s'.running && !s'.paused && (s'.lock.Free? || s'.lock == HeldByWorker(i))
      && if s.workers[i].Popping? then s'.started == s.started + [s.queue[0]] && s'.workers[i] == Executing(s.queue[0])
         else && s'.started == s.started && s'.queue == s.queue && !s'.workers[i].Exited?
              && StepsToTask(s'.workers[i]) == StepsToTask(s.workers[i]) - 1
  {
  }

  /**
    On a running, unpaused pool with a task queued, every worker that can have the lock gets to the
    oldest task by its own steps, whether it is parked, elsewhere in its loop, or in another task.
   */
  lemma {:induction false} WorkerTakesOldestTask(s: Pool, i: nat)
    requires Inv(s) && s.running && !s.paused && s.queue != []
    requires i < |s.workers| && !s.workers[i].Exited? && (s.lock.Free? || s.lock == HeldByWorker(i))
    ensures var turn := Repeat(WorkerStep(i), StepsToTask(s.workers[i]));
      Legal(s, turn) && Exec(s, turn).started == s.started + [s.queue[0]]
    decreases StepsToTask(s.workers[i])
  {
    var n := StepsToTask(s.workers[i]);
    StepToTask(s, i);
    InvKept(s, WorkerStep(i));
    hide Inv, NextWorker, StepWorker;
    assert Repeat(WorkerStep(i), n)[1..] == Repeat(WorkerStep(i), n - 1);
    if s.workers[i].Popping? {
      assert Repeat(WorkerStep(i), 0) == [];
    } else {
      WorkerTakesOldestTask(Apply(s, WorkerStep(i)), i);
    }
  }

  // The calls do return.

  /** Worker `i` of a stopped pool leaves its loop. */
  lemma Leaves(s: Pool, i: nat) returns (s': Pool)
    requires Reachable(s) && !s.running && i < |s.workers| && s.workers[i].AtTop?
    ensures Reachable(s') && s' == s.(workers := s.workers[i := Exited])
  {
    hide Reachable;
    s' := ReachStep(s, WorkerStep(i));
  }

  /** A pool that has run one task, and a call that has waited and stopped its two workers. */
  lemma Stops(s: Pool, call: Action) returns (s': Pool)
    requires Reachable(s) && s.owner.Idle? && s.lock.Free? && s.workers == [AtTop, AtTop]
    requires s.queue == [] && s.total == 0 && s.uncounted == {} && !s.paused
    requires call == CallDestroy || call == CallReset(3, 0)
    ensures Reachable(s') && s'.workers == [Exited, Exited] && !s'.running && s'.lock.Free?
    ensures s'.owner == Rebuilding(if call.CallDestroy? then Destroy else Reset(3, false))
    ensures s'.finished == s.finished && s'.enqueued == s.enqueued && s'.queue == []
  {
    hide Reachable;
    s' := ReachStep(s, call);
    if call.CallReset? {
      s' := ReachStep(s', OwnerStep);
      s' := ReachStep(s', OwnerStep);
    }
    s' := WaitsAndStops(s');
    s' := BothLeave(s');
  }

  lemma BothLeave(s: Pool) returns (s': Pool)
    requires Reachable(s) && !s.running && s.workers == [AtTop, AtTop]
    requires s.owner.Joining? && s.owner.index == 0
    ensures Reachable(s') && s' == s.(workers := [Exited, Exited], owner := Rebuilding(s.owner.purpose))
  {
    hide Reachable;
    s' := Leaves(s, 0);
    s' := Leaves(s', 1);
    assert s'.workers == [Exited, Exited];
    s' := ReachStep(s', OwnerStep);
    s' := ReachStep(s', OwnerStep);
    s' := ReachStep(s', OwnerStep);
  }

  lemma WaitsAndStops(s: Pool) returns (s': Pool)
    requires Reachable(s) && s.owner.RaiseWaiting? && !s.owner.purpose.Plain? && s.lock.Free?
    requires s.queue == [] && s.total == 0
    ensures Reachable(s') && s' == s.(waiting := false, running := false, owner := Joining(s.owner.purpose, 0))
  {
    hide Reachable;
    s' := WaitSatisfied(s);
    s' := ReachStep(s', OwnerStep);
    s' := ReachStep(s', OwnerStep);
  }

  lemma WaitSatisfied(s: Pool) returns (s': Pool)
    requires Reachable(s) && s.owner.RaiseWaiting? && s.lock.Free? && s.queue == [] && s.total == 0
    ensures Reachable(s') && s'.owner.Satisfied? && s'.owner.purpose == s.owner.purpose
    ensures s' == s.(waiting := true, lock := HeldByOwner, owner := s'.owner)
  {
    hide Reachable;
    s' := ReachStep(s, OwnerStep);
    s' := ReachStep(s', OwnerStep);
    s' := ReachStep(s', OwnerStep);
    s' := ReachStep(s', OwnerStep);
  }

  /** A pool of two threads that has run one task. */
  lemma OneTaskDone() returns (s: Pool)
    ensures Reachable(s) && s.owner.Idle? && s.lock.Free? && s.workers == [AtTop, AtTop]
    ensures s.queue == [] && s.total == 0 && s.uncounted == {} && !s.paused
    ensures s.enqueued == [0] && s.finished == [0]
  {
    hide Reachable;
    s := TwoThreads();
    s := ReachStep(s, Enqueue(0));
    s := ReachStep(s, Count(0));
    s := Begin(s, 0);
    s := End(s, 0);
    assert s.workers == [AtTop, AtTop];
  }

  /** A pool can be destroyed after its task has finished. */
  lemma DestructorCanEnd() returns (s: Pool)
    ensures Reachable(s) && s.owner.Gone? && s.enqueued == [0] && s.finished == [0]
  {
    hide Reachable;
    s := OneTaskDone();
    s := Stops(s, CallDestroy);
    s := ReachStep(s, OwnerStep);
  }

  /** A reset to three threads can return. */
  lemma ResetCanEnd() returns (s: Pool)
    ensures Reachable(s) && s.owner.Idle? && s.running && !s.paused && s.workers == [AtTop, AtTop, AtTop]
    ensures s.finished == [0]
  {
    hide Reachable;
    s := OneTaskDone();
    s := Stops(s, CallReset(3, 0));
    s := ReachStep(s, OwnerStep);
    s := ReachStep(s, OwnerStep);
    s := ReachStep(s, OwnerStep);
    s := ReachStep(s, OwnerStep);
    s := ReachStep(s, OwnerStep);
    s := ReachStep(s, OwnerStep);
    s := ReachStep(s, OwnerStep);
    assert s.workers == [AtTop, AtTop, AtTop];
  }
}
