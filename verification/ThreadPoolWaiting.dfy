/**
  Whole runs of the thread pool: exactly-once execution in order, what a return from wait_for_tasks
  means, when the waiter can miss its wake-up, and what pausing and resetting guarantee.
 */
module ThreadPoolWaiting {
  import opened Sequences
  import opened ThreadPool
  import opened ThreadPoolSafety

  /** The states the program can reach. */
  ghost predicate ReachedBy(s: Pool, requested: nat, hardware: nat, actions: seq<Action>) {
    && requested <= THREADS_MAX && hardware <= THREADS_MAX
    && Legal(Constructed(requested, hardware), actions)
    && s == Exec(Constructed(requested, hardware), actions)
  }

  /** In a pool constructed with any thread count, after any interleaving of actions. */
  ghost predicate Reachable(s: Pool) {
    exists requested, hardware, actions :: ReachedBy(s, requested, hardware, actions)
  }

  lemma ConstructedIsReachable(requested: nat, hardware: nat)
    requires requested <= THREADS_MAX && hardware <= THREADS_MAX
    ensures Reachable(Constructed(requested, hardware))
  {
    assert ReachedBy(Constructed(requested, hardware), requested, hardware, []);
  }

  lemma ReachedInv(s: Pool)
    requires Reachable(s)
    ensures Inv(s)
  {
    hide Exec;
    var requested, hardware, actions :| ReachedBy(s, requested, hardware, actions);
    InvRun(Constructed(requested, hardware), actions);
  }

  lemma {:induction false} ExecAppend(s: Pool, actions: seq<Action>, a: Action)
    requires Legal(s, actions) && Enabled(Exec(s, actions), a)
    ensures Legal(s, actions + [a]) && Exec(s, actions + [a]) == Apply(Exec(s, actions), a)
    decreases |actions|
  {
    if actions == [] {
      assert actions + [a] == [a];
    } else {
      assert (actions + [a])[1..] == actions[1..] + [a];
      ExecAppend(Apply(s, actions[0]), actions[1..], a);
    }
  }

  lemma ReachStep(s: Pool, a: Action) returns (s': Pool)
    requires Reachable(s) && Enabled(s, a)
    ensures s' == Apply(s, a) && Reachable(s')
  {
    s' := Apply(s, a);
    var requested, hardware, actions :| ReachedBy(s, requested, hardware, actions);
    ExecAppend(Constructed(requested, hardware), actions, a);
    assert ReachedBy(s', requested, hardware, actions + [a]);
  }

  /** No task is lost, reordered or started twice, whatever the interleaving and however often the pool is reset. */
  lemma ExactlyOnceInOrder(s: Pool)
    requires Reachable(s)
    ensures s.enqueued == s.started + s.queue
    ensures NoDuplicates(s.started) && NoDuplicates(s.finished)
    ensures forall t :: t in s.finished ==> t in s.started
    ensures forall t :: t in s.started && t !in s.finished ==> IsExecuting(s.workers, t)
  {
    ReachedInv(s);
    assert forall k :: 0 <= k < |s.started| ==> s.started[k] == s.enqueued[k];
  }

  /** A worker never takes the front of an empty queue, across any number of resets. */
  lemma NeverPopsEmptyQueue(s: Pool)
    requires Reachable(s)
    ensures !s.fault
    ensures forall i :: 0 <= i < |s.workers| && s.workers[i].Popping? ==> s.queue != []
  {
    ReachedInv(s);
  }

  /**
    get_tasks_running() subtracts the queue length from the counter, so it reports the popped tasks
    minus the pushes in flight: it is exact precisely when no push is in flight.
   */
  function TasksRunning(s: Pool): nat { Wrap(s.total - |s.queue|) }

  lemma TasksRunningReport(s: Pool)
    requires Reachable(s)
    ensures TasksRunning(s) == Wrap(Active(s.workers) - |s.uncounted|)
    ensures TasksRunning(s) == Active(s.workers) <==> Wrap(|s.uncounted|) == 0
    ensures s.total == Wrap(|s.queue| + TasksRunning(s))
  {
    hide Reachable;
    ReachedInv(s);
    ActiveIdle(s.workers);
    hide Inv, Wrap, Active;
    CounterMeaning(s.total, |s.queue|, Active(s.workers), |s.uncounted|);
  }

  lemma CounterMeaning(total: nat, queued: nat, active: nat, inFlight: nat)
    requires total == Wrap(queued + active - inFlight) && active < WORD
    ensures Wrap(total - queued) == Wrap(active - inFlight)
    ensures Wrap(total - queued) == active <==> Wrap(inFlight) == 0
    ensures total == Wrap(queued + Wrap(total - queued))
  {
    WrapShift(queued + active - inFlight, 0 - queued);
    WrapShift(total - queued, queued);
    WrapSame(active, inFlight);
  }

  lemma WrapSame(x: nat, d: nat)
    requires x < WORD
    ensures Wrap(x - d) == x <==> Wrap(d) == 0
  {
    WrapShift(x - d, d);
    WrapShift(d, x - d);
    assert Wrap(x) == x;
  }

  /** Everything pushed so far has been executed and accounted for. */
  ghost predicate Settled(s: Pool) {
    s.queue == [] && Active(s.workers) == 0
  }

  /**
    The exact meaning of a return from wait_for_tasks. The count of pushes in flight when the waiter
    read the counter decides: with none, a waiter that saw the pool unpaused returns only with
    everything settled, and one that saw it paused returns only with nothing running; with any
    (up to the counter's width) it returns although work remains.
   */
  lemma WaitReturns(s: Pool)
    requires Reachable(s)
    requires s.owner.Satisfied?
    ensures !s.owner.sawPaused ==> (Settled(s) <==> Wrap(s.owner.inFlight) == 0)
    ensures s.owner.sawPaused ==> (Active(s.workers) == 0 <==> Wrap(s.owner.inFlight) == 0)
    ensures Wrap(s.owner.inFlight) == 0 ==> forall t :: t in s.started ==> t in s.finished
    ensures Wrap(s.owner.inFlight) == 0 && !s.owner.sawPaused ==> forall t :: t in s.enqueued ==> t in s.finished
  {
    ReachedInv(s);
    var f, q, r := s.owner.inFlight, |s.queue|, Active(s.workers);
    ActiveIdle(s.workers);
    if s.owner.sawPaused {
      WrapShift(q + r - f, -q);
      assert Wrap(r - f) == 0;
      WrapZero(r, f);
    } else {
      WrapZero(q + r, f);
    }
    if Wrap(f) == 0 {
      IdleMeansFinished(s);
    }
  }

  lemma WrapZero(x: nat, f: nat)
    requires x < WORD && Wrap(x - f) == 0
    ensures x == Wrap(f)
  {
    WrapShift(x - f, f);
  }

  /** No push is in flight, and none was when the waiter looked. */
  predicate Silent(s: Pool) {
    s.uncounted == {} && (s.owner.SawTotal? || s.owner.Satisfied? ==> s.owner.inFlight == 0)
  }

  lemma {:induction false} SilenceLasts(s: Pool, actions: seq<Action>)
    requires Reachable(s) && Silent(s) && Legal(s, actions)
    requires forall a :: a in actions ==> !a.Enqueue? && !a.Count?
    ensures Reachable(Exec(s, actions)) && Silent(Exec(s, actions))
    ensures Exec(s, actions).enqueued == s.enqueued
    decreases |actions|
  {
    hide Reachable;
    if actions != [] {
      var s' := ReachStep(s, actions[0]);
      SilenceLasts(s', actions[1..]);
    }
  }

  /**
    The shutdown of the gateway: the pushing thread is gone before the node is destroyed, so when the
    node's wait on its unpaused pool returns, every task ever pushed has finished.
   */
  lemma ShutdownFinishesEverything(s: Pool, actions: seq<Action>)
    requires Reachable(s) && s.owner.Idle? && s.uncounted == {}
    requires Legal(s, actions) && forall a :: a in actions ==> !a.Enqueue? && !a.Count?
    requires Exec(s, actions).owner.Satisfied? && !Exec(s, actions).owner.sawPaused
    ensures forall t :: t in s.enqueued ==> t in Exec(s, actions).finished
  {
    SilenceLasts(s, actions);
    WaitReturns(Exec(s, actions));
  }

  lemma IdleMeansFinished(s: Pool)
    requires Inv(s) && Active(s.workers) == 0
    ensures forall t :: t in s.started ==> t in s.finished
  {
    ActiveIdle(s.workers);
  }

  /** What has finished stays finished. */
  lemma {:induction false} FinishedGrows(s: Pool, actions: seq<Action>)
    requires Legal(s, actions)
    ensures s.finished <= Exec(s, actions).finished
    decreases |actions|
  {
    if actions != [] {
      FinishedGrows(Apply(s, actions[0]), actions[1..]);
    }
  }

  /**
    The end of a destructor: if its wait saw the pool unpaused with no push in flight, every task enqueued by
    then has finished when the pool is gone; and no task is running then, whatever the wait saw.
   */
  lemma EndAfterWait(s: Pool, after: seq<Action>)
    requires Reachable(s) && s.owner.Satisfied? && s.owner.purpose.Destroy?
    requires Legal(s, after) && Exec(s, after).owner.Gone?
    ensures !s.owner.sawPaused && Wrap(s.owner.inFlight) == 0 ==>
              forall t :: t in s.enqueued ==> t in Exec(s, after).finished
    ensures forall t :: t in Exec(s, after).started ==> t in Exec(s, after).finished
  {
    WaitReturns(s);
    FinishedGrows(s, after);
    ReachedInv(s);
    InvRun(s, after);
    GenerationOver(Exec(s, after));
  }

  lemma GenerationOver(s: Pool)
    requires Inv(s)
    requires s.owner.Rebuilding? || s.owner.RestorePaused? || s.owner.Creating? || s.owner.Gone?
    ensures Active(s.workers) == 0
    ensures forall t :: t in s.started ==> t in s.finished
  {
    ActiveIdle(s.workers);
    IdleMeansFinished(s);
  }

  /**
    Between two generations of workers nothing runs, every started task has finished, and every
    other enqueued task is still queued in order for the next generation.
   */
  lemma ResetKeepsQueuedTasks(s: Pool)
    requires Reachable(s)
    requires s.owner.RestorePaused? || s.owner.Creating?
    ensures s.workers == []
    ensures forall t :: t in s.started <==> t in s.finished
    ensures s.enqueued == s.started + s.queue
  {
    ReachedInv(s);
    GenerationOver(s);
  }

  /** The owner is inside the construction or a reset that will end with `count` threads and pause flag `wasPaused`. */
  ghost predicate Restarting(s: Pool, count: nat, wasPaused: bool) {
    match s.owner
    case SavePaused(n) => n == count && s.paused == wasPaused
    case RestorePaused(n, w) => n == count && w == wasPaused
    case Creating(n) => n == count && s.paused == wasPaused
    case Spawning(n) => n == count && s.paused == wasPaused && |s.workers| <= n
    case Idle => s.paused == wasPaused && |s.workers| == count && s.running
    case Gone => false
    case _ => s.owner.purpose == Reset(count, wasPaused) && (s.owner.ForcePause? || s.paused)
  }

  predicate LeavesOwnerAlone(a: Action) {
    !a.SetPaused? && !a.CallWait? && !a.CallReset? && !a.CallDestroy?
  }

  lemma RestartingKeptByOwner(s: Pool, count: nat, wasPaused: bool)
    requires GenerationInv(s) && Restarting(s, count, wasPaused) && OwnerCanStep(s)
    ensures Restarting(StepOwner(s), count, wasPaused)
  {
  }

  lemma RestartingKept(s: Pool, a: Action, count: nat, wasPaused: bool)
    requires GenerationInv(s) && Restarting(s, count, wasPaused) && Enabled(s, a) && LeavesOwnerAlone(a)
    ensures Restarting(Apply(s, a), count, wasPaused)
  {
    match a
    case OwnerStep => RestartingKeptByOwner(s, count, wasPaused);
    case _ =>
  }

  /**
    When a reset returns, the pool runs the requested number of threads and is paused exactly if it
    was paused before, whatever was pushed and executed meanwhile.
   */
  lemma {:induction false} ResetRestores(s: Pool, actions: seq<Action>, count: nat, wasPaused: bool)
    requires Inv(s) && Restarting(s, count, wasPaused) && Legal(s, actions)
    requires forall a :: a in actions ==> LeavesOwnerAlone(a)
    ensures Restarting(Exec(s, actions), count, wasPaused)
    ensures var s' := Exec(s, actions);
      s'.owner.Idle? ==> s'.running && s'.paused == wasPaused && |s'.workers| == count
    decreases |actions|
  {
    if actions != [] {
      InvKept(s, actions[0]);
      RestartingKept(s, actions[0], count, wasPaused);
      hide Inv;
      ResetRestores(Apply(s, actions[0]), actions[1..], count, wasPaused);
    }
  }

  // Lost wake-ups.

  /** A worker that has taken a task, or is about to, and has not yet notified the waiter of it. */
  predicate WillNotify(w: Worker) {
    w.Popping? || w.Executing? || w.Returning? || w.Decrementing? || w.Notifying?
  }

  /** The sleeping waiter has been notified, or a worker is about to notify it. */
  ghost predicate Signalled(s: Pool) {
    s.owner.Sleeping? && (s.owner.notified || exists i :: 0 <= i < |s.workers| && s.workers[i].Notifying?)
  }

  /** A wake-up has been given, or a worker is on its way to one, or will take a task and then be. */
  ghost predicate WakePending(s: Pool) {
    && s.owner.Sleeping?
    && (s.owner.notified
        || (exists i :: 0 <= i < |s.workers| && WillNotify(s.workers[i]))
        || (!s.paused && s.queue != []))
  }

  /** The waiter sleeps, its predicate holds, and nobody is going to notify it. */
  ghost predicate WakeLost(s: Pool) {
    s.owner.Sleeping? && WaitPredicate(s) && !WakePending(s)
  }

  /** 1 while some worker is committed to popping although the pool may be paused by now. */
  function Committed(s: Pool): nat {
    if s.lock.HeldByWorker? && s.lock.index < |s.workers| && s.workers[s.lock.index].Popping? then 1 else 0
  }

  /** Nobody is on the way to a notification, said by counts. */
  lemma NobodyNotifies(s: Pool)
    requires LockInv(s) && s.owner.Sleeping?
    ensures (forall i :: 0 <= i < |s.workers| ==> !WillNotify(s.workers[i])) && !s.owner.notified <==>
            !Signalled(s) && Active(s.workers) == 0 && Committed(s) == 0
  {
    ActiveIdle(s.workers);
    if Committed(s) == 1 {
      assert WillNotify(s.workers[s.lock.index]);
    }
    if i :| 0 <= i < |s.workers| && s.workers[i].Popping? {
      assert s.lock == HeldByWorker(i);
    }
    if !Signalled(s) && Active(s.workers) == 0 && Committed(s) == 0 {
      forall i | 0 <= i < |s.workers| ensures !WillNotify(s.workers[i]) {
        assert Weight(s.workers[i]) == 0;
      }
    }
  }

  /** Holds while no push is in flight and `paused` is not touched from outside. */
  ghost predicate Attentive(s: Pool) {
    && Inv(s)
    && s.uncounted == {}
    && (s.owner.SawPaused? ==> s.owner.sawPaused == s.paused)
    && (s.owner.SawTotal? ==> s.owner.inFlight == 0)
    && (s.owner.Sleeping? && WaitPredicate(s) ==> Signalled(s))
  }

  predicate Undisturbing(a: Action) {
    !a.Enqueue? && !a.Count? && !a.SetPaused?
  }

  lemma AttentiveKeptByWorker(s: Pool, i: nat)
    requires Attentive(s) && Enabled(s, WorkerStep(i))
    ensures var s' := StepWorker(s, i); s'.owner.Sleeping? && WaitPredicate(s') ==> Signalled(s')
  {
    var s' := StepWorker(s, i);
    ActiveIdle(s.workers);
    var w := s.workers[i];
    if s.owner.Sleeping? {
      if w.Decrementing? {
        assert s'.workers[i].Notifying?;
      } else if w.Popping? {
        assert s.total == |s.queue| + Active(s.workers);
        assert !WaitPredicate(s');
      } else if !w.Notifying? {
        assert WaitPredicate(s') == WaitPredicate(s);
        if k :| 0 <= k < |s.workers| && s.workers[k].Notifying? {
          assert s'.workers[k].Notifying?;
        }
      }
    }
  }

  lemma AttentiveKept(s: Pool, a: Action)
    requires Attentive(s) && Enabled(s, a) && Undisturbing(a)
    ensures Attentive(Apply(s, a))
  {
    InvKept(s, a);
    match a
    case WorkerStep(i) => AttentiveKeptByWorker(s, i);
    case _ =>
  }

  /**
    With no push in flight and no pause or unpause from outside, a sleeping waiter whose predicate
    holds has been notified or is about to be, over any further run.
   */
  lemma {:induction false} NoLostWakeUp(s: Pool, actions: seq<Action>)
    requires Attentive(s) && Legal(s, actions)
    requires forall a :: a in actions ==> Undisturbing(a)
    ensures Attentive(Exec(s, actions))
    ensures var s' := Exec(s, actions); s'.owner.Sleeping? && WaitPredicate(s') ==> Signalled(s') && !WakeLost(s')
    decreases |actions|
  {
    if actions != [] {
      AttentiveKept(s, actions[0]);
      NoLostWakeUp(Apply(s, actions[0]), actions[1..]);
    }
  }

  /** Every quiet state outside a wait is attentive, so the theorem applies from there on. */
  lemma AttentiveWhenIdle(s: Pool)
    requires Reachable(s)
    requires s.owner.Idle? && s.uncounted == {}
    ensures Attentive(s)
  {
    ReachedInv(s);
  }

  /** The steps a worker still takes up to its notification, that one included. */
  function StepsToNotify(w: Worker): nat {
    match w
    case Popping => 5
    case Executing(_) => 4
    case Returning(_) => 3
    case Decrementing => 2
    case Notifying => 1
    case _ => 0
  }

  function Repeat(a: Action, n: nat): (r: seq<Action>)
    ensures |r| == n && forall k :: 0 <= k < n ==> r[k] == a
  {
    if n == 0 then [] else [a] + Repeat(a, n - 1)
  }

  /** A worker on its way to a notification gets there by its own steps, whatever the pause flag says by then. */
  lemma {:induction false} WakeUpIsDelivered(s: Pool, i: nat)
    requires Inv(s) && s.owner.Sleeping?
    requires i < |s.workers| && WillNotify(s.workers[i]) && (s.lock.Free? || s.lock == HeldByWorker(i))
    ensures var turn := Repeat(WorkerStep(i), StepsToNotify(s.workers[i]));
      && Legal(s, turn) && Exec(s, turn).owner == Sleeping(s.owner.purpose, true)
      && Enabled(Exec(s, turn), OwnerStep)
    decreases StepsToNotify(s.workers[i])
  {
    NotifierSteps(s, i);
    InvKept(s, WorkerStep(i));
    hide Inv, NextWorker, StepWorker;
    var n := StepsToNotify(s.workers[i]);
    assert Repeat(WorkerStep(i), n)[1..] == Repeat(WorkerStep(i), n - 1);
    if n == 1 {
      assert Repeat(WorkerStep(i), 0) == [];
    } else {
      WakeUpIsDelivered(Apply(s, WorkerStep(i)), i);
    }
  }

  /** One step of a worker on its way to a notification. */
  lemma NotifierSteps(s: Pool, i: nat)
    requires Inv(s) && s.owner.Sleeping?
    requires i < |s.workers| && WillNotify(s.workers[i]) && (s.lock.Free? || s.lock == HeldByWorker(i))
    ensures Enabled(s, WorkerStep(i))
    ensures var s' := Apply(s, WorkerStep(i));
      && |s'.workers| == |s.workers| && (s'.lock.Free? || s'.lock == HeldByWorker(i))
      && StepsToNotify(s'.workers[i]) == StepsToNotify(s.workers[i]) - 1
      && if s.workers[i].Notifying? then s'.owner == Sleeping(s.owner.purpose, true) && s'.lock.Free?
         else s'.owner == s.owner && WillNotify(s'.workers[i])
  {
  }

  lemma PendingKeptByWorker(s: Pool, i: nat)
    requires Inv(s) && WakePending(s) && Enabled(s, WorkerStep(i))
    ensures WakePending(StepWorker(s, i))
  {
    var s' := StepWorker(s, i);
    if WillNotify(s.workers[i]) {
      assert s.workers[i].Notifying? || WillNotify(s'.workers[i]);
    } else if k :| 0 <= k < |s.workers| && WillNotify(s.workers[k]) {
      assert s'.workers[k] == s.workers[k];
    }
  }

  /** No step of a worker loses a wake-up, not even with pushes in flight. */
  lemma WorkersLoseNoWakeUp(s: Pool, i: nat)
    requires Inv(s) && Enabled(s, WorkerStep(i)) && !WakeLost(s)
    ensures !WakeLost(StepWorker(s, i))
  {
    if WakePending(s) {
      PendingKeptByWorker(s, i);
    } else if s.owner.Sleeping? {
      assert !WillNotify(s.workers[i]);
    }
  }

  /**
    Exactly when the waiter's own step loses one: it goes to sleep on a reading that is out of date,
    with nobody left to notify it. Either it read the pool as unpaused, and the pool is paused now
    with tasks in its queue; or it read the counter while a push was in flight, and none is now.
   */
  lemma WaiterLosesWakeUpExactlyWhen(s: Pool)
    requires Inv(s) && OwnerCanStep(s)
    ensures WakeLost(StepOwner(s)) <==>
            && Active(s.workers) == 0 && Wrap(|s.uncounted|) == 0 && (s.paused || s.queue == [])
            && ((s.owner.SawPaused? && !s.owner.sawPaused && s.paused && s.queue != [])
                || (s.owner.SawTotal? && Wrap(s.owner.inFlight) != 0))
  {
    hide Wrap;
    var s' := StepOwner(s);
    if s.owner.SawPaused? || s.owner.SawTotal? {
      NobodyActs(s);
      assert |s.queue| < WORD;
      if Active(s.workers) == 0 {
        QueuedOnly(|s.queue|, |s.uncounted|);
        if s.owner.SawTotal? {
          QueuedOnly(|s.queue|, s.owner.inFlight);
        }
      }
    }
  }

  /** While the owner holds the lock, only a worker inside a task can still notify. */
  lemma NobodyActs(s: Pool)
    requires LockInv(s) && s.lock.HeldByOwner?
    ensures Active(s.workers) == 0 <==> forall i :: 0 <= i < |s.workers| ==> !WillNotify(s.workers[i])
  {
    ActiveIdle(s.workers);
    assert forall i :: 0 <= i < |s.workers| ==> !WorkerHolds(s.workers[i]);
    assert forall i :: 0 <= i < |s.workers| ==> (WillNotify(s.workers[i]) <==> Weight(s.workers[i]) == 1);
  }

  /** The counter with nothing popped, against the queue. */
  lemma QueuedOnly(queued: nat, inFlight: nat)
    requires queued < WORD
    ensures Wrap(queued - inFlight) == queued <==> Wrap(inFlight) == 0
  {
    WrapSame(queued, inFlight);
  }

  /**
    Exactly when pause() or unpause() loses the wake-up of a waiter that sleeps: the call pauses an
    unpaused pool in which no task runs, no worker is committed to taking one, nobody is about to
    notify, and no push is in flight (up to the counter's width).
   */
  lemma PauseLosesWakeUpExactlyWhen(s: Pool, value: bool)
    requires Inv(s) && s.owner.Sleeping? && !WakeLost(s)
    ensures WakeLost(Apply(s, SetPaused(value))) <==>
            && value && !s.paused && Active(s.workers) == 0 && Committed(s) == 0 && !Signalled(s)
            && Wrap(|s.uncounted|) == 0
  {
    hide Wrap;
    NobodyNotifies(s);
    assert |s.queue| < WORD;
    if Active(s.workers) == 0 {
      QueuedOnly(|s.queue|, |s.uncounted|);
    }
  }

  /**
    Exactly when the increment of a push loses the wake-up: it is the last one in flight (up to the
    counter's width), no task runs, no worker is committed to taking one, nobody is about to notify,
    and none will take a task.
   */
  lemma PushLosesWakeUpExactlyWhen(s: Pool, t: Task)
    requires Inv(s) && s.owner.Sleeping? && t in s.uncounted
    ensures WakeLost(Apply(s, Count(t))) <==>
            && Wrap(|s.uncounted| - 1) == 0 && Active(s.workers) == 0 && Committed(s) == 0 && !Signalled(s)
            && (s.paused || s.queue == [])
  {
    var s' := Apply(s, Count(t));
    ActiveIdle(s.workers);
    InvKept(s, Count(t));
    NobodyNotifies(s);
    assert |s'.uncounted| == |s.uncounted| - 1;
    assert s'.total == Wrap(|s.queue| + Active(s.workers) - |s'.uncounted|);
    if Active(s.workers) == 0 && (s.paused || s.queue == []) {
      WrapSame(|s.queue|, |s'.uncounted|);
    }
  }

  /** What can still end a lost wake-up: a push, a pause or unpause, or the waiter waking on its own. */
  predicate LeavesWaiterAsleep(a: Action) {
    !a.Enqueue? && !a.SetPaused? && !a.OwnerStep?
  }

  lemma LostWakeUpKept(s: Pool, a: Action)
    requires Inv(s) && s.uncounted == {} && WakeLost(s) && Enabled(s, a) && LeavesWaiterAsleep(a)
    ensures WakeLost(Apply(s, a)) && Apply(s, a).uncounted == {}
  {
    if a.WorkerStep? {
      assert !WillNotify(s.workers[a.index]);
      NeverCommits(s, a.index);
    }
  }

  lemma NeverCommits(s: Pool, i: nat)
    requires Inv(s) && WakeLost(s) && Enabled(s, WorkerStep(i))
    ensures !WillNotify(StepWorker(s, i).workers[i])
  {
    assert !WillNotify(s.workers[i]);
  }

  /** A lost wake-up stays lost: nothing the workers do ever wakes the waiter. */
  lemma {:induction false} LostWakeUpIsPermanent(s: Pool, actions: seq<Action>)
    requires Inv(s) && s.uncounted == {} && WakeLost(s) && Legal(s, actions)
    requires forall a :: a in actions ==> LeavesWaiterAsleep(a)
    ensures WakeLost(Exec(s, actions)) && !Exec(s, actions).owner.notified
    decreases |actions|
  {
    if actions != [] {
      LostWakeUpKept(s, actions[0]);
      InvKept(s, actions[0]);
      LostWakeUpIsPermanent(Apply(s, actions[0]), actions[1..]);
    }
  }

  // Pausing.

  predicate NeverUnpauses(s: Pool, actions: seq<Action>)
    requires Legal(s, actions)
    decreases |actions|
  {
    actions == [] || (Apply(s, actions[0]).paused && NeverUnpauses(Apply(s, actions[0]), actions[1..]))
  }

  /**
    After pause() at most one more task starts until the pool is unpaused, and only if a worker had
    already read the flag.
   */
  lemma {:induction false} PauseStopsWithinOne(s: Pool, actions: seq<Action>)
    requires Inv(s) && s.paused && Legal(s, actions) && NeverUnpauses(s, actions)
    ensures |Exec(s, actions).started| <= |s.started| + Committed(s)
    decreases |actions|
  {
    if actions != [] {
      InvKept(s, actions[0]);
      PausedAction(s, actions[0]);
      hide Inv, Committed;
      PauseStopsWithinOne(Apply(s, actions[0]), actions[1..]);
    }
  }

  lemma PausedAction(s: Pool, a: Action)
    requires Inv(s) && s.paused && Enabled(s, a)
    ensures |Apply(s, a).started| + Committed(Apply(s, a)) <= |s.started| + Committed(s)
  {
    match a
    case WorkerStep(i) => PausedStep(s, i);
    case _ =>
  }

  lemma PausedStep(s: Pool, i: nat)
    requires Inv(s) && s.paused && Enabled(s, WorkerStep(i))
    ensures |StepWorker(s, i).started| + Committed(StepWorker(s, i)) <= |s.started| + Committed(s)
  {
  }
}
