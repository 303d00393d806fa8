/**
  Concrete runs in which the pool does less than its documentation says. Each shows that a hypothesis
  of the theorems about waiting cannot be dropped.
 */
module ThreadPoolHazards {
  import opened ThreadPool
  import opened ThreadPoolSafety
  import opened ThreadPoolWaiting

  lemma TwoThreads() returns (s: Pool)
    ensures s == Pool([], 0, false, true, false, Free, [AtTop, AtTop], Idle, {}, [], [], [], false)
    ensures Reachable(s)
  {
    hide Reachable;
    s := Constructed(2, 2);
    ConstructedIsReachable(2, 2);
    s := ReachStep(s, OwnerStep);
    s := ReachStep(s, OwnerStep);
    s := ReachStep(s, OwnerStep);
    s := ReachStep(s, OwnerStep);
  }

  /** Worker `i` goes from the top of its loop to just past the wait on a non-empty queue. */
  lemma Arrive(s: Pool, i: nat) returns (s': Pool)
    requires Reachable(s) && s.running && s.lock.Free? && s.queue != []
    requires i < |s.workers| && s.workers[i].AtTop?
    ensures Reachable(s') && s' == s.(lock := HeldByWorker(i), workers := s.workers[i := Past])
  {
    hide Reachable;
    s' := ReachStep(s, WorkerStep(i));
    s' := ReachStep(s', WorkerStep(i));
    s' := ReachStep(s', WorkerStep(i));
    assert s'.workers == s.workers[i := Past];
  }

  /** Worker `i` goes from the top of its loop into the task at the front of the queue. */
  lemma Begin(s: Pool, i: nat) returns (s': Pool)
    requires Reachable(s) && s.running && !s.paused && s.lock.Free? && s.queue != []
    requires i < |s.workers| && s.workers[i].AtTop?
    ensures Reachable(s')
    ensures s' == s.(queue := s.queue[1..], started := s.started + [s.queue[0]],
                     workers := s.workers[i := Executing(s.queue[0])])
  {
    hide Reachable;
    s' := Arrive(s, i);
    s' := ReachStep(s', WorkerStep(i));
    s' := ReachStep(s', WorkerStep(i));
    s' := ReachStep(s', WorkerStep(i));
    assert s'.workers == s.workers[i := Executing(s.queue[0])];
  }

  lemma Finish(s: Pool, i: nat) returns (s': Pool)
    requires Reachable(s) && s.lock.Free?
    requires i < |s.workers| && s.workers[i].Executing?
    ensures Reachable(s')
    ensures s' == s.(finished := s.finished +
        [s.workers[i].task], lock := HeldByWorker(i), workers := s.workers[i := Decrementing])
  {
    hide Reachable;
    s' := ReachStep(s, WorkerStep(i));
    s' := ReachStep(s', WorkerStep(i));
    assert s'.workers == s.workers[i := Decrementing];
  }

  /** Worker `i` finishes its task and subtracts it from the counter; nobody is waiting. */
  lemma End(s: Pool, i: nat) returns (s': Pool)
    requires Reachable(s) && s.lock.Free? && !s.waiting
    requires i < |s.workers| && s.workers[i].Executing?
    ensures Reachable(s')
    ensures s' == s.(finished := s.finished +
        [s.workers[i].task], total := Wrap(s.total - 1), workers := s.workers[i := AtTop])
  {
    hide Reachable;
    s' := Finish(s, i);
    s' := ReachStep(s', WorkerStep(i));
    s' := ReachStep(s', WorkerStep(i));
    assert s'.workers == s.workers[i := AtTop];
  }

  /** A call of wait_for_tasks, up to the evaluation of its predicate. */
  lemma CallsWait(s: Pool) returns (s': Pool)
    requires Reachable(s) && s.lock.Free? && s.owner.Idle?
    ensures Reachable(s') && s' == s.(waiting := true, lock := HeldByOwner, owner := Evaluating(Plain))
  {
    hide Reachable;
    s' := ReachStep(s, CallWait);
    s' := ReachStep(s', OwnerStep);
    s' := ReachStep(s', OwnerStep);
  }

  /** The outcome of the comparison on an unpaused pool. */
  lemma Wait(s: Pool) returns (s': Pool)
    requires Reachable(s) && s.lock.Free? && s.owner.Idle? && !s.paused
    ensures Reachable(s')
    ensures s' == if s.total == 0
                  then s.(waiting := true, lock := HeldByOwner, owner := Satisfied(Plain, false, |s.uncounted|))
                  else s.(waiting := true, owner := Sleeping(Plain, false))
  {
    hide Reachable;
    s' := CallsWait(s);
    s' := ReachStep(s', OwnerStep);
    assert s'.owner == SawPaused(Plain, 0, false);
    s' := ReachStep(s', OwnerStep);
  }

  /**
    wait_for_tasks returns on an unpaused pool while a task whose push had completed before the call
    is still running: a second push, not yet counted, is executed and subtracted first.
   */
  lemma WaitCanReturnEarly() returns (s: Pool)
    ensures Reachable(s) && s.owner == Satisfied(Plain, false, 1)
    ensures 0 in s.started && 0 !in s.uncounted && 0 !in s.finished
  {
    hide Reachable;
    s := TwoThreads();
    s := ReachStep(s, Enqueue(0));
    s := ReachStep(s, Count(0));
    s := Begin(s, 0);
    s := ReachStep(s, Enqueue(1));
    s := Begin(s, 1);
    s := End(s, 1);
    s := Wait(s);
  }

  /** pause() called while the waiter sleeps: its predicate becomes true and nobody notifies it. */
  lemma PauseCanLoseWakeUp() returns (s: Pool)
    ensures Reachable(s) && WakeLost(s) && s.uncounted == {}
  {
    hide Reachable;
    s := TwoThreads();
    s := ReachStep(s, Enqueue(0));
    s := ReachStep(s, Count(0));
    s := Wait(s);
    s := ReachStep(s, SetPaused(true));
  }

  /** pause() called after the waiter has read the flag, and before it sleeps. */
  lemma PauseCanOvertakeWaiter() returns (s: Pool)
    ensures Reachable(s) && WakeLost(s) && s.uncounted == {}
  {
    hide Reachable;
    s := TwoThreads();
    s := ReachStep(s, Enqueue(0));
    s := ReachStep(s, Count(0));
    s := CallsWait(s);
    s := ReachStep(s, OwnerStep);
    assert s.owner == SawPaused(Plain, 0, false);
    s := ReachStep(s, SetPaused(true));
    s := ReachStep(s, OwnerStep);
  }

  /** The last increment comes after the waiter has read the counter, and before it sleeps. */
  lemma PushCanOvertakeWaiter() returns (s: Pool)
    ensures Reachable(s) && WakeLost(s) && !s.paused && Settled(s) && s.uncounted == {}
  {
    hide Reachable;
    s := TwoThreads();
    s := ReachStep(s, Enqueue(0));
    s := Begin(s, 0);
    s := End(s, 0);
    s := CallsWait(s);
    s := ReachStep(s, OwnerReadsTotal);
    s := ReachStep(s, Count(0));
    s := ReachStep(s, OwnerStep);
    ActiveIdle(s.workers);
  }

  /**
    A push in flight loses the wake-up of an unpaused pool: the worker subtracts the task before it
    is counted, and the increment that brings the counter back to zero notifies nobody.
   */
  lemma PushCanLoseWakeUp() returns (s: Pool)
    ensures Reachable(s) && WakeLost(s) && !s.paused && Settled(s)
  {
    hide Reachable;
    s := TwoThreads();
    s := ReachStep(s, Enqueue(0));
    s := Begin(s, 0);
    s := End(s, 0);
    s := Wait(s);
    s := ReachStep(s, Count(0));
    ActiveIdle(s.workers);
  }
}
