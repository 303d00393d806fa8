/** The fields a worker pops from and the pool's own questions read, in any reachable state of the machine. */
module ThreadPoolMemory {
  import opened ThreadPool
  import opened ThreadPoolSafety
  import opened ThreadPoolWaiting

  class ThreadPoolMemory {
    var tasks: seq<Task>
    var tasksTotal: nat
    var paused: bool
    ghost var machine: Pool

    ghost predicate Valid()
      reads this
    {
      && Reachable(machine)
      && tasks == machine.queue && tasksTotal == machine.total && paused == machine.paused
    }

    constructor (requested: nat, hardware: nat)
      requires requested <= THREADS_MAX && hardware <= THREADS_MAX
      ensures Valid() && machine == Constructed(requested, hardware)
    {
      tasks, tasksTotal, paused := [], 0, false;
      machine := Constructed(requested, hardware);
      ConstructedIsReachable(requested, hardware);
    }

    /** A worker takes the oldest task; that there is one follows from the machine's invariants. */
    method PopTask(i: nat) returns (task: Task)
      requires Valid() && i < |machine.workers| && machine.workers[i].Popping?
      modifies this
      ensures Valid() && machine == Apply(old(machine), WorkerStep(i))
      ensures old(tasks) == [task] + tasks && machine.workers[i] == Executing(task)
      ensures task !in old(machine.started) && machine.started == old(machine.started) + [task]
    {
      hide Reachable;
      ghost var before := machine.started;
      NeverPopsEmptyQueue(machine);
      task := tasks[0];
      machine := ReachStep(machine, WorkerStep(i));
      ExactlyOnceInOrder(machine);
      assert forall k :: 0 <= k < |before| ==> machine.started[k] == before[k];
      assert machine.started[|before|] == task;
      tasks := tasks[1..];
    }

    /** The predicate of wait_for_tasks: with no push in flight it says that nothing is left to wait for. */
    method WaitCondition() returns (r: bool)
      requires Valid()
      ensures r == WaitPredicate(machine)
      ensures machine.uncounted == {} ==>
        (r <==> if paused then Active(machine.workers) == 0 else Settled(machine))
    {
      r := tasksTotal == if paused then |tasks| else 0;
      ReachedInv(machine);
      ActiveIdle(machine.workers);
    }

    method GetTasksRunning() returns (n: nat)
      requires Valid()
      ensures n == Active(machine.workers) <==> Wrap(|machine.uncounted|) == 0
    {
      n := Wrap(tasksTotal - |tasks|);
      TasksRunningReport(machine);
    }
  }
}
