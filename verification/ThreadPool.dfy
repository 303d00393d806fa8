/**
  The thread pool as a state machine. Every action is one region executed under the pool's mutex or
  one access to an atomic variable, so a sequence of actions is an interleaving of any number of
  pushing threads, the worker threads, and the owning thread that constructs, waits on, resets and
  destroys the pool.
 */
module ThreadPool {

  type Task = nat

  /** Number of values of `size_t`, the type of the atomic task counter. */
  const WORD: nat := 0x1_0000_0000_0000_0000
  /** Largest value of `concurrency_t` (an unsigned int). */
  const THREADS_MAX: nat := 0xFFFF_FFFF
  /** A standard container never holds more than PTRDIFF_MAX elements; a push beyond that throws. */
  const QUEUE_MAX: nat := 0x7FFF_FFFF_FFFF_FFFF

  function Wrap(x: int): (r: nat) ensures r < WORD { x % WORD }

  /** Program points of one run of `worker`. */
  datatype Worker =
    | AtTop                   // about to test `running` in the while condition
    | Acquiring               // about to lock
    | Testing                 // holds the lock, about to evaluate the wait predicate
    | Parked                  // blocked on task_available_cv
    | Past                    // holds the lock, the wait predicate was true
    | Cleared                 // holds the lock, read `running` as true
    | Popping                 // holds the lock, read `paused` as false
    | Executing(task: Task)   // running the task, lock released
    | Returning(task: Task)   // the task has returned; about to lock again
    | Decrementing            // holds the lock, about to decrement the counter
    | Notifying               // holds the lock, about to notify a waiter
    | Exited

  /** What the owner does once its wait is over. */
  datatype Purpose = Plain | Reset(count: nat, wasPaused: bool) | Destroy

  /** Program points of the owning thread. */
  datatype Owner =
    | Idle
    | SavePaused(count: nat)
    | ForcePause(purpose: Purpose)
    | RaiseWaiting(purpose: Purpose)
    | LockForWait(purpose: Purpose)
    | Evaluating(purpose: Purpose)                                        // holds the lock
    | SawPaused(purpose: Purpose, expected: nat, sawPaused: bool)         // holds the lock
    | SawTotal(purpose: Purpose, total: nat, inFlight: nat)               // holds the lock
    | Sleeping(purpose: Purpose, notified: bool)                          // blocked on task_done_cv
    | Satisfied(purpose: Purpose, sawPaused: bool, inFlight: nat)         // holds the lock
    | Stopping(purpose: Purpose)
    | Joining(purpose: Purpose, index: nat)
    | Rebuilding(purpose: Purpose)
    | RestorePaused(count: nat, wasPaused: bool)
    | Creating(count: nat)
    | Spawning(count: nat)
    | Gone

  datatype Lock = Free | HeldByWorker(index: nat) | HeldByOwner

  /**
    `uncounted` holds the tasks whose push is between its enqueue and its increment. The last three
    sequences are history: tasks in the order they were enqueued, started and finished. `fault` is
    raised by popping an empty queue, which is undefined in the program.
   */
  datatype Pool = Pool(
    queue: seq<Task>, total: nat,
    paused: bool, running: bool, waiting: bool,
    lock: Lock, workers: seq<Worker>, owner: Owner,
    uncounted: set<Task>,
    enqueued: seq<Task>, started: seq<Task>, finished: seq<Task>,
    fault: bool)

  datatype Action =
    | Enqueue(task: Task)       // push_task, region under the lock
    | Count(task: Task)         // push_task, the increment after it
    | SetPaused(value: bool)    // pause() and unpause()
    | WorkerStep(index: nat)
    | CallWait
    | CallReset(requested: nat, hardware: nat)
    | CallDestroy
    | OwnerStep
    | OwnerReadsTotal           // the other evaluation order of the waiter's comparison

  function DetermineThreadCount(requested: nat, hardware: nat): (r: nat)
    ensures 0 < r
    ensures requested > 0 ==> r == requested
    ensures requested == 0 ==> r == if hardware > 0 then hardware else 1
  {
    if requested > 0 then requested else if hardware > 0 then hardware else 1
  }

  function Constructed(requested: nat, hardware: nat): Pool {
    var owner := Creating(DetermineThreadCount(requested, hardware));
    Pool([], 0, false, false, false, Free, [], owner, {}, [], [], [], false)
  }

  predicate Enabled(s: Pool, a: Action) {
    match a
    case Enqueue(t) => s.lock.Free? && t !in s.enqueued && |s.queue| < QUEUE_MAX
    case Count(t) => t in s.uncounted
    case SetPaused(_) => true
    case WorkerStep(i) => i < |s.workers| && CanStep(s, s.workers[i])
    case CallWait => s.owner.Idle?
    case CallReset(requested, hardware) =>
      s.owner.Idle? && requested <= THREADS_MAX && hardware <= THREADS_MAX
    case CallDestroy => s.owner.Idle?
    case OwnerStep => OwnerCanStep(s)
    case OwnerReadsTotal => s.owner.Evaluating?
  }

  /** A parked worker may wake by notification or spuriously; either way it needs the lock. */
  predicate CanStep(s: Pool, w: Worker) {
    match w
    case Acquiring | Parked | Returning(_) => s.lock.Free?
    case Exited => false
    case _ => true
  }

  predicate OwnerCanStep(s: Pool) {
    match s.owner
    case Idle | Gone => false
    case LockForWait(_) | Sleeping(_, _) => s.lock.Free?
    case Joining(_, i) => i < |s.workers| ==> s.workers[i].Exited?
    case _ => true
  }

  function Apply(s: Pool, a: Action): Pool
    requires Enabled(s, a)
  {
    match a
    case Enqueue(t) => s.(queue := s.queue + [t], enqueued := s.enqueued + [t], uncounted := s.uncounted + {t})
    case Count(t) => s.(total := Wrap(s.total + 1), uncounted := s.uncounted - {t})
    case SetPaused(b) => s.(paused := b)
    case WorkerStep(i) => StepWorker(s, i)
    case CallWait => s.(owner := RaiseWaiting(Plain))
    case CallReset(requested, hardware) => s.(owner := SavePaused(DetermineThreadCount(requested, hardware)))
    case CallDestroy => s.(owner := RaiseWaiting(Destroy))
    case OwnerStep => StepOwner(s)
    case OwnerReadsTotal => s.(owner := SawTotal(s.owner.purpose, s.total, |s.uncounted|))
  }

  /** The program point a worker reaches from `w`. */
  function NextWorker(s: Pool, w: Worker): Worker {
    match w
    case AtTop => if s.running then Acquiring else Exited
    case Acquiring | Parked => Testing
    case Testing => if s.queue != [] || !s.running then Past else Parked
    case Past => if s.running then Cleared else AtTop
    case Cleared => if !s.paused then Popping else AtTop
    case Popping => if s.queue != [] then Executing(s.queue[0]) else Popping
    case Executing(t) => Returning(t)
    case Returning(_) => Decrementing
    case Decrementing => Notifying
    case Notifying => AtTop
    case Exited => Exited
  }

  function StepWorker(s: Pool, i: nat): Pool
    requires i < |s.workers|
  {
    var w := s.workers[i];
    var next := NextWorker(s, w);
    var pops := w.Popping? && s.queue != [];
    s.(workers := s.workers[i := next],
       lock := if WorkerHolds(next) then HeldByWorker(i) else if WorkerHolds(w) then Free else s.lock,
       queue := if pops then s.queue[1..] else s.queue,
       started := if pops then s.started + [s.queue[0]] else s.started,
       finished := if w.Executing? then s.finished + [w.task] else s.finished,
       total := if w.Decrementing? then Wrap(s.total - 1) else s.total,
       owner := if w.Notifying? && s.waiting && s.owner.Sleeping? then s.owner.(notified := true) else s.owner,
       fault := s.fault || (w.Popping? && s.queue == []))
  }

  /** The program point the owner reaches. */
  function NextOwner(s: Pool): Owner {
    match s.owner
    case Idle => Idle
    case SavePaused(n) => ForcePause(Reset(n, s.paused))
    case ForcePause(p) => RaiseWaiting(p)
    case RaiseWaiting(p) => LockForWait(p)
    case LockForWait(p) => Evaluating(p)
    case Evaluating(p) => SawPaused(p, Expected(s), s.paused)
    case SawPaused(p, expected, sawPaused) =>
      if s.total == expected then Satisfied(p, sawPaused, |s.uncounted|) else Sleeping(p, false)
    case SawTotal(p, total, inFlight) =>
      if total == Expected(s) then Satisfied(p, s.paused, inFlight) else Sleeping(p, false)
    case Sleeping(p, _) => Evaluating(p)
    case Satisfied(p, _, _) => if p.Plain? then Idle else Stopping(p)
    case Stopping(p) => Joining(p, 0)
    case Joining(p, i) => if i < |s.workers| then Joining(p, i + 1) else Rebuilding(p)
    case Rebuilding(p) => if p.Reset? then RestorePaused(p.count, p.wasPaused) else Gone
    case RestorePaused(n, _) => Creating(n)
    case Creating(n) => Spawning(n)
    case Spawning(n) => if |s.workers| < n then Spawning(n) else Idle
    case Gone => Gone
  }

  function StepOwner(s: Pool): Pool {
    var o := s.owner;
    var next := NextOwner(s);
    s.(owner := next,
       lock := if OwnerHolds(next) then HeldByOwner else if OwnerHolds(o) then Free else s.lock,
       paused := if o.ForcePause? then true else if o.RestorePaused? then o.wasPaused else s.paused,
       waiting := if o.RaiseWaiting? then true else if o.Satisfied? then false else s.waiting,
       running := if o.Stopping? then false else if o.Creating? then true else s.running,
       workers :=
         if o.Rebuilding? && o.purpose.Reset? then []
         else if o.Spawning? && |s.workers| < o.count then s.workers + [AtTop]
         else s.workers)
  }

  /** Right-hand side of the comparison in wait_for_tasks. */
  function Expected(s: Pool): nat { if s.paused then |s.queue| else 0 }

  /** The predicate wait_for_tasks waits for, at one instant. */
  predicate WaitPredicate(s: Pool) { s.total == Expected(s) }

  // Runs.

  predicate Legal(s: Pool, actions: seq<Action>)
    decreases |actions|
  {
    actions == [] || (Enabled(s, actions[0]) && Legal(Apply(s, actions[0]), actions[1..]))
  }

  function Exec(s: Pool, actions: seq<Action>): Pool
    requires Legal(s, actions)
    decreases |actions|
  {
    if actions == [] then s else Exec(Apply(s, actions[0]), actions[1..])
  }

  /** Tasks that a worker has popped and not yet subtracted from the counter. */
  function Weight(w: Worker): nat {
    if w.Executing? || w.Returning? || w.Decrementing? then 1 else 0
  }

  function Active(workers: seq<Worker>): nat {
    if workers == [] then 0 else Weight(workers[0]) + Active(workers[1..])
  }

  predicate WorkerHolds(w: Worker) {
    w.Testing? || w.Past? || w.Cleared? || w.Popping? || w.Decrementing? || w.Notifying?
  }

  predicate OwnerHolds(o: Owner) {
    o.Evaluating? || o.SawPaused? || o.SawTotal? || o.Satisfied?
  }
}
