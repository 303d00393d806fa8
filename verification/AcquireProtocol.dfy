/**
  Acquire commands executed by any number of pool threads beside the scheduler thread that drains and
  routes monitor events. Two mutexes are involved: the worker's map lock, taken exclusively to edit a
  topic vector and shared to route a batch, and the service manager's lock.
 */
module AcquireProtocol {
  import opened Sequences
  import opened Subscriptions
  import opened Routing

  /** Program points of acquireManagement in one pool thread. */
  datatype Job =
    | Vacant
    | Looking(command: Command)                          // about to search the vector, unlocked
    | WantMap(command: Command, at: Option<nat>)         // about to lock the map exclusively
    | Editing(command: Command, at: Option<nat>)         // holds the map lock exclusively
    | Measuring(command: Command)                        // about to read the vector's size, unlocked
    | WantManager(command: Command, on: bool)            // in monitorChannel, about to lock the manager
    | Switching(command: Command, on: bool)              // holds the manager lock

  /** Program points of the scheduler thread; from Scanning on it holds the manager lock. */
  datatype Scheduler =
    | Resting
    | Scanning(rest: seq<Name>)
    | WantShared(channel: Name, batch: seq<Event>, rest: seq<Name>)
    // holds the map lock shared
    | Forwarding(channel: Name, batch: seq<Event>, rest: seq<Name>, event: nat, topic: nat)

  datatype Lock = Open | HeldByJob(index: nat) | HeldByScheduler

  /** `log` and `taken` are history: what took effect in order, and every command a thread has taken up. */
  datatype System = System(
    topics: TopicMap, monitored: set<Name>,
    mapLock: Lock, managerLock: Lock,
    jobs: seq<Job>, scheduler: Scheduler,
    published: seq<Message>, log: seq<Entry>, taken: seq<Command>)

  function Initial(threads: nat): System {
    System(map[], {}, Open, Open, seq(threads, _ => Vacant), Resting, [], [], [])
  }

  datatype Action =
    | Take(index: nat, command: Command)
    | JobStep(index: nat)
    | BeginScan(order: seq<Name>)
    | Drain(batch: seq<Event>)      // monitor() of the next channel; an empty batch is skipped
    | SchedulerStep

  predicate Enabled(s: System, a: Action) {
    match a
    case Take(i, _) => i < |s.jobs| && s.jobs[i].Vacant?
    case JobStep(i) => i < |s.jobs| && JobCanStep(s, s.jobs[i])
    case BeginScan(order) =>
      s.scheduler.Resting? && s.managerLock.Open? && Enumerates(order, s.monitored)
    case Drain(batch) =>
      s.scheduler.Scanning? && s.scheduler.rest != [] && FromChannel(batch, s.scheduler.rest[0])
    case SchedulerStep =>
      match s.scheduler
      case Scanning(rest) => rest == []
      case WantShared(_, _, _) => s.mapLock.Open?
      case Forwarding(_, _, _, _, _) => true
      case Resting => false
  }

  /** The scan visits every monitored channel once. */
  predicate Enumerates(order: seq<Name>, channels: set<Name>) {
    && |order| == |channels|
    && (forall c :: c in channels ==> c in order)
    && (forall i :: 0 <= i < |order| ==> order[i] in channels)
  }

  predicate JobCanStep(s: System, job: Job) {
    match job
    case Vacant => false
    case WantMap(_, _) => s.mapLock.Open?
    case WantManager(_, _) => s.managerLock.Open?
    case _ => true
  }

  predicate HoldsMap(job: Job) { job.Editing? }
  predicate HoldsManager(job: Job) { job.Switching? }

  function Apply(s: System, a: Action): System
    requires Enabled(s, a)
  {
    match a
    case Take(i, cmd) => s.(jobs := s.jobs[i := Looking(cmd)], taken := s.taken + [cmd])
    case JobStep(i) => StepJob(s, i)
    case BeginScan(order) => s.(scheduler := Scanning(order), managerLock := HeldByScheduler)
    case Drain(batch) =>
      var c, rest := s.scheduler.rest[0], s.scheduler.rest[1..];
      s.(scheduler := if batch == [] then Scanning(rest) else WantShared(c, batch, rest))
    case SchedulerStep => StepScheduler(s)
  }

  function NextJob(s: System, job: Job): Job {
    match job
    case Vacant => Vacant
    case Looking(cmd) =>
      var at := Find(TopicsOf(s.topics, cmd.channel), cmd.topic);
      if at.Some? == cmd.activate then Measuring(cmd) else WantMap(cmd, at)
    case WantMap(cmd, at) => Editing(cmd, at)
    case Editing(cmd, _) => Measuring(cmd)
    case Measuring(cmd) => WantManager(cmd, TopicsOf(s.topics, cmd.channel) != [])
    case WantManager(cmd, on) => Switching(cmd, on)
    case Switching(_, _) => Vacant
  }

  /**
    push_back, or erase at the position found earlier; a stale position past the end is undefined
    in the program and left without effect here.
   */
  function EditAt(v: seq<Name>, topic: Name, at: Option<nat>): seq<Name> {
    match at
    case None => v + [topic]
    case Some(k) => if k < |v| then v[..k] + v[k + 1..] else v
  }

  /** The command takes effect: its edit, or the search that finds nothing to edit. */
  predicate TakesEffect(s: System, job: Job) {
    job.Editing? || (job.Looking? && NextJob(s, job).Measuring?)
  }

  function NextTopics(s: System, job: Job): TopicMap {
    match job
    case Looking(cmd) => s.topics[cmd.channel := TopicsOf(s.topics, cmd.channel)]
    case Editing(cmd, at) => s.topics[cmd.channel := EditAt(TopicsOf(s.topics, cmd.channel), cmd.topic, at)]
    case _ => s.topics
  }

  function StepJob(s: System, i: nat): System
    requires i < |s.jobs|
  {
    var job := s.jobs[i];
    var next := NextJob(s, job);
    s.(jobs := s.jobs[i := next],
       mapLock := if HoldsMap(next) then HeldByJob(i) else if HoldsMap(job) then Open else s.mapLock,
       managerLock := if HoldsManager(next) then HeldByJob(i) else if HoldsManager(job) then Open else s.managerLock,
       topics := NextTopics(s, job),
       monitored := if job.Switching? then Switch(s.monitored, job.command.channel, job.on) else s.monitored,
       log := if TakesEffect(s, job) then s.log + [Served(job.command)] else s.log)
  }

  /** The topics still to be served for the event being forwarded, read from the live map. */
  function LiveTargets(s: System, e: Event): seq<Name> { Targets(s.topics, e) }

  function StepScheduler(s: System): System {
    match s.scheduler
    case Resting => s
    case Scanning(_) => s.(scheduler := Resting, managerLock := Open)
    case WantShared(c, batch, rest) =>
      s.(scheduler := Forwarding(c, batch, rest, 0, 0), mapLock := HeldByScheduler, log := s.log + [Handled(c, batch)])
    case Forwarding(c, batch, rest, e, t) =>
      if e >= |batch| then s.(scheduler := Scanning(rest), mapLock := Open)
      else if t < |LiveTargets(s, batch[e])| then
        s.(scheduler := Forwarding(c, batch, rest, e, t + 1),
           published := s.published + [Message(batch[e].channel, LiveTargets(s, batch[e])[t], batch[e].value)])
      else s.(scheduler := Forwarding(c, batch, rest, e + 1, 0))
  }

  // Locks.

  ghost predicate LockInv(s: System) {
    && (forall i :: 0 <= i < |s.jobs| ==> (HoldsMap(s.jobs[i]) <==> s.mapLock == HeldByJob(i)))
    && (forall i :: 0 <= i < |s.jobs| ==> (HoldsManager(s.jobs[i]) <==> s.managerLock == HeldByJob(i)))
    && (s.mapLock.HeldByJob? ==> s.mapLock.index < |s.jobs|)
    && (s.managerLock.HeldByJob? ==> s.managerLock.index < |s.jobs|)
    && (s.scheduler.Forwarding? <==> s.mapLock.HeldByScheduler?)
    && (!s.scheduler.Resting? <==> s.managerLock.HeldByScheduler?)
  }

  lemma LocksKeptByJob(s: System, i: nat)
    requires LockInv(s) && Enabled(s, JobStep(i))
    ensures LockInv(StepJob(s, i))
  {
    hide Find, TopicsOf, NextTopics;
  }

  lemma LocksKept(s: System, a: Action)
    requires LockInv(s) && Enabled(s, a)
    ensures LockInv(Apply(s, a))
  {
    hide Find, TopicsOf, NextTopics;
    match a
    case JobStep(i) => LocksKeptByJob(s, i);
    case _ =>
  }

  predicate Legal(s: System, actions: seq<Action>)
    decreases |actions|
  {
    actions == [] || (Enabled(s, actions[0]) && Legal(Apply(s, actions[0]), actions[1..]))
  }

  function Exec(s: System, actions: seq<Action>): System
    requires Legal(s, actions)
    decreases |actions|
  {
    if actions == [] then s else Exec(Apply(s, actions[0]), actions[1..])
  }

  lemma {:induction false} LocksRun(s: System, actions: seq<Action>)
    requires LockInv(s) && Legal(s, actions)
    ensures LockInv(Exec(s, actions))
    decreases |actions|
  {
    if actions != [] {
      LocksKept(s, actions[0]);
      LocksRun(Apply(s, actions[0]), actions[1..]);
    }
  }

  // Commands taken up.

  /** Every command a thread is serving has been taken up. */
  ghost predicate JobsTaken(s: System) {
    forall k :: 0 <= k < |s.jobs| && !s.jobs[k].Vacant? ==> s.jobs[k].command in s.taken
  }

  lemma JobsTakenKept(s: System, a: Action)
    requires JobsTaken(s) && Enabled(s, a)
    ensures JobsTaken(Apply(s, a)) && s.taken <= Apply(s, a).taken && |Apply(s, a).jobs| == |s.jobs|
  {
    hide Find, EditAt, TopicsOf;
  }

  lemma {:induction false} TakenGrows(s: System, actions: seq<Action>)
    requires JobsTaken(s) && Legal(s, actions)
    ensures JobsTaken(Exec(s, actions)) && s.taken <= Exec(s, actions).taken
    ensures |Exec(s, actions).jobs| == |s.jobs|
    decreases |actions|
  {
    if actions != [] {
      JobsTakenKept(s, actions[0]);
      TakenGrows(Apply(s, actions[0]), actions[1..]);
    }
  }

  // Deadlock.

  datatype Thread = JobThread(index: nat) | SchedulerThread

  predicate Holds(l: Lock, t: Thread) {
    match t
    case JobThread(i) => l == HeldByJob(i)
    case SchedulerThread => l.HeldByScheduler?
  }

  /**
    Thread `a` cannot go on before thread `b` moves. The standard leaves open whether a shared
    request waits behind a queued exclusive one, so it is counted as waiting.
   */
  predicate Waits(s: System, a: Thread, b: Thread) {
    match a
    case JobThread(i) =>
      i < |s.jobs| &&
      ((s.jobs[i].WantMap? && Holds(s.mapLock, b)) || (s.jobs[i].WantManager? && Holds(s.managerLock, b)))
    case SchedulerThread =>
      (s.scheduler.Resting? && Holds(s.managerLock, b)) ||
      (s.scheduler.WantShared? &&
       (Holds(s.mapLock, b) || (b.JobThread? && b.index < |s.jobs| && s.jobs[b.index].WantMap?)))
  }

  /** A thread that is inside a command or about to scan and cannot step is waiting for some thread. */
  lemma BlockedMeansWaiting(s: System, a: Thread)
    requires LockInv(s)
    ensures a.JobThread? && a.index < |s.jobs| && !s.jobs[a.index].Vacant? && !Enabled(s, JobStep(a.index)) ==>
              exists b :: Waits(s, a, b)
    ensures a.SchedulerThread? && s.scheduler.WantShared? && !Enabled(s, SchedulerStep) ==> exists b :: Waits(s, a, b)
    ensures a.SchedulerThread? && s.scheduler.Resting? && !s.managerLock.Open? ==> exists b :: Waits(s, a, b)
  {
    var holder := HolderOf(s.mapLock);
    var manager := HolderOf(s.managerLock);
    assert !s.mapLock.Open? ==> Holds(s.mapLock, holder);
    assert !s.managerLock.Open? ==> Holds(s.managerLock, manager);
    if a.JobThread? && a.index < |s.jobs| && s.jobs[a.index].WantMap? && !s.mapLock.Open? {
      assert Waits(s, a, holder);
    }
    if a.JobThread? && a.index < |s.jobs| && s.jobs[a.index].WantManager? && !s.managerLock.Open? {
      assert Waits(s, a, manager);
    }
    if a.SchedulerThread? && s.scheduler.WantShared? && !s.mapLock.Open? {
      assert Waits(s, a, holder);
    }
    if a.SchedulerThread? && s.scheduler.Resting? && !s.managerLock.Open? {
      assert Waits(s, a, manager);
    }
  }

  function HolderOf(l: Lock): Thread {
    if l.HeldByJob? then JobThread(l.index) else SchedulerThread
  }

  /** Position in the order in which the two locks are requested. */
  function Rank(s: System, t: Thread): nat {
    match t
    case JobThread(i) =>
      if i >= |s.jobs| then 0 else if s.jobs[i].WantMap? then 1 else if s.jobs[i].WantManager? then 3 else 0
    case SchedulerThread => if s.scheduler.WantShared? then 2 else if s.scheduler.Resting? then 3 else 0
  }

  lemma WaitsDescend(s: System, a: Thread, b: Thread)
    requires LockInv(s) && Waits(s, a, b)
    ensures Rank(s, b) < Rank(s, a)
  {
  }

  ghost predicate WaitPath(s: System, path: seq<Thread>) {
    forall k :: 0 <= k < |path| - 1 ==> Waits(s, path[k], path[k + 1])
  }

  lemma {:induction false} PathDescends(s: System, path: seq<Thread>)
    requires LockInv(s) && WaitPath(s, path) && |path| >= 2
    ensures Rank(s, path[|path| - 1]) < Rank(s, path[0])
  {
    WaitsDescend(s, path[0], path[1]);
    if |path| > 2 {
      forall k | 0 <= k < |path[1..]| - 1 ensures Waits(s, path[1..][k], path[1..][k + 1]) {
        assert Waits(s, path[k + 1], path[k + 2]);
      }
      PathDescends(s, path[1..]);
    }
  }

  /** No reachable state contains a cycle of threads waiting for each other, for any number of threads. */
  lemma NoWaitCycle(threads: nat, actions: seq<Action>, path: seq<Thread>)
    requires Legal(Initial(threads), actions)
    requires |path| >= 2 && WaitPath(Exec(Initial(threads), actions), path)
    ensures path[0] != path[|path| - 1]
  {
    LocksRun(Initial(threads), actions);
    PathDescends(Exec(Initial(threads), actions), path);
  }

  /** While any command is being served or a scan is under way, some thread can move. */
  lemma SomeThreadMoves(threads: nat, actions: seq<Action>) returns (a: Action)
    requires Legal(Initial(threads), actions)
    requires var s := Exec(Initial(threads), actions);
      !s.scheduler.Resting? || exists i :: 0 <= i < |s.jobs| && !s.jobs[i].Vacant?
    ensures Enabled(Exec(Initial(threads), actions), a) && !a.Take? && !a.BeginScan?
  {
    var s := Exec(Initial(threads), actions);
    LocksRun(Initial(threads), actions);
    if s.mapLock.HeldByJob? {
      a := JobStep(s.mapLock.index);
    } else if s.managerLock.HeldByJob? {
      a := JobStep(s.managerLock.index);
    } else if s.scheduler.Scanning? && s.scheduler.rest != [] {
      a := Drain([]);
    } else if !s.scheduler.Resting? {
      a := SchedulerStep;
    } else {
      var i :| 0 <= i < |s.jobs| && !s.jobs[i].Vacant?;
      a := JobStep(i);
    }
  }
}
