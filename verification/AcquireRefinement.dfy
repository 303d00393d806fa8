/**
  When commands for one channel do not overlap, every interleaving behaves as if the commands were
  served one at a time in the order in which they took effect, and delivery is exact.
 */
module AcquireRefinement {
  import opened Sequences
  import opened Subscriptions
  import opened Routing
  import opened AcquireProtocol

  /** A thread takes up a command only while no other thread is serving the same channel. */
  predicate Serial(s: System, a: Action) {
    a.Take? ==> forall i :: 0 <= i < |s.jobs| && !s.jobs[i].Vacant? ==> s.jobs[i].command.channel != a.command.channel
  }

  predicate SerialRun(s: System, actions: seq<Action>)
    decreases |actions|
  {
    actions == [] ||
    (Enabled(s, actions[0]) && Serial(s, actions[0]) && SerialRun(Apply(s, actions[0]), actions[1..]))
  }

  lemma {:induction false} SerialRunsAreLegal(s: System, actions: seq<Action>)
    requires SerialRun(s, actions)
    ensures Legal(s, actions)
    decreases |actions|
  {
    if actions != [] {
      SerialRunsAreLegal(Apply(s, actions[0]), actions[1..]);
    }
  }

  // Commands.

  ghost predicate OneJobPerChannel(s: System) {
    forall i, j :: 0 <= i < j < |s.jobs| && !s.jobs[i].Vacant? && !s.jobs[j].Vacant? ==>
      s.jobs[i].command.channel != s.jobs[j].command.channel
  }

  /** The topic map is the one of the commands that took effect. */
  ghost predicate TopicsInv(s: System) { Mirrors(s.topics, Commands(s.log)) }

  /** What a thread has read about its channel still holds. */
  ghost predicate JobCurrent(s: System, job: Job) {
    match job
    case WantMap(cmd, at) => at == Find(TopicsOf(s.topics, cmd.channel), cmd.topic) && at.Some? != cmd.activate
    case Editing(cmd, at) => at == Find(TopicsOf(s.topics, cmd.channel), cmd.topic) && at.Some? != cmd.activate
    case WantManager(cmd, on) => on == (TopicsOf(s.topics, cmd.channel) != [])
    case Switching(cmd, on) => on == (TopicsOf(s.topics, cmd.channel) != [])
    case _ => true
  }

  ghost predicate JobsInv(s: System) {
    forall i :: 0 <= i < |s.jobs| ==> JobCurrent(s, s.jobs[i])
  }

  /** The thread has changed the vector of `c`, and has yet to tell the manager. */
  predicate Pending(job: Job, c: Name) {
    (job.Measuring? || job.WantManager? || job.Switching?) && job.command.channel == c
  }

  ghost predicate SwitchPending(s: System, c: Name) {
    exists i :: 0 <= i < |s.jobs| && Pending(s.jobs[i], c)
  }

  ghost predicate Agreed(s: System, c: Name) {
    c in s.monitored <==> TopicsOf(s.topics, c) != []
  }

  ghost predicate MonitorInv(s: System) {
    forall c :: SwitchPending(s, c) || Agreed(s, c)
  }

  ghost predicate CommandInv(s: System) {
    OneJobPerChannel(s) && TopicsInv(s) && JobsInv(s) && MonitorInv(s)
  }

  lemma CommandsAppend(log: seq<Entry>, e: Entry)
    ensures Commands(log + [e]) == if e.Served? then Commands(log) + [e.command] else Commands(log)
  {
    assert (log + [e])[..|log|] == log;
  }

  /** The edit made at the position found earlier is the edit of the serial command. */
  lemma EffectIsSerial(s: System, i: nat)
    requires CommandInv(s) && i < |s.jobs| && TakesEffect(s, s.jobs[i])
    ensures var cmd := s.jobs[i].command;
      TopicsOf(NextTopics(s, s.jobs[i]), cmd.channel) == Edit(TopicsOf(s.topics, cmd.channel), cmd.topic, cmd.activate)
  {
    assert JobCurrent(s, s.jobs[i]);
  }

  lemma TopicsKeptByJob(s: System, i: nat)
    requires CommandInv(s) && Enabled(s, JobStep(i))
    ensures TopicsInv(StepJob(s, i))
  {
    if TakesEffect(s, s.jobs[i]) {
      EffectIsSerial(s, i);
      CommandsAppend(s.log, Served(s.jobs[i].command));
      MirrorServed(s.topics, Commands(s.log), s.jobs[i].command, StepJob(s, i).topics);
    }
  }

  lemma JobsKeptByJob(s: System, i: nat)
    requires CommandInv(s) && Enabled(s, JobStep(i))
    ensures JobsInv(StepJob(s, i)) && OneJobPerChannel(StepJob(s, i))
  {
    var s' := StepJob(s, i);
    var cmd := s.jobs[i].command;
    assert JobCurrent(s, s.jobs[i]);
    forall k | 0 <= k < |s.jobs| ensures JobCurrent(s', s'.jobs[k]) {
      if k != i && !s.jobs[k].Vacant? {
        assert JobCurrent(s, s.jobs[k]);
        assert s.jobs[k].command.channel != cmd.channel;
        assert TopicsOf(s'.topics, s.jobs[k].command.channel) == TopicsOf(s.topics, s.jobs[k].command.channel);
      }
    }
  }

  lemma MonitorKeptByJob(s: System, i: nat)
    requires CommandInv(s) && Enabled(s, JobStep(i))
    ensures MonitorInv(StepJob(s, i))
  {
    var s' := StepJob(s, i);
    var own := s.jobs[i].command.channel;
    assert JobCurrent(s, s.jobs[i]);
    forall c ensures SwitchPending(s', c) || Agreed(s', c) {
      if c != own {
        if SwitchPending(s, c) {
          var k :| 0 <= k < |s.jobs| && Pending(s.jobs[k], c);
          assert Pending(s'.jobs[k], c);
        }
      } else if !Pending(s'.jobs[i], c) && !s.jobs[i].Switching? {
        assert !SwitchPending(s, c);
      }
    }
  }

  lemma CommandsKeptByScheduler(s: System, a: Action)
    requires CommandInv(s) && Enabled(s, a) && (a.BeginScan? || a.Drain? || a.SchedulerStep?)
    ensures CommandInv(Apply(s, a))
  {
    hide Commands, Find, TopicsOf, Replay;
    SchedulerLogsNoCommand(s, a);
    SameSubscriptions(s, Apply(s, a));
  }

  lemma SchedulerLogsNoCommand(s: System, a: Action)
    requires Enabled(s, a) && (a.BeginScan? || a.Drain? || a.SchedulerStep?)
    ensures var s' := Apply(s, a);
      && s'.jobs == s.jobs && s'.taken == s.taken && s'.topics == s.topics && s'.monitored == s.monitored
      && Commands(s'.log) == Commands(s.log)
  {
    hide Commands;
    match a
    case SchedulerStep =>
      if s.scheduler.WantShared? {
        CommandsAppend(s.log, Handled(s.scheduler.channel, s.scheduler.batch));
      }
    case _ =>
  }

  lemma SameSubscriptions(s: System, s': System)
    requires CommandInv(s)
    requires s'.jobs == s.jobs && s'.topics == s.topics && s'.monitored == s.monitored
    requires Commands(s'.log) == Commands(s.log)
    ensures CommandInv(s')
  {
    hide Commands, Find, TopicsOf, Replay;
    forall k | 0 <= k < |s'.jobs| ensures JobCurrent(s', s'.jobs[k]) {
      assert JobCurrent(s, s.jobs[k]);
    }
    forall c ensures SwitchPending(s', c) || Agreed(s', c) {
      assert SwitchPending(s, c) || Agreed(s, c);
    }
  }

  lemma CommandsKeptByTake(s: System, i: nat, cmd: Command)
    requires CommandInv(s) && Enabled(s, Take(i, cmd)) && Serial(s, Take(i, cmd))
    ensures CommandInv(Apply(s, Take(i, cmd)))
  {
    var s' := Apply(s, Take(i, cmd));
    forall k | 0 <= k < |s'.jobs| ensures JobCurrent(s', s'.jobs[k]) {
      assert JobCurrent(s, s.jobs[k]);
    }
    forall c ensures SwitchPending(s', c) || Agreed(s', c) {
      if SwitchPending(s, c) {
        var k :| 0 <= k < |s.jobs| && Pending(s.jobs[k], c);
        assert Pending(s'.jobs[k], c);
      }
    }
  }

  lemma CommandsKept(s: System, a: Action)
    requires CommandInv(s) && Enabled(s, a) && Serial(s, a)
    ensures CommandInv(Apply(s, a))
  {
    match a
    case Take(i, cmd) => CommandsKeptByTake(s, i, cmd);
    case JobStep(i) =>
      TopicsKeptByJob(s, i);
      JobsKeptByJob(s, i);
      MonitorKeptByJob(s, i);
    case _ => CommandsKeptByScheduler(s, a);
  }

  // Batches.

  /** What a batch still causes once the first `t` topics of event `e` have been served. */
  function Outstanding(m: TopicMap, batch: seq<Event>, e: nat, t: nat): seq<Message>
    requires e < |batch| ==> t <= |Targets(m, batch[e])|
  {
    if e >= |batch| then []
    else Copies(batch[e], Targets(m, batch[e])[t..]) + Route(m, batch[e + 1..])
  }

  lemma OutstandingStart(m: TopicMap, batch: seq<Event>, e: nat)
    ensures Outstanding(m, batch, e, 0) == Route(m, if e < |batch| then batch[e..] else [])
  {
    if e < |batch| {
      assert batch[e..][1..] == batch[e + 1..] && Targets(m, batch[e])[0..] == Targets(m, batch[e]);
    }
  }

  lemma CopiesFirst(e: Event, topics: seq<Name>, t: nat)
    requires t < |topics|
    ensures Copies(e, topics[t..]) == [Message(e.channel, topics[t], e.value)] + Copies(e, topics[t + 1..])
  {
    assert topics[t..][1..] == topics[t + 1..];
  }

  lemma OutstandingPublish(m: TopicMap, batch: seq<Event>, e: nat, t: nat)
    requires e < |batch| && t < |Targets(m, batch[e])|
    ensures Outstanding(m, batch, e, t) ==
            [Message(batch[e].channel, Targets(m, batch[e])[t], batch[e].value)] + Outstanding(m, batch, e, t + 1)
  {
    hide Copies, Targets, Route;
    CopiesFirst(batch[e], Targets(m, batch[e]), t);
  }

  lemma OutstandingNext(m: TopicMap, batch: seq<Event>, e: nat)
    requires e < |batch|
    ensures Outstanding(m, batch, e, |Targets(m, batch[e])|) == Outstanding(m, batch, e + 1, 0)
  {
    OutstandingStart(m, batch, e + 1);
  }

  lemma OutstandingDone(m: TopicMap, batch: seq<Event>, e: nat, t: nat)
    requires e >= |batch|
    ensures Outstanding(m, batch, e, t) == []
  {
  }

  ghost predicate CursorInv(s: System) {
    match s.scheduler
    case WantShared(c, batch, _) => FromChannel(batch, c)
    case Forwarding(_, batch, _, e, t) => e < |batch| ==> t <= |Targets(s.topics, batch[e])|
    case _ => true
  }

  /** What remains to be published of the batch being forwarded. */
  ghost function Unsent(s: System): seq<Message>
    requires CursorInv(s)
  {
    if s.scheduler.Forwarding?
    then Outstanding(s.topics, s.scheduler.batch, s.scheduler.event, s.scheduler.topic)
    else []
  }

  ghost predicate BatchInv(s: System) {
    WellFormed(s.log) && CursorInv(s) && Published(s.log) == s.published + Unsent(s)
  }

  lemma PublishedAppend(log: seq<Entry>, e: Entry)
    ensures Published(log + [e]) == Published(log) + PublishedBy(log, e)
  {
    assert (log + [e])[..|log|] == log;
  }

  /** Taking the shared lock fixes the snapshot the whole batch is routed against. */
  lemma BatchStarts(m: TopicMap, log: seq<Entry>, c: Name, batch: seq<Event>)
    requires Mirrors(m, Commands(log)) && WellFormed(log) && FromChannel(batch, c)
    ensures Published(log + [Handled(c, batch)]) == Published(log) + Outstanding(m, batch, 0, 0)
    ensures WellFormed(log + [Handled(c, batch)])
  {
    PublishedAppend(log, Handled(c, batch));
    RouteAgrees(m, Replay(Commands(log)).topics, batch);
    OutstandingStart(m, batch, 0);
    assert batch != [] ==> batch[0..] == batch;
  }

  /** A step of the forwarding loop sends what it takes off the outstanding messages. */
  lemma CursorAdvances(s: System)
    requires CursorInv(s) && s.scheduler.Forwarding?
    ensures CursorInv(StepScheduler(s))
    ensures StepScheduler(s).published + Unsent(StepScheduler(s)) == s.published + Unsent(s)
  {
    hide Outstanding, Targets;
    var batch, e, t := s.scheduler.batch, s.scheduler.event, s.scheduler.topic;
    var s' := StepScheduler(s);
    assert s'.topics == s.topics;
    if e < |batch| {
      var targets := Targets(s.topics, batch[e]);
      if t < |targets| {
        OutstandingPublish(s.topics, batch, e, t);
      } else {
        OutstandingNext(s.topics, batch, e);
      }
    } else {
      OutstandingDone(s.topics, batch, e, t);
    }
  }

  lemma BatchAdvances(s: System)
    requires BatchInv(s) && s.scheduler.Forwarding?
    ensures BatchInv(StepScheduler(s))
  {
    hide Commands, Published, Unsent, CursorInv;
    CursorAdvances(s);
    assert StepScheduler(s).log == s.log;
  }

  /** While a batch is being forwarded no vector changes. */
  lemma SnapshotHolds(s: System, i: nat)
    requires LockInv(s) && s.scheduler.Forwarding? && Enabled(s, JobStep(i))
    ensures forall c :: TopicsOf(StepJob(s, i).topics, c) == TopicsOf(s.topics, c)
  {
  }

  lemma OutstandingAgrees(m: TopicMap, m': TopicMap, batch: seq<Event>, e: nat, t: nat)
    requires forall c :: TopicsOf(m, c) == TopicsOf(m', c)
    requires e < |batch| ==> t <= |Targets(m, batch[e])|
    ensures Outstanding(m, batch, e, t) == Outstanding(m', batch, e, t)
  {
    if e < |batch| {
      RouteAgrees(m, m', batch[e + 1..]);
    }
  }

  lemma ServedPublishesNothing(log: seq<Entry>, cmd: Command)
    requires WellFormed(log)
    ensures WellFormed(log + [Served(cmd)]) && Published(log + [Served(cmd)]) == Published(log)
  {
    PublishedAppend(log, Served(cmd));
  }

  /** No thread changes what the scheduler has still to send. */
  lemma CursorKeptByJob(s: System, i: nat)
    requires LockInv(s) && CursorInv(s) && Enabled(s, JobStep(i))
    ensures CursorInv(StepJob(s, i)) && Unsent(StepJob(s, i)) == Unsent(s)
  {
    hide Outstanding, Find;
    var s' := StepJob(s, i);
    assert s'.scheduler == s.scheduler;
    if s.scheduler.Forwarding? {
      SnapshotHolds(s, i);
      OutstandingAgrees(s.topics, s'.topics, s.scheduler.batch, s.scheduler.event, s.scheduler.topic);
    }
  }

  lemma BatchKeptByJob(s: System, i: nat)
    requires LockInv(s) && BatchInv(s) && Enabled(s, JobStep(i))
    ensures BatchInv(StepJob(s, i))
  {
    hide Commands, Published, Unsent, CursorInv, Find;
    CursorKeptByJob(s, i);
    ServedPublishesNothing(s.log, s.jobs[i].command);
    assert StepJob(s, i).published == s.published;
  }

  lemma BatchKept(s: System, a: Action)
    requires LockInv(s) && CommandInv(s) && BatchInv(s) && Enabled(s, a)
    ensures BatchInv(Apply(s, a))
  {
    hide Commands, Published, Outstanding, Targets, Find;
    match a
    case JobStep(i) => BatchKeptByJob(s, i);
    case SchedulerStep =>
      if s.scheduler.WantShared? {
        BatchStarts(s.topics, s.log, s.scheduler.channel, s.scheduler.batch);
      } else if s.scheduler.Forwarding? {
        BatchAdvances(s);
      }
    case _ =>
  }

  // Accounting for commands.

  /** 1 if the thread has taken up `cmd` and it has not taken effect. */
  function Undone(job: Job, cmd: Command): nat {
    if (job.Looking? || job.WantMap? || job.Editing?) && job.command == cmd then 1 else 0
  }

  function AllUndone(jobs: seq<Job>, cmd: Command): nat {
    if jobs == [] then 0 else Undone(jobs[0], cmd) + AllUndone(jobs[1..], cmd)
  }

  lemma {:induction false} UndoneUpdate(jobs: seq<Job>, i: nat, job: Job, cmd: Command)
    requires i < |jobs|
    ensures AllUndone(jobs[i := job], cmd) == AllUndone(jobs, cmd) - Undone(jobs[i], cmd) + Undone(job, cmd)
  {
    if i == 0 {
      assert jobs[0 := job][1..] == jobs[1..];
    } else {
      assert jobs[i := job][1..] == jobs[1..][i - 1 := job];
      UndoneUpdate(jobs[1..], i - 1, job, cmd);
    }
  }

  /** Every command taken up has taken effect once, or is still to. */
  ghost predicate TakenInv(s: System) {
    forall cmd :: multiset(s.taken)[cmd] == multiset(Commands(s.log))[cmd] + AllUndone(s.jobs, cmd)
  }

  /** 1 if the step of the thread makes `cmd` take effect. */
  function Effected(s: System, job: Job, cmd: Command): nat {
    if TakesEffect(s, job) && job.command == cmd then 1 else 0
  }

  lemma JobGivesUp(s: System, job: Job, cmd: Command)
    ensures Undone(job, cmd) == Undone(NextJob(s, job), cmd) + Effected(s, job, cmd)
  {
    hide Find, TopicsOf;
  }

  lemma LogTakesOver(s: System, i: nat, cmd: Command)
    requires i < |s.jobs|
    ensures multiset(Commands(StepJob(s, i).log))[cmd] == multiset(Commands(s.log))[cmd] + Effected(s, s.jobs[i], cmd)
  {
    hide Commands, Find, NextJob, NextTopics;
    if TakesEffect(s, s.jobs[i]) {
      CommandsAppend(s.log, Served(s.jobs[i].command));
    }
  }

  lemma TakenKeptByJob(s: System, i: nat, cmd: Command)
    requires i < |s.jobs|
    requires multiset(s.taken)[cmd] == multiset(Commands(s.log))[cmd] + AllUndone(s.jobs, cmd)
    ensures var s' := StepJob(s, i);
      multiset(s'.taken)[cmd] == multiset(Commands(s'.log))[cmd] + AllUndone(s'.jobs, cmd)
  {
    hide Commands, AllUndone, NextJob, NextTopics, Undone, Effected, TakesEffect;
    UndoneUpdate(s.jobs, i, NextJob(s, s.jobs[i]), cmd);
    JobGivesUp(s, s.jobs[i], cmd);
    LogTakesOver(s, i, cmd);
  }

  lemma TakenKept(s: System, a: Action)
    requires TakenInv(s) && Enabled(s, a)
    ensures TakenInv(Apply(s, a))
  {
    hide Commands, AllUndone, Find;
    var s' := Apply(s, a);
    forall cmd ensures multiset(s'.taken)[cmd] == multiset(Commands(s'.log))[cmd] + AllUndone(s'.jobs, cmd) {
      match a {
        case Take(i, _) => UndoneUpdate(s.jobs, i, s'.jobs[i], cmd);
        case JobStep(i) => TakenKeptByJob(s, i, cmd);
        case SchedulerStep =>
          if s.scheduler.WantShared? {
            CommandsAppend(s.log, Handled(s.scheduler.channel, s.scheduler.batch));
          }
        case _ =>
      }
    }
  }

  // The order in which commands of one channel take effect.

  /** The commands about one channel, in order. */
  function OnChannel(h: seq<Command>, c: Name): seq<Command> {
    if h == [] then []
    else OnChannel(h[..|h| - 1], c) + if h[|h| - 1].channel == c then [h[|h| - 1]] else []
  }

  lemma OnChannelAppend(h: seq<Command>, cmd: Command, c: Name)
    ensures OnChannel(h + [cmd], c) == if cmd.channel == c then OnChannel(h, c) + [cmd] else OnChannel(h, c)
  {
    assert (h + [cmd])[..|h|] == h;
  }

  /** The thread has taken up a command for `c` that has not taken effect. */
  predicate Early(job: Job, c: Name) {
    (job.Looking? || job.WantMap? || job.Editing?) && job.command.channel == c
  }

  /** The commands for `c` that took effect are those taken up, in that order, but for the early one. */
  ghost predicate OrderOn(s: System, c: Name) {
    var done := OnChannel(Commands(s.log), c);
    && (forall i :: 0 <= i < |s.jobs| && Early(s.jobs[i], c) ==>
          OnChannel(s.taken, c) == done + [s.jobs[i].command])
    && ((forall i :: 0 <= i < |s.jobs| ==> !Early(s.jobs[i], c)) ==> OnChannel(s.taken, c) == done)
  }

  ghost predicate OrderInv(s: System) {
    forall c :: OrderOn(s, c)
  }

  lemma OrderKeptByTake(s: System, i: nat, cmd: Command, c: Name)
    requires OrderOn(s, c) && Enabled(s, Take(i, cmd)) && Serial(s, Take(i, cmd))
    ensures OrderOn(Apply(s, Take(i, cmd)), c)
  {
    hide OnChannel, Commands;
    var s' := Apply(s, Take(i, cmd));
    OnChannelAppend(s.taken, cmd, c);
    forall k | 0 <= k < |s.jobs|
      ensures Early(s'.jobs[k], c) == (Early(s.jobs[k], c) || (k == i && cmd.channel == c))
    {
    }
    if cmd.channel == c {
      assert forall k :: 0 <= k < |s.jobs| ==> !Early(s.jobs[k], c);
    }
  }

  lemma OrderKeptByJob(s: System, i: nat, c: Name)
    requires OrderOn(s, c) && OneJobPerChannel(s) && Enabled(s, JobStep(i))
    ensures OrderOn(StepJob(s, i), c)
  {
    hide OnChannel, Commands, Find, NextTopics;
    var s' := StepJob(s, i);
    var job := s.jobs[i];
    assert forall k :: 0 <= k < |s.jobs| && k != i ==> s'.jobs[k] == s.jobs[k];
    if job.command.channel != c {
      LogFor(s, i, c);
      assert Early(s'.jobs[i], c) == Early(job, c) == false;
    } else {
      assert forall k :: 0 <= k < |s.jobs| && k != i ==> !Early(s.jobs[k], c);
      LogFor(s, i, c);
      assert Early(s'.jobs[i], c) == (Early(job, c) && !TakesEffect(s, job));
    }
  }

  /** What a step of a thread adds to the effects on `c`. */
  lemma LogFor(s: System, i: nat, c: Name)
    requires i < |s.jobs|
    ensures OnChannel(Commands(StepJob(s, i).log), c) == OnChannel(Commands(s.log), c) +
            if TakesEffect(s, s.jobs[i]) && s.jobs[i].command.channel == c then [s.jobs[i].command] else []
  {
    hide OnChannel, Commands, Find, NextTopics, NextJob;
    if TakesEffect(s, s.jobs[i]) {
      CommandsAppend(s.log, Served(s.jobs[i].command));
      OnChannelAppend(Commands(s.log), s.jobs[i].command, c);
    }
  }

  lemma OrderKept(s: System, a: Action)
    requires OrderInv(s) && OneJobPerChannel(s) && Enabled(s, a) && Serial(s, a)
    ensures OrderInv(Apply(s, a))
  {
    hide OnChannel, Commands, Find, OrderOn;
    forall c ensures OrderOn(Apply(s, a), c) {
      assert OrderOn(s, c);
      match a {
        case Take(i, cmd) => OrderKeptByTake(s, i, cmd, c);
        case JobStep(i) => OrderKeptByJob(s, i, c);
        case _ => OrderKeptByScheduler(s, a, c);
      }
    }
  }

  lemma OrderKeptByScheduler(s: System, a: Action, c: Name)
    requires OrderOn(s, c) && Enabled(s, a) && (a.BeginScan? || a.Drain? || a.SchedulerStep?)
    ensures OrderOn(Apply(s, a), c)
  {
    hide OnChannel, Commands;
    SchedulerLogsNoCommand(s, a);
  }

  // Runs.

  ghost predicate Inv(s: System) {
    LockInv(s) && CommandInv(s) && BatchInv(s) && OrderInv(s)
  }

  lemma {:induction false} InvRun(s: System, actions: seq<Action>)
    requires Inv(s) && SerialRun(s, actions)
    ensures Legal(s, actions) && Inv(Exec(s, actions))
    decreases |actions|
  {
    if actions != [] {
      LocksKept(s, actions[0]);
      CommandsKept(s, actions[0]);
      BatchKept(s, actions[0]);
      OrderKept(s, actions[0]);
      InvRun(Apply(s, actions[0]), actions[1..]);
    }
  }

  lemma {:induction false} NothingUndone(jobs: seq<Job>, cmd: Command)
    requires forall i :: 0 <= i < |jobs| ==> jobs[i].Vacant?
    ensures AllUndone(jobs, cmd) == 0
  {
    if jobs != [] {
      NothingUndone(jobs[1..], cmd);
    }
  }

  ghost predicate Quiescent(s: System) {
    forall i :: 0 <= i < |s.jobs| ==> s.jobs[i].Vacant?
  }

  /** Whatever the interleaving, once no command is in progress each command taken up has taken effect once. */
  lemma EveryCommandTakesEffectOnce(threads: nat, actions: seq<Action>)
    requires Legal(Initial(threads), actions) && Quiescent(Exec(Initial(threads), actions))
    ensures multiset(Exec(Initial(threads), actions).taken) == multiset(Commands(Exec(Initial(threads), actions).log))
  {
    hide Commands, Legal, Exec;
    var s := Exec(Initial(threads), actions);
    InitialTaken(threads);
    TakenRun(Initial(threads), actions);
    forall cmd ensures multiset(s.taken)[cmd] == multiset(Commands(s.log))[cmd] {
      NothingUndone(s.jobs, cmd);
    }
  }

  lemma InitialTaken(threads: nat)
    ensures TakenInv(Initial(threads))
  {
    forall cmd ensures AllUndone(Initial(threads).jobs, cmd) == 0 {
      NothingUndone(Initial(threads).jobs, cmd);
    }
  }

  lemma {:induction false} TakenRun(s: System, actions: seq<Action>)
    requires TakenInv(s) && Legal(s, actions)
    ensures TakenInv(Exec(s, actions))
    decreases |actions|
  {
    if actions != [] {
      TakenKept(s, actions[0]);
      TakenRun(Apply(s, actions[0]), actions[1..]);
    }
  }

  lemma InitialInv(threads: nat)
    ensures Inv(Initial(threads))
  {
  }

  /** A state reached by a run in which commands for one channel never overlap. */
  ghost predicate Reached(s: System) {
    exists threads, actions :: SerialRun(Initial(threads), actions) && Legal(Initial(threads), actions)
                               && s == Exec(Initial(threads), actions)
  }

  lemma ReachedInv(s: System)
    requires Reached(s)
    ensures Inv(s)
  {
    var threads, actions :| SerialRun(Initial(threads), actions) && Legal(Initial(threads), actions)
                            && s == Exec(Initial(threads), actions);
    InitialInv(threads);
    InvRun(Initial(threads), actions);
  }

  /**
    Once no command is in progress both maps are those of the commands served one at a time in the
    order in which they were taken up: each channel has exactly the topics last activated, in order
    of activation, and is monitored exactly while it has any.
   */
  lemma MapsAgreeAtRest(s: System, c: Name)
    requires Reached(s) && Quiescent(s)
    ensures TopicsOf(s.topics, c) == TopicsOf(Replay(s.taken).topics, c)
    ensures c in s.monitored <==> c in Replay(s.taken).monitored
    ensures Describes(Gateway(s.topics, s.monitored), s.taken, c)
  {
    hide Replay, Commands, OnChannel, Active, Since, InActivationOrder, Reached;
    ReachedInv(s);
    var done := Commands(s.log);
    assert OrderOn(s, c) && OnChannel(s.taken, c) == OnChannel(done, c);
    ChannelsIndependent(s.taken, c);
    ChannelsIndependent(done, c);
    ReplayDescribed(done, c);
    ReplayDescribed(s.taken, c);
    assert !SwitchPending(s, c);
  }

  /**
    End to end, for every interleaving: whenever no batch is being forwarded, the values published on
    a topic under a channel's key are exactly those owed, each once and in drain order.
   */
  lemma EndToEndDelivery(s: System, c: Name, t: Name)
    requires Reached(s) && !s.scheduler.Forwarding?
    ensures Received(s.published, c, t) == Owed(s.log, c, t)
  {
    ReachedInv(s);
    assert s.published == Published(s.log);
    DeliveryIsExact(s.log, c, t);
  }

  // Confluence.

  /** What is known about a channel depends only on its own commands. */
  lemma {:induction false} ChannelsIndependent(h: seq<Command>, c: Name)
    ensures TopicsOf(Replay(h).topics, c) == TopicsOf(Replay(OnChannel(h, c)).topics, c)
    ensures c in Replay(h).monitored <==> c in Replay(OnChannel(h, c)).monitored
  {
    hide Serve, Edit, Find;
    if h != [] {
      ChannelsIndependent(h[..|h| - 1], c);
      var before, last := h[..|h| - 1], h[|h| - 1];
      assert Replay(h) == Serve(Replay(before), last);
      assert OnChannel(h, c) == if last.channel == c then OnChannel(before, c) + [last] else OnChannel(before, c);
      ServeEffect(Replay(before), last, c);
      if last.channel == c {
        ReplayAppend(OnChannel(before, c), last);
        ServeEffect(Replay(OnChannel(before, c)), last, c);
      }
    }
  }

  /**
    Two runs that take up the commands of each channel in the same order end in the same
    subscriptions, however the commands of different channels and the scheduler were interleaved.
   */
  lemma Confluence(s1: System, s2: System, c: Name)
    requires Reached(s1) && Reached(s2) && Quiescent(s1) && Quiescent(s2)
    requires OnChannel(s1.taken, c) == OnChannel(s2.taken, c)
    ensures TopicsOf(s1.topics, c) == TopicsOf(s2.topics, c)
    ensures c in s1.monitored <==> c in s2.monitored
  {
    MapsAgreeAtRest(s1, c);
    MapsAgreeAtRest(s2, c);
    ChannelsIndependent(s1.taken, c);
    ChannelsIndependent(s2.taken, c);
  }

  ghost predicate DistinctChannels(h: seq<Command>) {
    forall i, j :: 0 <= i < j < |h| ==> h[i].channel != h[j].channel
  }

  lemma {:induction false} OnChannelUnique(h: seq<Command>, c: Name)
    requires DistinctChannels(h)
    ensures forall cmd :: cmd in h && cmd.channel == c ==> OnChannel(h, c) == [cmd]
    ensures (forall cmd :: cmd in h ==> cmd.channel != c) ==> OnChannel(h, c) == []
  {
    if h != [] {
      OnChannelUnique(h[..|h| - 1], c);
    }
  }

  lemma DistinctUnderPermutation(a: seq<Command>, b: seq<Command>)
    requires DistinctChannels(a) && multiset(a) == multiset(b)
    ensures DistinctChannels(b)
  {
    forall i, j | 0 <= i < j < |b| ensures b[i].channel != b[j].channel {
      assert b[i] in multiset(a) && b[j] in multiset(a);
      if b[i].channel == b[j].channel {
        DistinctMultiplicity(a, b[i]);
        if b[i] == b[j] { RepeatedCounts(b, i, j); }
        assert false;
      }
    }
  }

  /** Commands for pairwise distinct channels cannot overlap on a channel, whatever the interleaving. */
  lemma {:induction false} DistinctRunsAreSerial(s: System, actions: seq<Action>)
    requires JobsTaken(s) && Legal(s, actions) && DistinctChannels(Exec(s, actions).taken)
    ensures SerialRun(s, actions)
    decreases |actions|
  {
    if actions != [] {
      var a, s' := actions[0], Apply(s, actions[0]);
      JobsTakenKept(s, a);
      TakenGrows(s', actions[1..]);
      DistinctRunsAreSerial(s', actions[1..]);
      if a.Take? {
        TakeIsSerial(s, a.index, a.command, Exec(s', actions[1..]).taken);
      }
    }
  }

  lemma TakeIsSerial(s: System, index: nat, cmd: Command, taken: seq<Command>)
    requires JobsTaken(s) && Enabled(s, Take(index, cmd))
    requires s.taken + [cmd] <= taken && DistinctChannels(taken)
    ensures Serial(s, Take(index, cmd))
  {
    assert taken[|s.taken|] == cmd;
    forall i | 0 <= i < |s.jobs| && !s.jobs[i].Vacant? ensures s.jobs[i].command.channel != cmd.channel {
      var k :| 0 <= k < |s.taken| && s.taken[k] == s.jobs[i].command;
      assert taken[k] == s.taken[k];
    }
  }

  /** A pool of one thread never overlaps commands at all. */
  lemma {:induction false} OneThreadIsSerial(s: System, actions: seq<Action>)
    requires |s.jobs| <= 1 && JobsTaken(s) && Legal(s, actions)
    ensures SerialRun(s, actions)
    decreases |actions|
  {
    if actions != [] {
      JobsTakenKept(s, actions[0]);
      OneThreadIsSerial(Apply(s, actions[0]), actions[1..]);
    }
  }

  /** So with one pool thread both maps are always those of the commands in the order taken up. */
  lemma OneThreadAgrees(actions: seq<Action>, c: Name)
    requires Legal(Initial(1), actions) && Quiescent(Exec(Initial(1), actions))
    ensures var s := Exec(Initial(1), actions); Describes(Gateway(s.topics, s.monitored), s.taken, c)
  {
    hide Legal, Exec, SerialRun;
    OneThreadIsSerial(Initial(1), actions);
    assert Reached(Exec(Initial(1), actions));
    MapsAgreeAtRest(Exec(Initial(1), actions), c);
  }

  /** Commands on pairwise distinct channels: every interleaving, and every serial order, ends the same. */
  lemma DistinctChannelsCommute(threads: nat, actions: seq<Action>, order: seq<Command>, c: Name)
    requires Legal(Initial(threads), actions) && Quiescent(Exec(Initial(threads), actions))
    requires DistinctChannels(order) && multiset(order) == multiset(Exec(Initial(threads), actions).taken)
    ensures TopicsOf(Exec(Initial(threads), actions).topics, c) == TopicsOf(Replay(order).topics, c)
    ensures c in Exec(Initial(threads), actions).monitored <==> c in Replay(order).monitored
  {
    hide Legal, Exec, SerialRun, Replay, OnChannel;
    var s := Exec(Initial(threads), actions);
    DistinctUnderPermutation(order, s.taken);
    DistinctRunsAreSerial(Initial(threads), actions);
    assert Reached(s);
    MapsAgreeAtRest(s, c);
    OnChannelUnique(order, c);
    OnChannelUnique(s.taken, c);
    assert forall cmd :: cmd in order <==> cmd in multiset(order);
    assert forall cmd :: cmd in s.taken <==> cmd in multiset(s.taken);
    ChannelsIndependent(s.taken, c);
    ChannelsIndependent(order, c);
  }
}
