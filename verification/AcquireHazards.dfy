/**
  Commands for one channel executed at the same time by several pool threads, which take them up in
  the order in which they were pushed but serve them at their own pace: which commands can then leave
  the two maps in disagreement.
 */
module AcquireHazards {
  import opened Sequences
  import opened Subscriptions
  import opened Routing
  import opened AcquireProtocol
  import opened AcquireRefinement
  import opened AcquireSchedules

  /** The commands `h` have been taken up in this order, and nothing is in progress. */
  ghost predicate Serves(s: System, threads: nat, h: seq<Command>) {
    ReachableWith(s, threads) && Quiescent(s) && s.taken == h
  }

  /** The command puts `t` into the vector of `c`. */
  predicate Activates(cmd: Command, c: Name, t: Name) { About(cmd, c, t) && cmd.activate }

  ghost predicate Activated(h: seq<Command>, c: Name, t: Name) {
    exists i :: 0 <= i < |h| && Activates(h[i], c, t)
  }

  // Agreement of the two maps.

  /** The commands about `c` are all activations, or all deactivations. */
  ghost predicate OneWay(h: seq<Command>, c: Name) {
    exists up :: AllOf(h, c, up)
  }

  ghost predicate AllOf(h: seq<Command>, c: Name, up: bool) {
    forall i :: 0 <= i < |h| && h[i].channel == c ==> h[i].activate == up
  }

  /** The number of activations of `c`. */
  function Ups(h: seq<Command>, c: Name): nat {
    if h == [] then 0
    else Ups(h[..|h| - 1], c) + if h[|h| - 1].channel == c && h[|h| - 1].activate then 1 else 0
  }

  /**
    Every deactivation of `c` names a topic that is never activated, and comes after at least as many
    activations as there are threads, so that one of them must have been served by then.
   */
  ghost predicate Harmless(h: seq<Command>, c: Name, threads: nat) {
    forall j :: 0 <= j < |h| && h[j].channel == c && !h[j].activate ==>
      !Activated(h, c, h[j].topic) && Ups(h[..j], c) >= threads
  }

  predicate Late(job: Job) { job.Measuring? || job.WantManager? || job.Switching? }

  /** 1 if the thread has taken up an activation of `c` that has not taken effect. */
  function EarlyUp(job: Job, c: Name): nat {
    if Early(job, c) && job.command.activate then 1 else 0
  }

  function EarlyUps(jobs: seq<Job>, c: Name): nat {
    if jobs == [] then 0 else EarlyUp(jobs[0], c) + EarlyUps(jobs[1..], c)
  }

  lemma {:induction false} EarlyUpsUpdate(jobs: seq<Job>, i: nat, job: Job, c: Name)
    requires i < |jobs|
    ensures EarlyUps(jobs[i := job], c) == EarlyUps(jobs, c) - EarlyUp(jobs[i], c) + EarlyUp(job, c)
  {
    if i == 0 {
      assert jobs[0 := job][1..] == jobs[1..];
    } else {
      assert jobs[i := job][1..] == jobs[1..][i - 1 := job];
      EarlyUpsUpdate(jobs[1..], i - 1, job, c);
    }
  }

  lemma {:induction false} EarlyUpsBound(jobs: seq<Job>, c: Name)
    ensures EarlyUps(jobs, c) <= |jobs|
    ensures (exists i :: 0 <= i < |jobs| && EarlyUp(jobs[i], c) == 0) ==> EarlyUps(jobs, c) < |jobs|
  {
    if jobs != [] {
      EarlyUpsBound(jobs[1..], c);
      if i :| 0 <= i < |jobs| && EarlyUp(jobs[i], c) == 0 {
        assert i > 0 ==> jobs[1..][i - 1] == jobs[i];
      }
    }
  }

  /** What holds of `c` while it is only ever built up: its vector never becomes empty again. */
  ghost predicate Rising(s: System, c: Name) {
    && (forall i :: 0 <= i < |s.jobs| && !s.jobs[i].Vacant? && s.jobs[i].command.channel == c ==>
          RisingJob(s.jobs[i], TopicsOf(s.topics, c)))
    && (c in s.monitored ==> TopicsOf(s.topics, c) != [])
    && (TopicsOf(s.topics, c) != [] ==> c in s.monitored || SwitchPending(s, c))
    && (forall t :: t in TopicsOf(s.topics, c) ==> Activated(s.taken, c, t))
    && (TopicsOf(s.topics, c) == [] ==> Ups(s.taken, c) <= EarlyUps(s.jobs, c))
  }

  predicate RisingJob(job: Job, v: seq<Name>)
    requires !job.Vacant?
  {
    && (job.WantMap? || job.Editing? ==> job.command.activate && job.at.None?)
    && (!job.command.activate || Late(job) ==> v != [])
    && (job.WantManager? || job.Switching? ==> job.on)
  }

  /** While only deactivations of `c` are served, there is nothing to edit or to monitor. */
  ghost predicate Flat(s: System, c: Name) {
    && TopicsOf(s.topics, c) == [] && c !in s.monitored
    && (forall i :: 0 <= i < |s.jobs| && !s.jobs[i].Vacant? && s.jobs[i].command.channel == c ==>
          && !s.jobs[i].command.activate && !s.jobs[i].WantMap? && !s.jobs[i].Editing?
          && (s.jobs[i].WantManager? || s.jobs[i].Switching? ==> !s.jobs[i].on))
  }

  lemma {:induction false} UpsAppend(h: seq<Command>, cmd: Command, c: Name)
    ensures Ups(h + [cmd], c) == Ups(h, c) + if cmd.channel == c && cmd.activate then 1 else 0
  {
    assert (h + [cmd])[..|h|] == h;
  }

  lemma ActivatedGrows(h: seq<Command>, h': seq<Command>, c: Name)
    requires h <= h'
    ensures forall t :: Activated(h, c, t) ==> Activated(h', c, t)
  {
    forall t | Activated(h, c, t) ensures Activated(h', c, t) {
      var i :| 0 <= i < |h| && Activates(h[i], c, t);
      assert Activates(h'[i], c, t);
    }
  }

  lemma RisingKeptByTake(s: System, i: nat, cmd: Command, c: Name, h: seq<Command>)
    requires Rising(s, c) && Enabled(s, Take(i, cmd))
    requires s.taken + [cmd] <= h && Harmless(h, c, |s.jobs|)
    ensures Rising(Apply(s, Take(i, cmd)), c)
  {
    hide Ups, EarlyUps, Activated;
    var s' := Apply(s, Take(i, cmd));
    UpsAppend(s.taken, cmd, c);
    EarlyUpsUpdate(s.jobs, i, Looking(cmd), c);
    EarlyUpsBound(s.jobs, c);
    ActivatedGrows(s.taken, s'.taken, c);
    assert h[|s.taken|] == cmd && h[..|s.taken|] == s.taken;
    assert EarlyUp(s.jobs[i], c) == 0;
    assert forall k :: 0 <= k < |s.jobs| && k != i ==> s'.jobs[k] == s.jobs[k];
    if k :| 0 <= k < |s.jobs| && Pending(s.jobs[k], c) {
      assert Pending(s'.jobs[k], c);
    }
  }

  lemma RisingKeptByOther(s: System, i: nat, c: Name)
    requires Rising(s, c) && Enabled(s, JobStep(i)) && s.jobs[i].command.channel != c
    ensures Rising(StepJob(s, i), c)
  {
    hide Find, Ups, EarlyUps, Activated;
    var s' := StepJob(s, i);
    EarlyUpsUpdate(s.jobs, i, s'.jobs[i], c);
    assert forall k :: 0 <= k < |s.jobs| && k != i ==> s'.jobs[k] == s.jobs[k];
    assert TopicsOf(s'.topics, c) == TopicsOf(s.topics, c);
    if k :| 0 <= k < |s.jobs| && Pending(s.jobs[k], c) {
      assert Pending(s'.jobs[k], c);
    }
  }

  /** What a step on `c` does to the vector and to the stepping thread. */
  lemma RisingStep(s: System, i: nat, c: Name)
    requires Rising(s, c) && Enabled(s, JobStep(i)) && s.jobs[i].command.channel == c
    requires s.jobs[i].command.activate || s.jobs[i].command.topic !in TopicsOf(s.topics, c)
    ensures var s', cmd := StepJob(s, i), s.jobs[i].command;
      var v, v' := TopicsOf(s.topics, c), TopicsOf(s'.topics, c);
      && v' == (if s.jobs[i].Editing? then v + [cmd.topic] else v)
      && (s.jobs[i].Editing? ==> cmd.activate)
      && (s'.jobs[i].Vacant? || (s'.jobs[i].command == cmd && RisingJob(s'.jobs[i], v')))
      && (v' == [] ==> EarlyUp(s'.jobs[i], c) == EarlyUp(s.jobs[i], c))
  {
    hide Ups, EarlyUps, Activated;
    assert !s.jobs[i].Vacant?;
    assert RisingJob(s.jobs[i], TopicsOf(s.topics, c));
  }

  lemma RisingKeptByOwn(s: System, i: nat, c: Name)
    requires Rising(s, c) && Enabled(s, JobStep(i)) && s.jobs[i].command.channel == c
    requires s.jobs[i].command in s.taken
    requires s.jobs[i].command.activate || s.jobs[i].command.topic !in TopicsOf(s.topics, c)
    ensures Rising(StepJob(s, i), c)
  {
    hide Find, Ups, EarlyUps, Activated, NextTopics, NextJob, TopicsOf;
    var s', job := StepJob(s, i), s.jobs[i];
    RisingStep(s, i, c);
    EarlyUpsUpdate(s.jobs, i, s'.jobs[i], c);
    TakenActivates(s.taken, job.command);
    assert forall k :: 0 <= k < |s.jobs| && k != i ==> s'.jobs[k] == s.jobs[k];
    assert SwitchPending(s', c) || (TopicsOf(s'.topics, c) != [] ==> c in s'.monitored) by {
      RisingPending(s, i, c);
    }
  }

  lemma TakenActivates(h: seq<Command>, cmd: Command)
    requires cmd in h
    ensures cmd.activate ==> Activated(h, cmd.channel, cmd.topic)
  {
    var i :| 0 <= i < |h| && h[i] == cmd;
    assert cmd.activate ==> Activates(h[i], cmd.channel, cmd.topic);
  }

  lemma RisingPending(s: System, i: nat, c: Name)
    requires Rising(s, c) && Enabled(s, JobStep(i)) && s.jobs[i].command.channel == c
    ensures var s' := StepJob(s, i);
      SwitchPending(s', c) || (TopicsOf(s'.topics, c) != [] ==> c in s'.monitored)
  {
    hide Find, Ups, EarlyUps, Activated;
    var s', job := StepJob(s, i), s.jobs[i];
    assert RisingJob(job, TopicsOf(s.topics, c));
    if job.Editing? {
      assert Pending(s'.jobs[i], c);
    } else if !job.Switching? {
      assert TopicsOf(s'.topics, c) == TopicsOf(s.topics, c);
      if k :| 0 <= k < |s.jobs| && Pending(s.jobs[k], c) {
        assert Pending(s'.jobs[k], c);
      }
    }
  }

  lemma RisingKept(s: System, a: Action, c: Name, h: seq<Command>)
    requires Rising(s, c) && JobsTaken(s) && Enabled(s, a)
    requires Apply(s, a).taken <= h && Harmless(h, c, |s.jobs|)
    ensures Rising(Apply(s, a), c)
  {
    hide Rising, Find, Harmless;
    match a
    case Take(i, cmd) => RisingKeptByTake(s, i, cmd, c, h);
    case JobStep(i) =>
      if s.jobs[i].command.channel != c {
        RisingKeptByOther(s, i, c);
      } else {
        HarmlessFindsNothing(s, i, c, h);
        RisingKeptByOwn(s, i, c);
      }
    case _ => RisingKeptByScheduler(s, a, c);
  }

  lemma RisingKeptByScheduler(s: System, a: Action, c: Name)
    requires Rising(s, c) && Enabled(s, a) && (a.BeginScan? || a.Drain? || a.SchedulerStep?)
    ensures Rising(Apply(s, a), c)
  {
    hide Ups, EarlyUps, Activated;
    SchedulerLogsNoCommand(s, a);
    var s' := Apply(s, a);
    if k :| 0 <= k < |s.jobs| && Pending(s.jobs[k], c) {
      assert Pending(s'.jobs[k], c);
    }
  }

  /** A harmless deactivation names a topic that is not in the vector. */
  lemma HarmlessFindsNothing(s: System, i: nat, c: Name, h: seq<Command>)
    requires Rising(s, c) && JobsTaken(s) && s.taken <= h && Harmless(h, c, |s.jobs|)
    requires i < |s.jobs| && !s.jobs[i].Vacant? && s.jobs[i].command.channel == c
    ensures s.jobs[i].command.activate || s.jobs[i].command.topic !in TopicsOf(s.topics, c)
  {
    hide Ups, EarlyUps, Activated;
    ActivatedGrows(s.taken, h, c);
    var k :| 0 <= k < |s.taken| && s.taken[k] == s.jobs[i].command;
    assert h[k] == s.jobs[i].command;
  }

  lemma FlatKeptByJob(s: System, i: nat, c: Name)
    requires Flat(s, c) && Enabled(s, JobStep(i))
    ensures Flat(StepJob(s, i), c)
  {
    var s', job := StepJob(s, i), s.jobs[i];
    assert forall k :: 0 <= k < |s.jobs| && k != i ==> s'.jobs[k] == s.jobs[k];
    if job.command.channel == c {
      assert Find([], job.command.topic) == None;
    }
    assert TopicsOf(s'.topics, c) == TopicsOf(s.topics, c);
  }

  lemma FlatKept(s: System, a: Action, c: Name)
    requires Flat(s, c) && Enabled(s, a)
    requires a.Take? && a.command.channel == c ==> !a.command.activate
    ensures Flat(Apply(s, a), c)
  {
    hide Find;
    match a
    case JobStep(i) => FlatKeptByJob(s, i, c);
    case _ =>
  }

  lemma {:induction false} RisingRun(s: System, actions: seq<Action>, c: Name)
    requires Rising(s, c) && JobsTaken(s) && Legal(s, actions)
    requires Harmless(Exec(s, actions).taken, c, |s.jobs|)
    ensures Rising(Exec(s, actions), c)
    decreases |actions|
  {
    hide Rising, Harmless;
    if actions != [] {
      var s' := Apply(s, actions[0]);
      JobsTakenKept(s, actions[0]);
      TakenGrows(s', actions[1..]);
      RisingKept(s, actions[0], c, Exec(s, actions).taken);
      RisingRun(s', actions[1..], c);
    }
  }

  lemma {:induction false} FlatRun(s: System, actions: seq<Action>, c: Name)
    requires Flat(s, c) && JobsTaken(s) && Legal(s, actions)
    requires AllOf(Exec(s, actions).taken, c, false)
    ensures Flat(Exec(s, actions), c)
    decreases |actions|
  {
    hide Flat;
    if actions != [] {
      var s' := Apply(s, actions[0]);
      JobsTakenKept(s, actions[0]);
      TakenGrows(s', actions[1..]);
      assert actions[0].Take? ==> Exec(s, actions).taken[|s.taken|] == actions[0].command;
      FlatKept(s, actions[0], c);
      FlatRun(s', actions[1..], c);
    }
  }

  /**
    The maps agree at rest for any number of threads if every deactivation of the channel is harmless;
    such commands need not be one-way.
   */
  lemma HarmlessAgrees(s: System, threads: nat, h: seq<Command>, c: Name)
    requires Serves(s, threads, h) && Harmless(h, c, threads)
    ensures Agreed(s, c)
  {
    hide Exec, Legal, Harmless;
    var actions :| ReachedBy(s, threads, actions);
    RisingRun(Initial(threads), actions, c);
    assert !SwitchPending(s, c);
  }

  lemma OneWayAgrees(s: System, threads: nat, h: seq<Command>, c: Name)
    requires Serves(s, threads, h) && OneWay(h, c)
    ensures Agreed(s, c)
  {
    hide Exec, Legal;
    if AllOf(h, c, true) {
      HarmlessAgrees(s, threads, h, c);
    } else {
      var actions :| ReachedBy(s, threads, actions);
      FlatRun(Initial(threads), actions, c);
    }
  }

  /** Served one at a time, the channel of `h[k]` has topics after that command and none at the end, or vice versa. */
  ghost predicate Flips(h: seq<Command>, k: nat)
    requires k < |h|
  {
    var c := h[k].channel;
    (TopicsOf(Replay(h[..k + 1]).topics, c) == []) != (TopicsOf(Replay(h).topics, c) == [])
  }

  /**
    With two or more threads, the maps can disagree whenever serving one at a time flips between some
    topics and none: the thread that serves the command before the flip is the last to tell the
    manager. The topic vectors end as if served one at a time.
   */
  lemma FlipDisagrees(threads: nat, h: seq<Command>, k: nat) returns (s: System)
    requires threads >= 2 && k < |h|
    ensures Serves(s, threads, h)
    ensures Agreed(s, h[k].channel) <==> !Flips(h, k)
    ensures forall c :: TopicsOf(s.topics, c) == TopicsOf(Replay(h).topics, c)
  {
    hide ReachableWith, Quiescent, EditAll, TopicsOf, Replay;
    s := HeldAtSwitch(threads, h, k);
    EditAllIsReplay(h[..k + 1], h[k].channel);
    forall c ensures TopicsOf(s.topics, c) == TopicsOf(Replay(h).topics, c) {
      EditAllIsReplay(h, c);
    }
  }

  /** Threads take up all of `h` before any of them searches. */
  lemma {:induction false} AllTaken(threads: nat, h: seq<Command>) returns (s: System)
    requires threads >= |h|
    ensures ReachableWith(s, threads) && Calm(s) && s.taken == h && s.topics == map[]
    ensures |s.jobs| == threads
    ensures forall k :: 0 <= k < threads ==> s.jobs[k] == if k < |h| then Looking(h[k]) else Vacant
    decreases |h|
  {
    hide ReachableWith;
    if h == [] {
      s := Initial(threads);
      Fresh(threads);
    } else {
      var n := |h| - 1;
      s := AllTaken(threads, h[..n]);
      s := ReachStep(threads, s, Take(n, h[n]));
      assert h[..n] + [h[n]] == h;
    }
  }

  /** All threads but `i` and `j` finish what they have taken up, of the first `n`. */
  lemma {:induction false} OthersFinish(threads: nat, s: System, n: nat, i: nat, j: nat) returns (s': System)
    requires ReachableWith(s, threads) && Calm(s) && n <= |s.jobs|
    requires forall k :: 0 <= k < n && k != i && k != j ==> s.jobs[k].Looking?
    ensures ReachableWith(s', threads) && Calm(s') && s'.taken == s.taken && |s'.jobs| == |s.jobs|
    ensures forall k :: 0 <= k < |s.jobs| ==>
              s'.jobs[k] == if k < n && k != i && k != j then Vacant else s.jobs[k]
  {
    hide ReachableWith, Edited;
    s' := s;
    if n > 0 {
      s' := OthersFinish(threads, s, n - 1, i, j);
      if n - 1 != i && n - 1 != j {
        s' := ThreadEdits(threads, s', n - 1);
        s' := ThreadSwitches(threads, s', n - 1);
      }
    }
  }

  /** A deactivation measures first and switches last, an activation searches last before it. */
  lemma MixedRun(threads: nat, h: seq<Command>, i: nat, j: nat) returns (s: System)
    requires threads >= |h| && i < |h| && j < |h| && h[i].channel == h[j].channel
    requires h[i].activate && !h[j].activate
    ensures Serves(s, threads, h) && !Agreed(s, h[i].channel)
  {
    hide ReachableWith, Edit;
    var c := h[i].channel;
    s := AllTaken(threads, h);
    s := ThreadEdits(threads, s, j);
    FirstEdit(h[j].topic);
    assert s.jobs[j] == WantManager(h[j], false);
    var before := OthersFinish(threads, s, |h|, i, j);
    s := ThreadEdits(threads, before, i);
    ActivationStays(TopicsOf(before.topics, c), h[i].topic);
    s := ThreadSwitches(threads, s, i);
    s := ThreadSwitches(threads, s, j);
  }

  lemma FirstEdit(topic: Name)
    ensures Edit([], topic, false) == []
  {
  }

  lemma ActivationStays(v: seq<Name>, topic: Name)
    ensures Edit(v, topic, true) != []
  {
  }

  /**
    With at least as many pool threads as commands, every way of serving `h` ends with the two maps in
    agreement on `c` if and only if its commands about `c` are all activations or all deactivations.
   */
  lemma AgreementExactlyWhen(threads: nat, h: seq<Command>, c: Name)
    requires threads >= |h|
    ensures (forall s :: Serves(s, threads, h) ==> Agreed(s, c)) <==> OneWay(h, c)
  {
    hide Serves, Agreed;
    if OneWay(h, c) {
      forall s | Serves(s, threads, h) ensures Agreed(s, c) {
        OneWayAgrees(s, threads, h, c);
      }
    } else {
      assert !AllOf(h, c, true) && !AllOf(h, c, false);
      var i :| 0 <= i < |h| && h[i].channel == c && h[i].activate;
      var j :| 0 <= j < |h| && h[j].channel == c && !h[j].activate;
      var s := MixedRun(threads, h, i, j);
      assert Serves(s, threads, h) && !Agreed(s, c);
    }
  }

  /**
    With fewer threads than commands the condition is not needed: after three activations, two threads
    cannot go wrong on a deactivation of a fourth topic.
   */
  lemma ThreeUpOneDown(c: Name, protocol: Name, t1: Name, t2: Name, t3: Name, t4: Name)
    requires t4 != t1 && t4 != t2 && t4 != t3
    ensures var h := [Command(c, protocol, t1, true), Command(c, protocol, t2, true),
                      Command(c, protocol, t3, true), Command(c, protocol, t4, false)];
      !OneWay(h, c) && forall s :: Serves(s, 2, h) ==> Agreed(s, c)
  {
    var h := [Command(c, protocol, t1, true), Command(c, protocol, t2, true),
              Command(c, protocol, t3, true), Command(c, protocol, t4, false)];
    assert h[0].activate && !h[3].activate;
    assert Ups(h[..3], c) >= 2 by {
      assert h[..3] == [h[0], h[1]] + [h[2]] && [h[0], h[1]] == [h[0]] + [h[1]];
      UpsAppend([h[0], h[1]], h[2], c);
      UpsAppend([h[0]], h[1], c);
    }
    forall s | Serves(s, 2, h) ensures Agreed(s, c) {
      HarmlessAgrees(s, 2, h, c);
    }
  }
}
