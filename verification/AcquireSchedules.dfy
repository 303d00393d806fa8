/**
  Runs of the acquire protocol built step by step: one thread serves commands from start to finish
  while another is held at a chosen point.
 */
module AcquireSchedules {
  import opened Sequences
  import opened Subscriptions
  import opened Routing
  import opened AcquireProtocol
  import opened AcquireRefinement

  ghost predicate ReachedBy(s: System, threads: nat, actions: seq<Action>) {
    Legal(Initial(threads), actions) && s == Exec(Initial(threads), actions)
  }

  /** Reached with that many pool threads, by any interleaving at all. */
  ghost predicate ReachableWith(s: System, threads: nat) {
    exists actions :: ReachedBy(s, threads, actions)
  }

  lemma {:induction false} ExecAppend(s: System, actions: seq<Action>, a: Action)
    requires Legal(s, actions) && Enabled(Exec(s, actions), a)
    ensures Legal(s, actions + [a]) && Exec(s, actions + [a]) == Apply(Exec(s, actions), a)
    decreases |actions|
  {
    if actions == [] {
      assert actions + [a] == [a];
    } else {
      assert (actions + [a])[1..] == actions[1..] + [a];
      ExecAppend(Apply(s, actions[0]), actions[1..], a);
    }
  }

  lemma ReachStep(threads: nat, s: System, a: Action) returns (s': System)
    requires ReachableWith(s, threads) && Enabled(s, a)
    ensures s' == Apply(s, a) && ReachableWith(s', threads)
  {
    s' := Apply(s, a);
    var actions :| ReachedBy(s, threads, actions);
    ExecAppend(Initial(threads), actions, a);
    assert ReachedBy(s', threads, actions + [a]);
  }

  lemma Fresh(threads: nat)
    ensures ReachableWith(Initial(threads), threads)
  {
    assert ReachedBy(Initial(threads), threads, []);
  }

  /** Both locks are free. */
  predicate Calm(s: System) { s.mapLock.Open? && s.managerLock.Open? }

  /** The vector of `c` after the commands `h` are served one at a time. */
  function EditAll(v: seq<Name>, h: seq<Command>, c: Name): seq<Name>
    decreases |h|
  {
    if h == [] then v
    else EditAll(if h[0].channel == c then Edit(v, h[0].topic, h[0].activate) else v, h[1..], c)
  }

  lemma {:induction false} EditAllAppend(v: seq<Name>, a: seq<Command>, b: seq<Command>, c: Name)
    ensures EditAll(v, a + b, c) == EditAll(EditAll(v, a, c), b, c)
    decreases |a|
  {
    hide Edit;
    if a == [] {
      assert a + b == b;
    } else {
      assert (a + b)[1..] == a[1..] + b;
      EditAllAppend(if a[0].channel == c then Edit(v, a[0].topic, a[0].activate) else v, a[1..], b, c);
    }
  }

  lemma {:induction false} EditAllDistinct(v: seq<Name>, h: seq<Command>, c: Name)
    requires NoDuplicates(v)
    ensures NoDuplicates(EditAll(v, h, c))
    decreases |h|
  {
    hide Edit, NoDuplicates;
    if h != [] {
      EditKeepsDistinct(v, h[0].topic, h[0].activate);
      EditAllDistinct(if h[0].channel == c then Edit(v, h[0].topic, h[0].activate) else v, h[1..], c);
    }
  }

  /** A topic that no command activates does not come up. */
  lemma {:induction false} EditAllWithout(v: seq<Name>, h: seq<Command>, c: Name, t: Name)
    requires NoDuplicates(v) && t !in v
    requires forall k :: 0 <= k < |h| && About(h[k], c, t) ==> !h[k].activate
    ensures t !in EditAll(v, h, c)
    decreases |h|
  {
    hide Edit, NoDuplicates;
    if h != [] {
      EditKeepsDistinct(v, h[0].topic, h[0].activate);
      EditAllWithout(if h[0].channel == c then Edit(v, h[0].topic, h[0].activate) else v, h[1..], c, t);
    }
  }

  /** The topic map after one command's edit. */
  ghost predicate Edited(m: TopicMap, m': TopicMap, cmd: Command) {
    forall c :: TopicsOf(m', c) ==
                if c == cmd.channel then Edit(TopicsOf(m, c), cmd.topic, cmd.activate) else TopicsOf(m, c)
  }

  lemma EditAtFound(v: seq<Name>, topic: Name, activate: bool)
    ensures var at := Find(v, topic);
      Edit(v, topic, activate) == if at.Some? == activate then v else EditAt(v, topic, at)
  {
  }

  /** Thread `i` searches and edits undisturbed, and measures the vector. */
  lemma ThreadEdits(threads: nat, s: System, i: nat) returns (s': System)
    requires ReachableWith(s, threads) && Calm(s) && i < |s.jobs| && s.jobs[i].Looking?
    ensures ReachableWith(s', threads) && Calm(s') && s'.taken == s.taken && s'.monitored == s.monitored
    ensures s'.scheduler == s.scheduler && s'.published == s.published
    ensures var cmd := s.jobs[i].command;
      && Edited(s.topics, s'.topics, cmd)
      && s'.jobs == s.jobs[i := WantManager(cmd, TopicsOf(s'.topics, cmd.channel) != [])]
  {
    hide ReachableWith, Find, Edit, EditAt;
    var cmd := s.jobs[i].command;
    var v := TopicsOf(s.topics, cmd.channel);
    EditAtFound(v, cmd.topic, cmd.activate);
    s' := ReachStep(threads, s, JobStep(i));
    if s'.jobs[i].WantMap? {
      s' := ReachStep(threads, s', JobStep(i));
      s' := ReachStep(threads, s', JobStep(i));
    }
    assert s'.jobs == s.jobs[i := Measuring(cmd)] && Edited(s.topics, s'.topics, cmd);
    s' := ReachStep(threads, s', JobStep(i));
  }

  /** Thread `i` tells the manager what it measured. */
  lemma ThreadSwitches(threads: nat, s: System, i: nat) returns (s': System)
    requires ReachableWith(s, threads) && Calm(s) && i < |s.jobs| && s.jobs[i].WantManager?
    ensures ReachableWith(s', threads) && Calm(s') && s'.taken == s.taken && s'.topics == s.topics
    ensures s'.scheduler == s.scheduler && s'.published == s.published
    ensures s'.jobs == s.jobs[i := Vacant]
    ensures s'.monitored == Switch(s.monitored, s.jobs[i].command.channel, s.jobs[i].on)
  {
    hide ReachableWith, Find;
    s' := ReachStep(threads, s, JobStep(i));
    s' := ReachStep(threads, s', JobStep(i));
    assert s'.jobs == s.jobs[i := Vacant];
  }

  /** Thread `i` serves a command from start to finish. */
  lemma ThreadServes(threads: nat, s: System, i: nat, cmd: Command) returns (s': System)
    requires ReachableWith(s, threads) && Calm(s) && i < |s.jobs| && s.jobs[i].Vacant?
    ensures ReachableWith(s', threads) && Calm(s') && s'.taken == s.taken + [cmd] && s'.jobs == s.jobs
    ensures Edited(s.topics, s'.topics, cmd)
  {
    hide ReachableWith, Find, Edited;
    s' := ReachStep(threads, s, Take(i, cmd));
    s' := ThreadEdits(threads, s', i);
    s' := ThreadSwitches(threads, s', i);
    assert s'.jobs == s.jobs;
  }

  /** Thread `i` serves several commands one after the other. */
  lemma {:induction false} ThreadServesAll(threads: nat, s: System, i: nat, h: seq<Command>) returns (s': System)
    requires ReachableWith(s, threads) && Calm(s) && i < |s.jobs| && s.jobs[i].Vacant?
    ensures ReachableWith(s', threads) && Calm(s') && s'.taken == s.taken + h && s'.jobs == s.jobs
    ensures forall c :: TopicsOf(s'.topics, c) == EditAll(TopicsOf(s.topics, c), h, c)
    decreases |h|
  {
    hide ReachableWith, Edit, TopicsOf;
    s' := s;
    if h != [] {
      var s1 := ThreadServes(threads, s, i, h[0]);
      s' := ThreadServesAll(threads, s1, i, h[1..]);
      assert s.taken + [h[0]] + h[1..] == s.taken + h;
      forall c ensures TopicsOf(s'.topics, c) == EditAll(TopicsOf(s.topics, c), h, c) {
        assert TopicsOf(s1.topics, c) ==
               if c == h[0].channel then Edit(TopicsOf(s.topics, c), h[0].topic, h[0].activate)
               else TopicsOf(s.topics, c);
      }
    }
  }

  /** From the start, thread 1 serves `h` while thread 0 is idle. */
  lemma ServedFromStart(threads: nat, h: seq<Command>) returns (s: System)
    requires threads >= 2
    ensures ReachableWith(s, threads) && Calm(s) && s.taken == h
    ensures |s.jobs| == threads && forall k :: 0 <= k < threads ==> s.jobs[k].Vacant?
    ensures forall c :: TopicsOf(s.topics, c) == EditAll([], h, c)
  {
    hide ReachableWith;
    Fresh(threads);
    s := ThreadServesAll(threads, Initial(threads), 1, h);
    assert [] + h == h;
  }

  /**
    Thread 0 takes up `h[k]` in its turn and is held at its search until thread 1 has served all the
    later commands; then it goes on.
   */
  lemma HeldAtSearch(threads: nat, h: seq<Command>, k: nat) returns (s: System)
    requires threads >= 2 && k < |h|
    ensures ReachableWith(s, threads) && Quiescent(s) && s.taken == h
    ensures var cmd := h[k];
      TopicsOf(s.topics, cmd.channel) ==
      Edit(EditAll([], h[..k] + h[k + 1..], cmd.channel), cmd.topic, cmd.activate)
  {
    hide ReachableWith, Edit, EditAll, TopicsOf;
    var c := h[k].channel;
    s := ServedFromStart(threads, h[..k]);
    s := ReachStep(threads, s, Take(0, h[k]));
    s := ThreadServesAll(threads, s, 1, h[k + 1..]);
    EditAllAppend([], h[..k], h[k + 1..], c);
    s := ThreadEdits(threads, s, 0);
    s := ThreadSwitches(threads, s, 0);
    assert h == h[..k] + [h[k]] + h[k + 1..];
  }

  /**
    Thread 0 serves `h[k]` in its turn up to its measurement and is held there until thread 1 has
    served all the later commands; then it tells the manager what it measured.
   */
  lemma HeldAtSwitch(threads: nat, h: seq<Command>, k: nat) returns (s: System)
    requires threads >= 2 && k < |h|
    ensures ReachableWith(s, threads) && Quiescent(s) && s.taken == h
    ensures forall c :: TopicsOf(s.topics, c) == EditAll([], h, c)
    ensures h[k].channel in s.monitored <==> EditAll([], h[..k + 1], h[k].channel) != []
  {
    hide ReachableWith, Edit, TopicsOf;
    var cmd := h[k];
    var s0 := ServedFromStart(threads, h[..k]);
    var s1 := ReachStep(threads, s0, Take(0, cmd));
    s := ThreadEdits(threads, s1, 0);
    forall c ensures TopicsOf(s.topics, c) == EditAll([], h[..k + 1], c) {
      TurnAppended(s0.topics, s.topics, h[..k], cmd, c);
      assert h[..k] + [cmd] == h[..k + 1];
    }
    var s2 := ThreadServesAll(threads, s, 1, h[k + 1..]);
    forall c ensures TopicsOf(s2.topics, c) == EditAll([], h, c) {
      EditAllAppend([], h[..k + 1], h[k + 1..], c);
      assert h[..k + 1] + h[k + 1..] == h;
    }
    s := ThreadSwitches(threads, s2, 0);
    assert h == h[..k] + [cmd] + h[k + 1..];
  }

  lemma TurnAppended(m: TopicMap, m': TopicMap, before: seq<Command>, cmd: Command, c: Name)
    requires TopicsOf(m, c) == EditAll([], before, c) && Edited(m, m', cmd)
    ensures TopicsOf(m', c) == EditAll([], before + [cmd], c)
  {
    hide Edit, TopicsOf;
    EditAllAppend([], before, [cmd], c);
    EditAllOne(EditAll([], before, c), cmd, c);
  }

  lemma EditAllOne(v: seq<Name>, cmd: Command, c: Name)
    ensures EditAll(v, [cmd], c) == if cmd.channel == c then Edit(v, cmd.topic, cmd.activate) else v
  {
    hide Edit;
    assert [cmd][1..] == [];
  }

  /** Serving one at a time is what `Replay` says. */
  lemma {:induction false} EditAllIsReplay(h: seq<Command>, c: Name)
    ensures EditAll([], h, c) == TopicsOf(Replay(h).topics, c)
  {
    hide Edit, Serve;
    if h != [] {
      var before, last := h[..|h| - 1], h[|h| - 1];
      EditAllIsReplay(before, c);
      EditAllAppend([], before, [last], c);
      EditAllOne(EditAll([], before, c), last, c);
      ServeEffect(Replay(before), last, c);
      assert before + [last] == h;
    }
  }
}
