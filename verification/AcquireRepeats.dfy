/**
  Which commands can put a topic twice into a vector, when several pool threads search it before any
  of them edits it.
 */
module AcquireRepeats {
  import opened Sequences
  import opened Subscriptions
  import opened Routing
  import opened AcquireProtocol
  import opened AcquireRefinement
  import opened AcquireSchedules
  import opened AcquireHazards

  /** The first few of the commands `h` have been taken up, in this order. */
  ghost predicate Serving(s: System, threads: nat, h: seq<Command>) {
    ReachableWith(s, threads) && s.taken <= h
  }

  /** Some topic of `c` is activated twice. */
  ghost predicate Repeats(h: seq<Command>, c: Name) {
    exists i, j :: 0 <= i < j < |h| && Activates(h[i], c, h[i].topic) && Activates(h[j], c, h[i].topic)
  }

  /** Topics come from activations that took effect; without a repeated one no topic stands twice. */
  ghost predicate Sourced(s: System, c: Name) {
    var done, v := Commands(s.log), TopicsOf(s.topics, c);
    && (forall t :: t in v ==> Activated(done, c, t))
    && (!Repeats(done, c) ==> NoDuplicates(v))
    && (forall k :: 0 <= k < |s.jobs| && (s.jobs[k].WantMap? || s.jobs[k].Editing?) ==>
          s.jobs[k].at.Some? != s.jobs[k].command.activate)
  }

  lemma SourcesGrow(done: seq<Command>, cmd: Command, c: Name)
    ensures forall t :: Activated(done + [cmd], c, t) <==> Activated(done, c, t) || Activates(cmd, c, t)
    ensures Repeats(done, c) ==> Repeats(done + [cmd], c)
    ensures Activates(cmd, c, cmd.topic) && Activated(done, c, cmd.topic) ==> Repeats(done + [cmd], c)
  {
    var all := done + [cmd];
    assert all[|done|] == cmd;
    forall t ensures Activated(all, c, t) <==> Activated(done, c, t) || Activates(cmd, c, t) {
      if i :| 0 <= i < |done| && Activates(done[i], c, t) {
        assert Activates(all[i], c, t);
      }
    }
    if i, j :| 0 <= i < j < |done| && Activates(done[i], c, done[i].topic) && Activates(done[j], c, done[i].topic) {
      assert Activates(all[i], c, all[i].topic) && Activates(all[j], c, all[i].topic);
    }
    if i :| Activates(cmd, c, cmd.topic) && 0 <= i < |done| && Activates(done[i], c, cmd.topic) {
      assert Activates(all[i], c, all[i].topic) && Activates(all[|done|], c, all[i].topic);
    }
  }

  lemma EditKeepsSources(v: seq<Name>, topic: Name, at: Option<nat>)
    ensures forall t :: t in EditAt(v, topic, at) ==> t in v || (at.None? && t == topic)
    ensures NoDuplicates(v) && (at.None? ==> topic !in v) ==> NoDuplicates(EditAt(v, topic, at))
  {
    if NoDuplicates(v) && at.Some? && at.value < |v| {
      RemoveAt(v, at.value);
    }
  }

  lemma SourcedKeptByJob(s: System, i: nat, c: Name)
    requires Sourced(s, c) && Enabled(s, JobStep(i))
    ensures Sourced(StepJob(s, i), c)
  {
    hide Find, Commands, NoDuplicates, Repeats, Activated;
    var s', job := StepJob(s, i), s.jobs[i];
    var cmd := job.command;
    if TakesEffect(s, job) {
      CommandsAppend(s.log, Served(cmd));
      SourcesGrow(Commands(s.log), cmd, c);
      if job.Editing? && cmd.channel == c {
        EditKeepsSources(TopicsOf(s.topics, c), cmd.topic, job.at);
      }
    }
  }

  lemma SourcedKept(s: System, a: Action, c: Name)
    requires Sourced(s, c) && Enabled(s, a)
    ensures Sourced(Apply(s, a), c)
  {
    hide Find, Commands, NoDuplicates, Repeats, Activated;
    match a
    case JobStep(i) => SourcedKeptByJob(s, i, c);
    case SchedulerStep =>
      if s.scheduler.WantShared? {
        CommandsAppend(s.log, Handled(s.scheduler.channel, s.scheduler.batch));
      }
    case _ =>
  }

  lemma {:induction false} SourcedRun(s: System, actions: seq<Action>, c: Name)
    requires Sourced(s, c) && Legal(s, actions)
    ensures Sourced(Exec(s, actions), c)
    decreases |actions|
  {
    hide Sourced;
    if actions != [] {
      SourcedKept(s, actions[0], c);
      SourcedRun(Apply(s, actions[0]), actions[1..], c);
    }
  }

  /** A repeated activation among fewer commands is one among more. */
  lemma RepeatsWithin(few: seq<Command>, many: seq<Command>, c: Name)
    requires multiset(few) <= multiset(many) && Repeats(few, c)
    ensures Repeats(many, c)
  {
    var i, j :| 0 <= i < j < |few| && Activates(few[i], c, few[i].topic) && Activates(few[j], c, few[i].topic);
    var p, q := TwoPlaces(few, many, i, j);
    if p < q {
      assert Activates(many[p], c, many[p].topic) && Activates(many[q], c, many[p].topic);
    } else {
      assert Activates(many[q], c, many[q].topic) && Activates(many[p], c, many[q].topic);
    }
  }

  lemma Without<T>(h: seq<T>, i: nat)
    requires i < |h|
    ensures multiset(h) == multiset(h[..i] + h[i + 1..]) + multiset{h[i]}
  {
    assert h == h[..i] + [h[i]] + h[i + 1..];
  }

  lemma TwoPlaces(few: seq<Command>, many: seq<Command>, i: nat, j: nat) returns (p: nat, q: nat)
    requires multiset(few) <= multiset(many) && i < j < |few|
    ensures p < |many| && q < |many| && p != q && many[p] == few[i] && many[q] == few[j]
  {
    assert few[i] in multiset(few) && few[j] in multiset(few);
    assert few[i] in multiset(many) && few[j] in multiset(many);
    p :| 0 <= p < |many| && many[p] == few[i];
    var rest := many[..p] + many[p + 1..];
    Without(many, p);
    if few[i] == few[j] {
      RepeatedCounts(few, i, j);
    }
    assert few[j] in multiset(rest);
    var k :| 0 <= k < |rest| && rest[k] == few[j];
    q := if k < p then k else k + 1;
  }

  lemma WithoutRepeatDistinct(s: System, threads: nat, h: seq<Command>, c: Name)
    requires Serving(s, threads, h) && !Repeats(h, c)
    ensures NoDuplicates(TopicsOf(s.topics, c))
  {
    hide Exec, Legal, Commands, Repeats, TakenInv;
    var actions :| ReachedBy(s, threads, actions);
    InitialSourced(threads, c);
    SourcedRun(Initial(threads), actions, c);
    InitialTaken(threads);
    TakenRun(Initial(threads), actions);
    EffectsWithinTaken(s);
    assert h == s.taken + h[|s.taken|..];
    if Repeats(Commands(s.log), c) {
      RepeatsWithin(Commands(s.log), h, c);
    }
  }

  lemma EffectsWithinTaken(s: System)
    requires TakenInv(s)
    ensures multiset(Commands(s.log)) <= multiset(s.taken)
  {
  }

  lemma InitialSourced(threads: nat, c: Name)
    ensures Sourced(Initial(threads), c)
  {
  }

  /** The first command from `from` on that activates the pair. */
  lemma FirstActivation(h: seq<Command>, c: Name, t: Name, from: nat, upTo: nat) returns (i: nat)
    requires from <= upTo < |h| && Activates(h[upTo], c, t)
    ensures from <= i <= upTo && Activates(h[i], c, t)
    ensures forall k :: from <= k < i ==> !Activates(h[k], c, t)
  {
    i := from;
    while !Activates(h[i], c, t)
      invariant from <= i <= upTo
      invariant forall k :: from <= k < i ==> !Activates(h[k], c, t)
      decreases upTo - i
    {
      i := i + 1;
    }
  }

  /**
    Thread 0 takes up the first activation in its turn and is held after its search; thread 1 serves
    the following commands up to and including the next activation of the same topic; then thread 0
    adds the topic again.
   */
  lemma RepeatRun(threads: nat, h: seq<Command>, c: Name) returns (s: System)
    requires threads >= 2 && Repeats(h, c)
    ensures Serving(s, threads, h) && !NoDuplicates(TopicsOf(s.topics, c))
  {
    hide ReachableWith, Edit, EditAll, TopicsOf;
    var p, q :| 0 <= p < q < |h| && Activates(h[p], c, h[p].topic) && Activates(h[q], c, h[p].topic);
    var t := h[p].topic;
    var i := FirstActivation(h, c, t, 0, p);
    var j := FirstActivation(h, c, t, i + 1, q);
    s := HeldWhileServed(threads, h, i, j);
    s := AddedAgain(threads, s, h[i]);
    assert h[..j + 1] <= h;
  }

  /** Thread 0 is held after its search for `h[i]`; thread 1 has served the rest up to the next activation `h[j]`. */
  lemma HeldWhileServed(threads: nat, h: seq<Command>, i: nat, j: nat) returns (s: System)
    requires threads >= 2 && i < j < |h| && h[i].activate && h[j].activate
    requires h[j].channel == h[i].channel && h[j].topic == h[i].topic
    requires forall k :: 0 <= k < j && k != i ==> !Activates(h[k], h[i].channel, h[i].topic)
    ensures ReachableWith(s, threads) && Calm(s) && s.taken == h[..j + 1]
    ensures |s.jobs| > 0 && s.jobs[0] == WantMap(h[i], None)
    ensures h[i].topic in TopicsOf(s.topics, h[i].channel)
  {
    hide ReachableWith, Edit, EditAll, TopicsOf;
    var c, t := h[i].channel, h[i].topic;
    s := HeldAfterSearch(threads, h, i);
    var between := ThreadServesAll(threads, s, 1, h[i + 1..j]);
    EditAllDistinct([], h[..i], c);
    EditAllDistinct(EditAll([], h[..i], c), h[i + 1..j], c);
    s := ThreadServes(threads, between, 1, h[j]);
    EditKeepsDistinct(TopicsOf(between.topics, c), t, true);
    assert h[..j + 1] == h[..i + 1] + h[i + 1..j] + [h[j]];
  }

  lemma AbsentUntil(h: seq<Command>, i: nat, c: Name, t: Name)
    requires i <= |h| && forall k :: 0 <= k < i ==> !Activates(h[k], c, t)
    ensures t !in EditAll([], h[..i], c)
  {
    EditAllWithout([], h[..i], c, t);
  }

  /** Thread 0 has taken up `h[i]`, an activation of an absent topic, and searched; thread 1 has served all before. */
  lemma HeldAfterSearch(threads: nat, h: seq<Command>, i: nat) returns (s: System)
    requires threads >= 2 && i < |h| && h[i].activate
    requires forall k :: 0 <= k < i ==> !Activates(h[k], h[i].channel, h[i].topic)
    ensures ReachableWith(s, threads) && Calm(s) && s.taken == h[..i + 1] && |s.jobs| == threads
    ensures s.jobs[0] == WantMap(h[i], None) && s.jobs[1].Vacant?
    ensures TopicsOf(s.topics, h[i].channel) == EditAll([], h[..i], h[i].channel)
  {
    hide ReachableWith, EditAll;
    s := ServedFromStart(threads, h[..i]);
    AbsentUntil(h, i, h[i].channel, h[i].topic);
    s := ReachStep(threads, s, Take(0, h[i]));
    s := ReachStep(threads, s, JobStep(0));
    assert h[..i] + [h[i]] == h[..i + 1];
  }

  lemma AddedAgain(threads: nat, s: System, cmd: Command) returns (s': System)
    requires ReachableWith(s, threads) && Calm(s) && |s.jobs| > 0 && s.jobs[0] == WantMap(cmd, None)
    requires cmd.topic in TopicsOf(s.topics, cmd.channel)
    ensures ReachableWith(s', threads) && s'.taken == s.taken
    ensures !NoDuplicates(TopicsOf(s'.topics, cmd.channel))
  {
    hide ReachableWith, Find;
    s' := ReachStep(threads, s, JobStep(0));
    s' := ReachStep(threads, s', JobStep(0));
    var v, v' := TopicsOf(s.topics, cmd.channel), TopicsOf(s'.topics, cmd.channel);
    assert v' == v + [cmd.topic];
    var k :| 0 <= k < |v| && v[k] == cmd.topic;
    assert v'[k] == v'[|v|];
  }

  /**
    With two or more pool threads, the vector of `c` stays free of duplicates however `h` is served,
    at every moment, if and only if no topic of `c` is activated twice in `h`.
   */
  lemma DistinctExactlyWhen(threads: nat, h: seq<Command>, c: Name)
    requires threads >= 2
    ensures (forall s :: Serving(s, threads, h) ==> NoDuplicates(TopicsOf(s.topics, c))) <==> !Repeats(h, c)
  {
    hide Serving, NoDuplicates, Repeats;
    if Repeats(h, c) {
      var s := RepeatRun(threads, h, c);
      assert Serving(s, threads, h) && !NoDuplicates(TopicsOf(s.topics, c));
    } else {
      forall s | Serving(s, threads, h) ensures NoDuplicates(TopicsOf(s.topics, c)) {
        WithoutRepeatDistinct(s, threads, h, c);
      }
    }
  }
}
