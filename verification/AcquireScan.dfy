/** Whole scans of the scheduler: every monitored channel is drained once, and its values are published. */
module AcquireScan {
  import opened Sequences
  import opened Subscriptions
  import opened Routing
  import opened AcquireProtocol
  import opened AcquireRefinement
  import opened AcquireSchedules

  /** The channels that a run drains, in order; a drain that finds nothing counts. */
  function ChannelsDrained(s: System, actions: seq<Action>): seq<Name>
    requires Legal(s, actions)
    decreases |actions|
  {
    if actions == [] then []
    else
      (if actions[0].Drain? then [s.scheduler.rest[0]] else []) +
      ChannelsDrained(Apply(s, actions[0]), actions[1..])
  }

  /** The channels that the scan under way has still to drain. */
  function StillToDrain(s: System): seq<Name> {
    if s.scheduler.Resting? then [] else s.scheduler.rest
  }

  lemma StepDrains(s: System, a: Action)
    requires Enabled(s, a) && !a.BeginScan?
    ensures StillToDrain(s) == (if a.Drain? then [s.scheduler.rest[0]] else []) + StillToDrain(Apply(s, a))
  {
    hide Find, TopicsOf, Targets;
  }

  lemma {:induction false} ScanDrains(s: System, actions: seq<Action>)
    requires Legal(s, actions) && forall a :: a in actions ==> !a.BeginScan?
    ensures ChannelsDrained(s, actions) + StillToDrain(Exec(s, actions)) == StillToDrain(s)
    decreases |actions|
  {
    hide StillToDrain;
    if actions != [] {
      StepDrains(s, actions[0]);
      ScanDrains(Apply(s, actions[0]), actions[1..]);
    }
  }

  /** While a scan is under way nobody changes which channels are monitored. */
  lemma {:induction false} MonitoredFixed(s: System, actions: seq<Action>)
    requires LockInv(s) && !s.scheduler.Resting? && Legal(s, actions)
    requires forall a :: a in actions ==> !a.BeginScan?
    requires !Exec(s, actions).scheduler.Resting?
    ensures Exec(s, actions).monitored == s.monitored
    decreases |actions|
  {
    hide LockInv;
    if actions != [] {
      var s' := Apply(s, actions[0]);
      LocksKept(s, actions[0]);
      MonitoredKept(s, actions[0]);
      if s'.scheduler.Resting? {
        StaysResting(s', actions[1..]);
      } else {
        MonitoredFixed(s', actions[1..]);
      }
    }
  }

  lemma MonitoredKept(s: System, a: Action)
    requires LockInv(s) && !s.scheduler.Resting? && Enabled(s, a)
    ensures Apply(s, a).monitored == s.monitored
  {
    hide Find, TopicsOf, Targets;
  }

  lemma {:induction false} StaysResting(s: System, actions: seq<Action>)
    requires s.scheduler.Resting? && Legal(s, actions) && forall a :: a in actions ==> !a.BeginScan?
    ensures Exec(s, actions).scheduler.Resting?
    decreases |actions|
  {
    if actions != [] {
      StaysResting(Apply(s, actions[0]), actions[1..]);
    }
  }

  lemma ScanRun(s: System, order: seq<Name>, rest: seq<Action>)
    requires Legal(s, [BeginScan(order)] + rest)
    ensures Enabled(s, BeginScan(order)) && Legal(Apply(s, BeginScan(order)), rest)
    ensures var scan := [BeginScan(order)] + rest; var s' := Apply(s, BeginScan(order));
      Exec(s, scan) == Exec(s', rest) && ChannelsDrained(s, scan) == ChannelsDrained(s', rest)
  {
    assert ([BeginScan(order)] + rest)[1..] == rest;
  }

  /** A list as long as a set and covering it has each of its elements once. */
  lemma {:induction false} CoversOnce(order: seq<Name>, channels: set<Name>, c: Name)
    requires |order| == |channels| && (forall x :: x in channels ==> x in order) && c in channels
    ensures multiset(order)[c] == 1
  {
    var i :| 0 <= i < |order| && order[i] == c;
    var others := order[..i] + order[i + 1..];
    assert order == order[..i] + [c] + order[i + 1..];
    assert multiset(order)[c] == multiset(others)[c] + 1;
    forall x | x in channels && x != c ensures x in others {
      var k :| 0 <= k < |order| && order[k] == x;
      assert others[if k < i then k else k - 1] == x;
    }
    if c in others {
      TooFew(others, channels);
      assert false;
    }
  }

  lemma {:induction false} TooFew(list: seq<Name>, channels: set<Name>)
    requires forall x :: x in channels ==> x in list
    ensures |channels| <= |list|
  {
    if list != [] {
      var rest := channels - {list[0]};
      forall x | x in rest ensures x in list[1..] {
        assert x in list;
      }
      TooFew(list[1..], rest);
      assert channels <= rest + {list[0]};
    } else {
      assert channels == {};
    }
  }

  /**
    A scan, from taking the manager's lock to releasing it: the channels drained are exactly those of
    the order it set out with, so every channel monitored when it began is drained once, and no other,
    whatever the pool threads do meanwhile.
   */
  lemma ScanDrainsEveryChannel(s: System, order: seq<Name>, rest: seq<Action>, c: Name)
    requires Legal(s, [BeginScan(order)] + rest) && forall a :: a in rest ==> !a.BeginScan?
    requires Exec(s, [BeginScan(order)] + rest).scheduler.Resting?
    ensures ChannelsDrained(s, [BeginScan(order)] + rest) == order
    ensures multiset(ChannelsDrained(s, [BeginScan(order)] + rest))[c] == if c in s.monitored then 1 else 0
  {
    hide Legal, Exec, ChannelsDrained;
    ScanRun(s, order, rest);
    ScanDrains(Apply(s, BeginScan(order)), rest);
    assert order + [] == order;
    if c in s.monitored {
      CoversOnce(order, s.monitored, c);
    }
  }

  // A value does get through.

  /** From a quiet start: a topic is activated, the channel is scanned and its value is published. */
  lemma ValueGetsThrough(c: Name, protocol: Name, t: Name, value: string) returns (s: System)
    ensures ReachableWith(s, 2) && s.scheduler.Resting?
    ensures s.published == [Message(c, t, value)]
  {
    hide ReachableWith, Edit;
    Fresh(2);
    var cmd := Command(c, protocol, t, true);
    s := ReachStep(2, Initial(2), Take(0, cmd));
    s := ThreadEdits(2, s, 0);
    FirstTopic(t);
    s := ThreadSwitches(2, s, 0);
    assert TopicsOf(s.topics, c) == [t] && s.monitored == {c};
    s := ScanPublishes(s, c, t, value);
  }

  lemma FirstTopic(t: Name)
    ensures Edit([], t, true) == [t]
  {
  }

  lemma ScanPublishes(s: System, c: Name, t: Name, value: string) returns (s': System)
    requires ReachableWith(s, 2) && Calm(s) && s.scheduler.Resting? && s.published == []
    requires TopicsOf(s.topics, c) == [t] && s.monitored == {c}
    ensures ReachableWith(s', 2) && s'.scheduler.Resting? && s'.published == [Message(c, t, value)]
  {
    hide ReachableWith;
    var e := Event(Data, c, value);
    s' := ReachStep(2, s, BeginScan([c]));
    s' := ReachStep(2, s', Drain([e]));
    s' := ReachStep(2, s', SchedulerStep);
    assert s'.scheduler == Forwarding(c, [e], [], 0, 0) && LiveTargets(s', e) == [t];
    s' := ReachStep(2, s', SchedulerStep);
    s' := ReachStep(2, s', SchedulerStep);
    s' := ReachStep(2, s', SchedulerStep);
    s' := ReachStep(2, s', SchedulerStep);
  }
}
