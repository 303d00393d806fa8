/**
  Delivery over every interleaving, overlapping commands included: each batch is routed against the
  one topic map in force when the shared lock was taken for it.
 */
module AcquireDelivery {
  import opened Sequences
  import opened Subscriptions
  import opened Routing
  import opened AcquireProtocol
  import opened AcquireRefinement

  /** A batch, and the topic map at the moment the shared lock was taken for it. */
  datatype Snapshot = Snapshot(topics: TopicMap, channel: Name, batch: seq<Event>)

  function Taken(s: System, a: Action): seq<Snapshot> {
    if a.SchedulerStep? && s.scheduler.WantShared?
    then [Snapshot(s.topics, s.scheduler.channel, s.scheduler.batch)]
    else []
  }

  /** The snapshots of a run, in order. */
  function Snapshots(s: System, actions: seq<Action>): seq<Snapshot>
    requires Legal(s, actions)
    decreases |actions|
  {
    if actions == [] then [] else Taken(s, actions[0]) + Snapshots(Apply(s, actions[0]), actions[1..])
  }

  /** Every batch routed against its snapshot. */
  function RouteEach(snapshots: seq<Snapshot>): seq<Message> {
    if snapshots == [] then []
    else Route(snapshots[0].topics, snapshots[0].batch) + RouteEach(snapshots[1..])
  }

  /** What a subscriber of (channel, topic) gets from one batch. */
  function DeliveredBy(snapshot: Snapshot, c: Name, t: Name): seq<string> {
    if snapshot.channel == c then Each(DataValues(snapshot.batch), multiset(TopicsOf(snapshot.topics, c))[t]) else []
  }

  function Delivered(snapshots: seq<Snapshot>, c: Name, t: Name): seq<string> {
    if snapshots == [] then [] else DeliveredBy(snapshots[0], c, t) + Delivered(snapshots[1..], c, t)
  }

  ghost predicate FromTheirChannels(snapshots: seq<Snapshot>) {
    forall k :: 0 <= k < |snapshots| ==> FromChannel(snapshots[k].batch, snapshots[k].channel)
  }

  // The snapshots are of the drained batches.

  /** A batch and the channel it was drained from. */
  datatype Batch = Batch(channel: Name, events: seq<Event>)

  function DrainedBy(s: System, a: Action): seq<Batch>
    requires Enabled(s, a)
  {
    if a.Drain? && a.batch != [] then [Batch(s.scheduler.rest[0], a.batch)] else []
  }

  /** The non-empty batches that a run drains, in order. */
  function Drained(s: System, actions: seq<Action>): seq<Batch>
    requires Legal(s, actions)
    decreases |actions|
  {
    if actions == [] then [] else DrainedBy(s, actions[0]) + Drained(Apply(s, actions[0]), actions[1..])
  }

  /** The batch that waits for the shared lock. */
  function Waiting(s: System): seq<Batch> {
    if s.scheduler.WantShared? then [Batch(s.scheduler.channel, s.scheduler.batch)] else []
  }

  function BatchesOf(snapshots: seq<Snapshot>): (r: seq<Batch>)
    ensures |r| == |snapshots|
    ensures forall k :: 0 <= k < |r| ==> r[k] == Batch(snapshots[k].channel, snapshots[k].batch)
  {
    if snapshots == [] then [] else [Batch(snapshots[0].channel, snapshots[0].batch)] + BatchesOf(snapshots[1..])
  }

  lemma BatchesAppend(a: seq<Snapshot>, b: seq<Snapshot>)
    ensures BatchesOf(a + b) == BatchesOf(a) + BatchesOf(b)
  {
  }

  lemma StepHandsOver(s: System, a: Action)
    requires Enabled(s, a)
    ensures Waiting(s) + DrainedBy(s, a) == BatchesOf(Taken(s, a)) + Waiting(Apply(s, a))
  {
    hide Find, TopicsOf, Targets;
  }

  /** No drained batch is dropped, repeated or reordered on its way to the worker. */
  lemma {:induction false} DrainedIsRouted(s: System, actions: seq<Action>)
    requires Legal(s, actions)
    ensures Waiting(s) + Drained(s, actions) == BatchesOf(Snapshots(s, actions)) + Waiting(Exec(s, actions))
    decreases |actions|
  {
    hide Waiting, DrainedBy, Taken, BatchesOf;
    if actions == [] {
      NoBatches();
    } else {
      var a, s', rest := actions[0], Apply(s, actions[0]), actions[1..];
      StepHandsOver(s, a);
      DrainedIsRouted(s', rest);
      BatchesAppend(Taken(s, a), Snapshots(s', rest));
      Chain(Waiting(s), DrainedBy(s, a), BatchesOf(Taken(s, a)), Waiting(s'), Drained(s', rest),
            BatchesOf(Snapshots(s', rest)), Waiting(Exec(s', rest)));
    }
  }

  lemma Chain<T>(a: seq<T>, b: seq<T>, c: seq<T>, mid: seq<T>, d: seq<T>, e: seq<T>, f: seq<T>)
    requires a + b == c + mid && mid + d == e + f
    ensures a + (b + d) == c + e + f
  {
    assert a + (b + d) == (a + b) + d == c + (mid + d);
  }

  lemma NoBatches()
    ensures BatchesOf([]) == []
  {
  }

  // Routing.

  lemma {:induction false} RouteEachAppend(a: seq<Snapshot>, b: seq<Snapshot>)
    ensures RouteEach(a + b) == RouteEach(a) + RouteEach(b)
  {
    if a == [] {
      assert a + b == b;
    } else {
      assert (a + b)[1..] == a[1..] + b;
      RouteEachAppend(a[1..], b);
    }
  }

  lemma RouteEachOne(snapshot: Snapshot)
    ensures RouteEach([snapshot]) == Route(snapshot.topics, snapshot.batch)
  {
    assert RouteEach([snapshot][1..]) == [];
  }

  /** Taking the shared lock puts the batch's whole routing on the outstanding messages. */
  lemma BatchTaken(s: System)
    requires CursorInv(s) && s.scheduler.WantShared?
    ensures CursorInv(StepScheduler(s))
    ensures Unsent(StepScheduler(s)) == Route(s.topics, s.scheduler.batch)
  {
    var batch := s.scheduler.batch;
    OutstandingStart(s.topics, batch, 0);
    assert batch != [] ==> batch[0..] == batch;
  }

  lemma StepAccounts(s: System, a: Action)
    requires LockInv(s) && CursorInv(s) && Enabled(s, a)
    ensures CursorInv(Apply(s, a)) && FromTheirChannels(Taken(s, a))
    ensures Apply(s, a).published + Unsent(Apply(s, a)) == s.published + Unsent(s) + RouteEach(Taken(s, a))
  {
    hide Outstanding, Targets, Find, Route;
    match a
    case JobStep(i) => CursorKeptByJob(s, i);
    case SchedulerStep =>
      if s.scheduler.WantShared? {
        BatchTaken(s);
        RouteEachOne(Taken(s, a)[0]);
      } else if s.scheduler.Forwarding? {
        CursorAdvances(s);
      }
    case _ =>
  }

  lemma {:induction false} RunAccounts(s: System, actions: seq<Action>)
    requires LockInv(s) && CursorInv(s) && Legal(s, actions)
    ensures CursorInv(Exec(s, actions)) && FromTheirChannels(Snapshots(s, actions))
    ensures Exec(s, actions).published + Unsent(Exec(s, actions))
         == s.published + Unsent(s) + RouteEach(Snapshots(s, actions))
    decreases |actions|
  {
    hide Unsent, CursorInv, Taken, RouteEach, LockInv;
    if actions == [] {
      assert RouteEach([]) == [] by { NothingRouted(); }
    } else {
      var s' := Apply(s, actions[0]);
      StepAccounts(s, actions[0]);
      LocksKept(s, actions[0]);
      RunAccounts(s', actions[1..]);
      RouteEachAppend(Taken(s, actions[0]), Snapshots(s', actions[1..]));
    }
  }

  lemma NothingRouted()
    ensures RouteEach([]) == []
  {
  }

  lemma {:induction false} ReceivedEach(snapshots: seq<Snapshot>, c: Name, t: Name)
    requires FromTheirChannels(snapshots)
    ensures Received(RouteEach(snapshots), c, t) == Delivered(snapshots, c, t)
  {
    hide Route, DataValues, Each;
    if snapshots != [] {
      var first := snapshots[0];
      ReceivedEach(snapshots[1..], c, t);
      ReceivedRoute(first.topics, first.batch, first.channel, c, t);
      ReceivedAppend(Route(first.topics, first.batch), RouteEach(snapshots[1..]), c, t);
    }
  }

  /**
    For every interleaving whatever: when no batch is being forwarded, what has been published is
    every drained batch, but for one still waiting for the lock, routed against one snapshot of the
    topic map, in drain order; and so a subscriber of (channel, topic) has got each Data value of the
    channel as often as the topic stood in the channel's vector at that moment.
   */
  lemma DeliveryOverAnyRun(threads: nat, actions: seq<Action>, c: Name, t: Name)
    requires Legal(Initial(threads), actions) && !Exec(Initial(threads), actions).scheduler.Forwarding?
    ensures var s, snapshots := Exec(Initial(threads), actions), Snapshots(Initial(threads), actions);
      && s.published == RouteEach(snapshots)
      && Drained(Initial(threads), actions) == BatchesOf(snapshots) + Waiting(s)
      && Received(s.published, c, t) == Delivered(snapshots, c, t)
  {
    hide Legal, Exec, Snapshots, RouteEach, Received, Delivered, Drained, BatchesOf;
    DrainedIsRouted(Initial(threads), actions);
    assert [] + Drained(Initial(threads), actions) == Drained(Initial(threads), actions);
    RunAccounts(Initial(threads), actions);
    assert [] + [] + RouteEach(Snapshots(Initial(threads), actions)) == RouteEach(Snapshots(Initial(threads), actions));
    ReceivedEach(Snapshots(Initial(threads), actions), c, t);
  }
}
