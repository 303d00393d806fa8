/**
  The stored table against the live subscriptions: what is live is stored in every interleaving of the
  pool threads, and when the two coincide.
 */
module StoredSubscriptions {
  import opened Sequences
  import opened Subscriptions
  import opened AcquireProtocol
  import opened AcquireRefinement
  import opened AcquireSchedules
  import opened AcquireHazards
  import opened NodeController
  import Repo = ChannelRepository

  /** Some stored triple, of whatever protocol, names the pair. */
  ghost predicate Stored(triples: set<Repo.Triple>, c: Name, t: Name) {
    exists protocol :: Repo.Triple(c, protocol, t) in triples
  }

  ghost predicate Commanded(h: seq<Command>, c: Name, t: Name) {
    exists i :: 0 <= i < |h| && About(h[i], c, t)
  }

  /** Every live topic, and every topic a thread is about to add, was asked for by a command taken up. */
  ghost predicate AskedFor(s: System) {
    && (forall c, t :: t in TopicsOf(s.topics, c) ==> Commanded(s.taken, c, t))
    && JobsTaken(s)
  }

  lemma EditAtTopics(v: seq<Name>, topic: Name, at: Option<nat>)
    ensures forall t :: t in EditAt(v, topic, at) ==> t in v || t == topic
  {
  }

  lemma TakenIsCommanded(h: seq<Command>, cmd: Command)
    requires cmd in h
    ensures Commanded(h, cmd.channel, cmd.topic)
  {
    var i :| 0 <= i < |h| && h[i] == cmd;
    assert About(h[i], cmd.channel, cmd.topic);
  }

  lemma CommandedGrows(h: seq<Command>, h': seq<Command>, c: Name, t: Name)
    requires h <= h' && Commanded(h, c, t)
    ensures Commanded(h', c, t)
  {
    var i :| 0 <= i < |h| && About(h[i], c, t);
    assert About(h'[i], c, t);
  }

  lemma AskedForKept(s: System, a: Action)
    requires AskedFor(s) && Enabled(s, a)
    ensures AskedFor(Apply(s, a))
  {
    hide Find, EditAt, Commanded;
    var s' := Apply(s, a);
    JobsTakenKept(s, a);
    if a.JobStep? && s.jobs[a.index].Editing? {
      var job := s.jobs[a.index];
      EditAtTopics(TopicsOf(s.topics, job.command.channel), job.command.topic, job.at);
      TakenIsCommanded(s.taken, job.command);
    }
    forall c, t | t in TopicsOf(s'.topics, c) ensures Commanded(s'.taken, c, t) {
      CommandedGrows(s.taken, s'.taken, c, t);
    }
  }

  lemma {:induction false} AskedForRun(s: System, actions: seq<Action>)
    requires AskedFor(s) && Legal(s, actions)
    ensures AskedFor(Exec(s, actions))
    decreases |actions|
  {
    hide AskedFor;
    if actions != [] {
      AskedForKept(s, actions[0]);
      AskedForRun(Apply(s, actions[0]), actions[1..]);
    }
  }

  /**
    In every state of every interleaving of the pool threads, each live (channel, topic) pair has a
    stored row, provided the threads only take up commands that were submitted.
   */
  lemma LiveIsStored(threads: nat, actions: seq<Action>, initial: set<Repo.Triple>, dispatched: seq<Command>,
      c: Name, t: Name)
    requires Legal(Initial(threads), actions)
    requires forall cmd :: cmd in Exec(Initial(threads), actions).taken ==> cmd in dispatched
    requires t in TopicsOf(Exec(Initial(threads), actions).topics, c)
    ensures Stored(initial + TriplesOf(dispatched), c, t)
  {
    hide Exec, Legal, Commanded, Stored;
    AskedForRun(Initial(threads), actions);
    CommandedAmong(Exec(Initial(threads), actions).taken, dispatched, c, t);
    StoredWhenCommanded(initial, dispatched, c, t);
  }

  lemma CommandedAmong(h: seq<Command>, h': seq<Command>, c: Name, t: Name)
    requires (forall cmd :: cmd in h ==> cmd in h') && Commanded(h, c, t)
    ensures Commanded(h', c, t)
  {
    var i :| 0 <= i < |h| && About(h[i], c, t);
    TakenIsCommanded(h', h[i]);
  }

  lemma StoredInitially(initial: set<Repo.Triple>, triple: Repo.Triple)
    requires triple in initial
    ensures Stored(initial, triple.name, triple.destination)
  {
    assert Repo.Triple(triple.name, triple.protocol, triple.destination) in initial;
  }

  lemma WitnessOfInactive(initial: set<Repo.Triple>, h: seq<Command>, c: Name, t: Name)
    requires (Stored(initial, c, t) || Commanded(h, c, t)) && !Active(h, c, t)
    ensures (exists i :: 0 <= i < |h| && !Active(h, h[i].channel, h[i].topic))
         || (exists triple :: triple in initial && !Active(h, triple.name, triple.destination))
  {
    if Commanded(h, c, t) {
      var i :| 0 <= i < |h| && About(h[i], c, t);
      assert !Active(h, h[i].channel, h[i].topic);
    } else {
      var protocol :| Repo.Triple(c, protocol, t) in initial;
      var triple := Repo.Triple(c, protocol, t);
      assert triple in initial && !Active(h, triple.name, triple.destination);
    }
  }

  lemma StoredWhenCommanded(initial: set<Repo.Triple>, h: seq<Command>, c: Name, t: Name)
    ensures Stored(initial + TriplesOf(h), c, t) <==> Stored(initial, c, t) || Commanded(h, c, t)
  {
    if Stored(initial + TriplesOf(h), c, t) {
      var protocol :| Repo.Triple(c, protocol, t) in initial + TriplesOf(h);
      if Repo.Triple(c, protocol, t) !in initial {
        var i :| 0 <= i < |h| && TripleOf(h[i]) == Repo.Triple(c, protocol, t);
        assert About(h[i], c, t);
      }
    }
    if Stored(initial, c, t) {
      var protocol :| Repo.Triple(c, protocol, t) in initial;
      assert Repo.Triple(c, protocol, t) in initial + TriplesOf(h);
    }
    if i :| 0 <= i < |h| && About(h[i], c, t) {
      assert TripleOf(h[i]) in TriplesOf(h);
      assert Repo.Triple(c, h[i].protocol, t) in initial + TriplesOf(h);
    }
  }

  lemma {:induction false} ActiveWasCommanded(h: seq<Command>, c: Name, t: Name)
    requires Active(h, c, t)
    ensures Commanded(h, c, t)
  {
    var n := |h| - 1;
    if !About(h[n], c, t) {
      ActiveWasCommanded(h[..n], c, t);
      CommandedGrows(h[..n], h, c, t);
    }
  }

  /** What is stored is exactly what is live. */
  ghost predicate StoredIsLive(initial: set<Repo.Triple>, s: System) {
    forall c, t :: Stored(initial + TriplesOf(s.taken), c, t) <==> t in TopicsOf(s.topics, c)
  }

  /**
    If commands of one channel do not overlap, the stored configuration is the live one exactly when
    the last command about every pair ever commanded is an activation, and every pair stored before
    the node started has been activated since: a deactivated pair stays stored, and nothing replays
    the stored pairs at the start.
   */
  lemma StoredIsLiveWithoutOverlap(initial: set<Repo.Triple>, s: System)
    requires Reached(s) && Quiescent(s)
    ensures var h := s.taken;
      StoredIsLive(initial, s) <==>
      && (forall i :: 0 <= i < |h| ==> Active(h, h[i].channel, h[i].topic))
      && (forall triple :: triple in initial ==> Active(h, triple.name, triple.destination))
  {
    hide Replay, Stored, Active, Reached, Commanded, About, TriplesOf;
    var h := s.taken;
    forall c, t ensures t in TopicsOf(s.topics, c) <==> Active(h, c, t) {
      MapsAgreeAtRest(s, c);
    }
    forall c, t ensures Stored(initial + TriplesOf(h), c, t) <==> Stored(initial, c, t) || Commanded(h, c, t) {
      StoredWhenCommanded(initial, h, c, t);
    }
    forall c, t ensures Active(h, c, t) ==> Commanded(h, c, t) {
      if Active(h, c, t) { ActiveWasCommanded(h, c, t); }
    }
    if forall c, t :: Stored(initial, c, t) || Commanded(h, c, t) ==> Active(h, c, t) {
      forall i | 0 <= i < |h| ensures Active(h, h[i].channel, h[i].topic) {
        TakenIsCommanded(h, h[i]);
      }
      forall triple | triple in initial ensures Active(h, triple.name, triple.destination) {
        StoredInitially(initial, triple);
      }
    } else {
      var c, t :| (Stored(initial, c, t) || Commanded(h, c, t)) && !Active(h, c, t);
      WitnessOfInactive(initial, h, c, t);
    }
  }

  // With overlapping commands.

  predicate AllActivate(h: seq<Command>) {
    forall i :: 0 <= i < |h| ==> h[i].activate
  }

  /** The thread has taken up this command and not yet put its topic into the vector. */
  predicate Owes(job: Job, cmd: Command) {
    (job.Looking? || job.WantMap? || job.Editing?) && job.command == cmd
  }

  ghost predicate Accounted(s: System, cmd: Command) {
    cmd.topic in TopicsOf(s.topics, cmd.channel) || exists i :: 0 <= i < |s.jobs| && Owes(s.jobs[i], cmd)
  }

  /** While only activations are served, every command taken up is in its vector or owed to it. */
  ghost predicate Growing(s: System) {
    && (forall cmd :: cmd in s.taken ==> Accounted(s, cmd))
    && (forall i :: 0 <= i < |s.jobs| && !s.jobs[i].Vacant? ==>
          s.jobs[i].command.activate && (s.jobs[i].WantMap? || s.jobs[i].Editing? ==> s.jobs[i].at.None?))
  }

  lemma GrowingKeptByJob(s: System, i: nat)
    requires Growing(s) && Enabled(s, JobStep(i))
    ensures Growing(StepJob(s, i))
  {
    hide Accounted;
    GrowingVector(s, i);
    forall cmd | cmd in s.taken ensures Accounted(StepJob(s, i), cmd) {
      AccountedKept(s, i, cmd);
    }
  }

  lemma GrowingVector(s: System, i: nat)
    requires Growing(s) && Enabled(s, JobStep(i))
    ensures forall c, t :: t in TopicsOf(s.topics, c) ==> t in TopicsOf(StepJob(s, i).topics, c)
    ensures forall cmd :: Owes(s.jobs[i], cmd) ==>
              Owes(StepJob(s, i).jobs[i], cmd) || cmd.topic in TopicsOf(StepJob(s, i).topics, cmd.channel)
  {
    hide Accounted;
  }

  lemma AccountedKept(s: System, i: nat, cmd: Command)
    requires Growing(s) && Enabled(s, JobStep(i)) && cmd in s.taken
    ensures Accounted(StepJob(s, i), cmd)
  {
    hide Find, NextJob, NextTopics, TopicsOf, Owes;
    GrowingVector(s, i);
    var s' := StepJob(s, i);
    assert Accounted(s, cmd);
    if k :| 0 <= k < |s.jobs| && Owes(s.jobs[k], cmd) {
      assert k != i ==> Owes(s'.jobs[k], cmd);
    }
  }

  lemma GrowingKeptByTake(s: System, i: nat, cmd: Command)
    requires Growing(s) && Enabled(s, Take(i, cmd)) && cmd.activate
    ensures Growing(Apply(s, Take(i, cmd)))
  {
    var s' := Apply(s, Take(i, cmd));
    assert Owes(s'.jobs[i], cmd);
    forall c | c in s.taken ensures Accounted(s', c) {
      assert Accounted(s, c);
      if k :| 0 <= k < |s.jobs| && Owes(s.jobs[k], c) {
        assert Owes(s'.jobs[k], c);
      }
    }
  }

  lemma GrowingKept(s: System, a: Action)
    requires Growing(s) && Enabled(s, a) && (a.Take? ==> a.command.activate)
    ensures Growing(Apply(s, a))
  {
    hide Find;
    match a
    case Take(i, cmd) => GrowingKeptByTake(s, i, cmd);
    case JobStep(i) => GrowingKeptByJob(s, i);
    case _ =>
      SchedulerLogsNoCommand(s, a);
      forall cmd | cmd in s.taken ensures Accounted(Apply(s, a), cmd) {
        assert Accounted(s, cmd);
      }
  }

  lemma {:induction false} GrowingRun(s: System, actions: seq<Action>)
    requires Growing(s) && JobsTaken(s) && Legal(s, actions) && AllActivate(Exec(s, actions).taken)
    ensures Growing(Exec(s, actions))
    decreases |actions|
  {
    hide Growing;
    if actions != [] {
      var s' := Apply(s, actions[0]);
      JobsTakenKept(s, actions[0]);
      TakenGrows(s', actions[1..]);
      assert actions[0].Take? ==> Exec(s, actions).taken[|s.taken|] == actions[0].command;
      GrowingKept(s, actions[0]);
      GrowingRun(s', actions[1..]);
    }
  }

  /** Served only activations, the gateway has exactly the commanded pairs live, however they overlapped. */
  lemma ActivationsAreLive(s: System, threads: nat, h: seq<Command>, c: Name, t: Name)
    requires Serves(s, threads, h) && AllActivate(h)
    ensures t in TopicsOf(s.topics, c) <==> Commanded(h, c, t)
  {
    hide Exec, Legal;
    var actions :| ReachedBy(s, threads, actions);
    AskedForRun(Initial(threads), actions);
    GrowingRun(Initial(threads), actions);
    if Commanded(h, c, t) {
      var i :| 0 <= i < |h| && About(h[i], c, t);
      assert Accounted(s, h[i]);
    }
  }

  /** With two or more threads, any deactivated pair can end stored and not live, even if activated later. */
  lemma DeactivatedStaysStored(threads: nat, initial: set<Repo.Triple>, h: seq<Command>, i: nat) returns (s: System)
    requires threads >= 2 && i < |h| && !h[i].activate
    ensures Serves(s, threads, h)
    ensures Stored(initial + TriplesOf(s.taken), h[i].channel, h[i].topic)
    ensures h[i].topic !in TopicsOf(s.topics, h[i].channel)
  {
    hide ReachableWith, Edit, EditAll, Stored, TopicsOf;
    var others := h[..i] + h[i + 1..];
    s := HeldAtSearch(threads, h, i);
    EditAllDistinct([], others, h[i].channel);
    EditKeepsDistinct(EditAll([], others, h[i].channel), h[i].topic, false);
    TakenIsCommanded(h, h[i]);
    StoredWhenCommanded(initial, h, h[i].channel, h[i].topic);
  }

  /** A pair stored before the start is not live until a command names it, in any interleaving. */
  lemma RestartLosesSubscriptions(s: System, threads: nat, initial: set<Repo.Triple>, triple: Repo.Triple)
    requires ReachableWith(s, threads)
    requires triple in initial && !Commanded(s.taken, triple.name, triple.destination)
    ensures Stored(initial + TriplesOf(s.taken), triple.name, triple.destination)
    ensures triple.destination !in TopicsOf(s.topics, triple.name)
  {
    hide Exec, Legal, Commanded, Stored;
    var actions :| ReachedBy(s, threads, actions);
    AskedForRun(Initial(threads), actions);
    StoredInitially(initial, triple);
    StoredWhenCommanded(initial, s.taken, triple.name, triple.destination);
  }

  /** Every pair stored before the start is named by some command. */
  ghost predicate Renewed(initial: set<Repo.Triple>, h: seq<Command>) {
    forall triple :: triple in initial ==> Commanded(h, triple.name, triple.destination)
  }

  /**
    With two or more pool threads, every way of serving `h` ends with the stored configuration equal to
    the live one if and only if `h` deactivates nothing and names every pair stored before the start.
   */
  lemma StoredIsLiveExactlyWhen(threads: nat, initial: set<Repo.Triple>, h: seq<Command>)
    requires threads >= 2
    ensures (forall s :: Serves(s, threads, h) ==> StoredIsLive(initial, s)) <==>
            AllActivate(h) && Renewed(initial, h)
  {
    hide Serves, StoredIsLive, Renewed, AllActivate;
    if AllActivate(h) && Renewed(initial, h) {
      forall s | Serves(s, threads, h) ensures StoredIsLive(initial, s) {
        RenewedIsLive(s, threads, initial, h);
      }
    } else {
      var s := NotRenewedRun(threads, initial, h);
      assert Serves(s, threads, h) && !StoredIsLive(initial, s);
    }
  }

  lemma RenewedIsLive(s: System, threads: nat, initial: set<Repo.Triple>, h: seq<Command>)
    requires Serves(s, threads, h) && AllActivate(h) && Renewed(initial, h)
    ensures StoredIsLive(initial, s)
  {
    hide ReachableWith, Commanded, TriplesOf;
    forall c, t ensures Stored(initial + TriplesOf(h), c, t) <==> t in TopicsOf(s.topics, c) {
      ActivationsAreLive(s, threads, h, c, t);
      StoredWhenCommanded(initial, h, c, t);
      if Stored(initial, c, t) {
        var protocol :| Repo.Triple(c, protocol, t) in initial;
        assert Commanded(h, Repo.Triple(c, protocol, t).name, Repo.Triple(c, protocol, t).destination);
      }
    }
  }

  lemma NotRenewedRun(threads: nat, initial: set<Repo.Triple>, h: seq<Command>) returns (s: System)
    requires threads >= 2 && !(AllActivate(h) && Renewed(initial, h))
    ensures Serves(s, threads, h) && !StoredIsLive(initial, s)
  {
    hide ReachableWith, Commanded, Stored, TriplesOf, TopicsOf;
    if !AllActivate(h) {
      var i :| 0 <= i < |h| && !h[i].activate;
      s := DeactivatedStaysStored(threads, initial, h, i);
    } else {
      var triple :| triple in initial && !Commanded(h, triple.name, triple.destination);
      s := ServedFromStart(threads, h);
      RestartLosesSubscriptions(s, threads, initial, triple);
    }
  }
}
