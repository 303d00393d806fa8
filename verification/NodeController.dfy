/** Commands entering the node: persisted first, then dispatched to the worker of their type. */
module NodeController {
  import opened Sequences
  import opened Subscriptions
  import Repo = ChannelRepository
  import Config = NodeConfiguration

  /** Only monitor commands carry what the node acts on. */
  datatype Request = Monitor(command: Command) | Get | Put | Info | Unknown

  function TripleOf(cmd: Command): Repo.Triple { Repo.Triple(cmd.channel, cmd.protocol, cmd.topic) }

  function MonitorCommands(requests: seq<Request>): seq<Command> {
    if requests == [] then []
    else
      var before := MonitorCommands(requests[..|requests| - 1]);
      if requests[|requests| - 1].Monitor? then before + [requests[|requests| - 1].command] else before
  }

  /** One entry for each monitor request, in order, whichever way its flag stands; nothing else. */
  lemma {:induction false} MonitorCommandsInOrder(requests: seq<Request>)
    ensures |MonitorCommands(requests)| == MonitorsBefore(requests, |requests|)
    ensures forall i :: 0 <= i < |requests| && requests[i].Monitor? ==>
              && MonitorsBefore(requests, i) < |MonitorCommands(requests)|
              && MonitorCommands(requests)[MonitorsBefore(requests, i)] == requests[i].command
  {
    if requests != [] {
      var n := |requests| - 1;
      MonitorCommandsInOrder(requests[..n]);
      forall i | 0 <= i <= n ensures MonitorsBefore(requests, i) == MonitorsBefore(requests[..n], i) {
        CountsPrefix(requests, n, i);
      }
      assert MonitorsBefore(requests, n + 1) == MonitorsBefore(requests, n) + if requests[n].Monitor? then 1 else 0;
    }
  }

  /** The number of monitor requests among the first `n`. */
  function MonitorsBefore(requests: seq<Request>, n: nat): nat
    requires n <= |requests|
  {
    if n == 0 then 0 else MonitorsBefore(requests, n - 1) + if requests[n - 1].Monitor? then 1 else 0
  }

  lemma {:induction false} CountsPrefix(requests: seq<Request>, n: nat, i: nat)
    requires i <= n <= |requests|
    ensures MonitorsBefore(requests, i) == MonitorsBefore(requests[..n], i)
  {
    if i > 0 {
      CountsPrefix(requests, n, i - 1);
    }
  }

  function TriplesOf(commands: seq<Command>): set<Repo.Triple> {
    set i | 0 <= i < |commands| :: TripleOf(commands[i])
  }

  /**
    `dispatched` is the commands pushed to the pool as tasks of the acquire worker, in order;
    `initial` the triples stored when the node started.
   */
  class NodeController {
    const configuration: Config.NodeConfiguration
    var dispatched: seq<Command>
    ghost const initial: set<Repo.Triple>

    ghost predicate Valid()
      reads this, configuration.repository
    {
      && configuration.repository.Valid()
      && Repo.Triples(configuration.repository.rows) == initial + TriplesOf(dispatched)
    }

    constructor (configuration: Config.NodeConfiguration)
      requires configuration.repository.Valid()
      ensures Valid() && dispatched == [] && this.configuration == configuration
      ensures initial == Repo.Triples(configuration.repository.rows)
    {
      this.configuration, dispatched := configuration, [];
      initial := Repo.Triples(configuration.repository.rows);
    }

    /** Activations and deactivations alike are stored, then dispatched in order; the table only grows. */
    method SubmitCommand(requests: seq<Request>)
      requires Valid()
      modifies this`dispatched, configuration.repository
      ensures Valid()
      ensures dispatched == old(dispatched) + MonitorCommands(requests)
      ensures old(configuration.repository.rows) <= configuration.repository.rows
      ensures |dispatched| == |old(dispatched)| + MonitorsBefore(requests, |requests|)
      ensures forall i :: 0 <= i < |requests| && requests[i].Monitor? ==>
                && MonitorsBefore(requests, i) < MonitorsBefore(requests, |requests|)
                && dispatched[|old(dispatched)| + MonitorsBefore(requests, i)] == requests[i].command
                && TripleOf(requests[i].command) in Repo.Triples(configuration.repository.rows)
    {
      MonitorCommandsInOrder(requests);
      for i := 0 to |requests|
        invariant Valid()
        invariant dispatched == old(dispatched) + MonitorCommands(requests[..i])
        invariant old(configuration.repository.rows) <= configuration.repository.rows
      {
        assert requests[..i + 1][..i] == requests[..i];
        if requests[i].Monitor? {
          Process(requests[i].command);
        }
      }
      assert requests[..|requests|] == requests;
      assert forall k :: 0 <= k < |dispatched| ==> TripleOf(dispatched[k]) in TriplesOf(dispatched);
    }

    method Process(cmd: Command)
      requires Valid()
      modifies this`dispatched, configuration.repository
      ensures Valid()
      ensures dispatched == old(dispatched) + [cmd]
      ensures old(configuration.repository.rows) <= configuration.repository.rows
    {
      if cmd.activate {
        configuration.AddChannelMonitor([TripleOf(cmd)]);
      } else {
        configuration.RemoveChannelMonitor([TripleOf(cmd)]);
      }
      Config.DescribedNext([TripleOf(cmd)], 0);
      assert [TripleOf(cmd)][..1] == [TripleOf(cmd)];
      TriplesOfAppend(dispatched, cmd);
      dispatched := dispatched + [cmd];
    }
  }

  lemma TriplesOfAppend(commands: seq<Command>, cmd: Command)
    ensures TriplesOf(commands + [cmd]) == TriplesOf(commands) + {TripleOf(cmd)}
  {
    var all := commands + [cmd];
    forall x ensures x in TriplesOf(all) <==> x in TriplesOf(commands) || x == TripleOf(cmd) {
      if x in TriplesOf(commands) {
        var i :| 0 <= i < |commands| && x == TripleOf(commands[i]);
        assert all[i] == commands[i];
      }
      assert all[|commands|] == cmd;
    }
  }
}
