/** The EPICS side: a channel's subscription queue, and the manager of monitored channels and event handlers. */
module EpicsService {
  import opened Sequences
  import opened Subscriptions
  import opened Routing
  import opened Broadcaster

  /** `fifo` holds the updates the subscription has queued. */
  class EpicsChannel {
    const channelName: Name
    var fifo: seq<string>

    constructor (name: Name)
      ensures channelName == name && fifo == []
    {
      channelName, fifo := name, [];
    }

    /**
      One round of the channel. `wake` is what the wait on the subscription answers: nothing within
      the timeout, or one kind of event. A Data event drains the queue completely.
     */
    method Monitor(wake: Option<Kind>) returns (result: seq<Event>)
      modifies this
      ensures FromChannel(result, channelName)
      ensures wake == Some(Data) ==> fifo == [] && DataValues(result) == old(fifo) && |result| == |old(fifo)|
      ensures wake != Some(Data) ==> fifo == old(fifo) && DataValues(result) == []
      ensures wake.None? ==> result == []
      ensures wake.Some? && !wake.value.Data? ==> |result| == 1 && result[0].kind == wake.value
    {
      result := [];
      match wake
      case None => return;
      case Some(Fail) => result := result + [Event(Fail, channelName, "")];
      case Some(Cancel) => result := result + [Event(Cancel, channelName, "")];
      case Some(Disconnect) => result := result + [Event(Disconnect, channelName, "")];
      case Some(Data) =>
        while fifo != []
          invariant FromChannel(result, channelName)
          invariant DataValues(result) + fifo == old(fifo)
          invariant |result| + |fifo| == |old(fifo)|
          decreases |fifo|
        {
          DataValuesAppend(result, Event(Data, channelName, fifo[0]));
          result := result + [Event(Data, channelName, fifo[0])];
          fifo := fifo[1..];
        }
    }
  }

  lemma {:induction false} DataValuesAppend(batch: seq<Event>, e: Event)
    ensures DataValues(batch + [e]) == DataValues(batch) + if e.kind.Data? then [e.value] else []
  {
    if batch == [] {
      assert batch + [e] == [e];
    } else {
      assert (batch + [e])[1..] == batch[1..] + [e];
      DataValuesAppend(batch[1..], e);
    }
  }

  /** How the creation of a channel ends: the step that throws, if any. */
  datatype Creation = Created | NoProvider | NotConnected | NotMonitored

  datatype Status = Ok | Failed

  class EpicsServiceManager {
    var channelMap: map<Name, EpicsChannel>
    const handlers: Broadcaster

    ghost predicate Valid()
      reads this, handlers
    {
      handlers.Valid() && forall c :: c in channelMap ==> channelMap[c].channelName == c
    }

    constructor ()
      ensures Valid() && channelMap == map[] && fresh(handlers)
    {
      channelMap := map[];
      handlers := new Broadcaster();
    }

    /** A channel that cannot be set up leaves the map as it was. */
    method AddChannel(name: Name, creation: Creation) returns (r: Status)
      requires Valid()
      modifies this`channelMap
      ensures Valid()
      ensures r.Failed? <==> name !in old(channelMap) && creation != Created
      ensures r.Failed? || name in old(channelMap) ==> channelMap == old(channelMap)
      ensures r.Ok? ==> channelMap.Keys == old(channelMap.Keys) + {name}
      ensures forall c :: c in old(channelMap) ==> c in channelMap && channelMap[c] == old(channelMap)[c]
    {
      if name in channelMap {
        return Ok;
      }
      if creation != NoProvider {
        var channel := new EpicsChannel(name);
        channelMap := channelMap[name := channel];
      }
      if creation != Created {
        channelMap := channelMap - {name};
        assert channelMap == old(channelMap);
        return Failed;
      }
      r := Ok;
    }

    method RemoveChannel(name: Name)
      requires Valid()
      modifies this`channelMap
      ensures Valid() && channelMap == old(channelMap) - {name}
    {
      channelMap := channelMap - {name};
    }

    method MonitorChannel(name: Name, activate: bool, creation: Creation) returns (r: Status)
      requires Valid()
      modifies this`channelMap
      ensures Valid()
      ensures r.Failed? <==> activate && name !in old(channelMap) && creation != Created
      ensures r.Ok? ==> channelMap.Keys == Switch(old(channelMap.Keys), name, activate)
      ensures r.Failed? ==> channelMap == old(channelMap)
    {
      if activate {
        r := AddChannel(name, creation);
      } else {
        RemoveChannel(name);
        r := Ok;
      }
    }

    /** The new handler is called by every later broadcast while its token is held. */
    method AddHandler(h: Handler)
      requires Valid() && h !in handlers.registered
      modifies handlers
      ensures Valid()
      ensures handlers.registered == old(handlers.registered) + [h]
      ensures handlers.live == old(handlers.live) + {h} && handlers.calls == old(handlers.calls)
    {
      handlers.RegisterHandler(h);
    }

    /** The number of handlers is the number of registrations whose token is still held. */
    method GetHandlerSize(alive: set<Handler>) returns (n: nat)
      requires Valid() && alive == handlers.live
      modifies handlers`targets
      ensures Valid() && n == |Filter(handlers.registered, handlers.live)|
    {
      handlers.Purge(alive);
      n := |handlers.targets|;
    }

    /**
      One channel's turn in the scheduler. A non-empty batch reaches every handler alive at its turn;
      skipping the broadcast when the handler list is empty makes no difference.
     */
    method ProcessIterator(channel: EpicsChannel, wake: Option<Kind>, alive: set<Handler>, effects: Effects)
      returns (batch: seq<Event>)
      requires Valid() && alive == handlers.live
      modifies channel, handlers
      ensures Valid() && FromChannel(batch, channel.channelName)
      ensures handlers.registered == old(handlers.registered)
      ensures handlers.calls == old(handlers.calls) +
        if batch == [] then [] else Calls(handlers.registered, old(handlers.live), effects)
    {
      batch := channel.Monitor(wake);
      if batch == [] || handlers.targets == [] {
        NoTargetsNoCalls(handlers.targets, handlers.registered, handlers.live, effects);
        return;
      }
      handlers.Broadcast(alive, effects);
    }
  }

  lemma NoTargetsNoCalls(targets: seq<Handler>, registered: seq<Handler>, live: set<Handler>, effects: Effects)
    requires Filter(targets, live) == Filter(registered, live)
    ensures targets == [] ==> Calls(registered, live, effects) == []
  {
    PassIgnoresDead(registered, live, live, effects);
  }
}
