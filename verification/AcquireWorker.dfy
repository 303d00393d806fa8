/** The worker that serves acquire commands and publishes the monitored values. */
module AcquireWorker {
  import opened Sequences
  import opened Subscriptions
  import opened Routing
  import opened EpicsService

  /**
    `history` is the commands served without error; `published` the messages handed to the
    publisher, in order.
   */
  class AcquireCommandWorker {
    var channelTopicsMap: TopicMap
    const manager: EpicsServiceManager
    var published: seq<Message>
    ghost var history: seq<Command>

    ghost predicate Valid()
      reads this, manager, manager.handlers
    {
      manager.Valid() && Reflects(channelTopicsMap, manager.channelMap.Keys, history)
    }

    constructor (manager: EpicsServiceManager)
      requires manager.Valid() && manager.channelMap == map[]
      ensures Valid() && history == [] && published == [] && this.manager == manager
    {
      this.manager := manager;
      channelTopicsMap, published, history := map[], [], [];
    }

    /**
      Serves one command. If the channel has to be created and cannot be, the topic stays in the
      vector while the channel is not monitored, so the two maps disagree from then on; in every
      other case they agree.
     */
    method AcquireManagement(cmd: Command, creation: Creation) returns (r: Status)
      requires Valid()
      modifies this`channelTopicsMap, this`history, manager`channelMap
      ensures r.Ok? ==> Valid() && history == old(history) + [cmd]
      ensures r.Failed? <==>
        cmd.activate && cmd.channel !in old(manager.channelMap) && creation != Created
      ensures r.Failed? ==>
        cmd.channel !in manager.channelMap && TopicsOf(channelTopicsMap, cmd.channel) == [cmd.topic]
      ensures forall c :: c != cmd.channel ==> TopicsOf(channelTopicsMap, c) == old(TopicsOf(channelTopicsMap, c))
    {
      hide Replay, Edit;
      ReflectsExactly(channelTopicsMap, manager.channelMap.Keys, history, cmd.channel);
      EditFacts(TopicsOf(channelTopicsMap, cmd.channel), cmd);
      EditTopics(cmd);
      var activate := |TopicsOf(channelTopicsMap, cmd.channel)| > 0;
      r := manager.MonitorChannel(cmd.channel, activate, creation);
      if r.Ok? {
        ReflectsServed(old(channelTopicsMap), old(manager.channelMap.Keys), history, cmd,
                       channelTopicsMap, manager.channelMap.Keys);
        history := history + [cmd];
      }
    }

    method EditTopics(cmd: Command)
      modifies this`channelTopicsMap
      ensures TopicsOf(channelTopicsMap, cmd.channel)
          == Edit(old(TopicsOf(channelTopicsMap, cmd.channel)), cmd.topic, cmd.activate)
      ensures forall c :: c != cmd.channel ==> TopicsOf(channelTopicsMap, c) == old(TopicsOf(channelTopicsMap, c))
    {
      var vec := TopicsOf(channelTopicsMap, cmd.channel);
      channelTopicsMap := channelTopicsMap[cmd.channel := vec];
      var at := Find(vec, cmd.topic);
      if cmd.activate {
        if at.None? {
          channelTopicsMap := channelTopicsMap[cmd.channel := vec + [cmd.topic]];
        }
      } else {
        if at.Some? {
          channelTopicsMap := channelTopicsMap[cmd.channel := vec[..at.value] + vec[at.value + 1..]];
        }
      }
    }

    /** Routes a batch under the topic map as it stands; the shared lock keeps it from changing meanwhile. */
    method EpicsMonitorEvent(batch: seq<Event>)
      requires Valid()
      modifies this`published
      ensures Valid()
      ensures published == old(published) + Route(channelTopicsMap, batch)
    {
      hide Replay, Route, Copies;
      RouteNothing(channelTopicsMap);
      for i := 0 to |batch|
        invariant Valid() && published == old(published) + Route(channelTopicsMap, batch[..i])
      {
        RouteNext(channelTopicsMap, batch, i);
        PublishEvent(batch[i]);
      }
      assert batch[..|batch|] == batch;
    }

    method PublishEvent(e: Event)
      modifies this`published
      ensures published == old(published) + Copies(e, Targets(channelTopicsMap, e))
    {
      if !e.kind.Data? {
        return;
      }
      var topics := TopicsOf(channelTopicsMap, e.channel);
      ghost var copies := Copies(e, topics);
      for j := 0 to |topics|
        invariant published == old(published) + copies[..j]
      {
        published := published + [Message(e.channel, topics[j], e.value)];
      }
      assert copies[..|topics|] == copies;
    }
  }

  /** The two maps are those of the commands `h` served one at a time. */
  ghost predicate Reflects(topics: TopicMap, monitored: set<Name>, h: seq<Command>) {
    && Mirrors(topics, h)
    && (forall c :: c in monitored <==> c in Replay(h).monitored)
  }

  /** Hence, by the history alone, which topics every channel has and whether it is monitored. */
  lemma ReflectsExactly(topics: TopicMap, monitored: set<Name>, h: seq<Command>, c: Name)
    requires Reflects(topics, monitored, h)
    ensures Describes(Gateway(topics, monitored), h, c)
  {
    ReplayDescribed(h, c);
  }

  lemma ReflectsServed(topics: TopicMap, monitored: set<Name>, h: seq<Command>, cmd: Command, topics': TopicMap,
      monitored': set<Name>)
    requires Reflects(topics, monitored, h)
    requires TopicsOf(topics', cmd.channel) == Edit(TopicsOf(topics, cmd.channel), cmd.topic, cmd.activate)
    requires forall c :: c != cmd.channel ==> TopicsOf(topics', c) == TopicsOf(topics, c)
    requires monitored' == Switch(monitored, cmd.channel, TopicsOf(topics', cmd.channel) != [])
    ensures Reflects(topics', monitored', h + [cmd])
  {
    MirrorServed(topics, h, cmd, topics');
    ReplayAppend(h, cmd);
    forall c ensures c in monitored' <==> c in Replay(h + [cmd]).monitored {
      ServeEffect(Replay(h), cmd, c);
    }
  }

  lemma RouteNothing(m: TopicMap)
    ensures Route(m, []) == []
  {
  }

  lemma RouteNext(m: TopicMap, batch: seq<Event>, i: nat)
    requires i < |batch|
    ensures Route(m, batch[..i + 1]) == Route(m, batch[..i]) + Copies(batch[i], Targets(m, batch[i]))
  {
    hide Copies;
    RouteAppend(m, batch[..i], [batch[i]]);
    assert batch[..i + 1] == batch[..i] + [batch[i]];
    assert [batch[i]][1..] == [];
  }

  lemma EditFacts(v: seq<Name>, cmd: Command)
    ensures cmd.activate ==> Edit(v, cmd.topic, cmd.activate) != []
    ensures v == [] ==> Edit(v, cmd.topic, cmd.activate) == if cmd.activate then [cmd.topic] else []
  {
  }
}
