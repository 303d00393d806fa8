/** From drained monitor events to published messages, over whole histories of commands and batches. */
module Routing {
  import opened Sequences
  import opened Subscriptions

  datatype Kind = Fail | Cancel | Disconnect | Data

  datatype Event = Event(kind: Kind, channel: Name, value: string)

  /** A message published on `topic` with distribution key `key`. */
  datatype Message = Message(key: Name, topic: Name, value: string)

  /** The messages one Data event causes: one for each topic of its channel, in vector order. */
  function Copies(e: Event, topics: seq<Name>): (r: seq<Message>)
    ensures |r| == |topics|
    ensures forall i :: 0 <= i < |r| ==> r[i] == Message(e.channel, topics[i], e.value)
  {
    if topics == [] then [] else [Message(e.channel, topics[0], e.value)] + Copies(e, topics[1..])
  }

  function Targets(m: TopicMap, e: Event): seq<Name> {
    if e.kind.Data? then TopicsOf(m, e.channel) else []
  }

  /** The messages a batch causes under one topic map. */
  function Route(m: TopicMap, batch: seq<Event>): seq<Message> {
    if batch == [] then [] else Copies(batch[0], Targets(m, batch[0])) + Route(m, batch[1..])
  }

  lemma {:induction false} RouteAgrees(m: TopicMap, m': TopicMap, batch: seq<Event>)
    requires forall c :: TopicsOf(m, c) == TopicsOf(m', c)
    ensures Route(m, batch) == Route(m', batch)
  {
    if batch != [] {
      RouteAgrees(m, m', batch[1..]);
    }
  }

  lemma {:induction false} RouteAppend(m: TopicMap, a: seq<Event>, b: seq<Event>)
    ensures Route(m, a + b) == Route(m, a) + Route(m, b)
  {
    if a == [] {
      assert a + b == b;
    } else {
      assert (a + b)[1..] == a[1..] + b;
      RouteAppend(m, a[1..], b);
    }
  }

  /** A command that took effect, or a batch drained from a channel and handed to the acquire worker. */
  datatype Entry = Served(command: Command) | Handled(channel: Name, batch: seq<Event>)

  predicate FromChannel(batch: seq<Event>, c: Name) {
    forall i :: 0 <= i < |batch| ==> batch[i].channel == c
  }

  ghost predicate WellFormed(log: seq<Entry>) {
    forall k :: 0 <= k < |log| && log[k].Handled? ==> FromChannel(log[k].batch, log[k].channel)
  }

  function Commands(log: seq<Entry>): seq<Command> {
    if log == [] then []
    else Commands(log[..|log| - 1]) + match log[|log| - 1] case Served(cmd) => [cmd] case Handled(_, _) => []
  }

  /** What one entry publishes: a batch is routed under the topic map of the commands before it. */
  function PublishedBy(before: seq<Entry>, e: Entry): seq<Message> {
    match e
    case Served(_) => []
    case Handled(_, batch) => Route(Replay(Commands(before)).topics, batch)
  }

  function Published(log: seq<Entry>): seq<Message> {
    if log == [] then [] else Published(log[..|log| - 1]) + PublishedBy(log[..|log| - 1], log[|log| - 1])
  }

  /** The values published on `topic` under key `channel`, in order. */
  function Received(messages: seq<Message>, channel: Name, topic: Name): seq<string> {
    if messages == [] then []
    else (if messages[0].key == channel && messages[0].topic == topic then [messages[0].value] else [])
         + Received(messages[1..], channel, topic)
  }

  function DataValues(batch: seq<Event>): seq<string> {
    if batch == [] then [] else (if batch[0].kind.Data? then [batch[0].value] else []) + DataValues(batch[1..])
  }

  /**
    What an entry owes a subscriber of (channel, topic): the Data values of a batch of the channel,
    provided the last command about the pair was an activation.
   */
  function OwedBy(before: seq<Entry>, e: Entry, channel: Name, topic: Name): seq<string> {
    match e
    case Served(_) => []
    case Handled(c, batch) =>
      if c == channel && Active(Commands(before), channel, topic) then DataValues(batch) else []
  }

  function Owed(log: seq<Entry>, channel: Name, topic: Name): seq<string> {
    if log == [] then []
    else Owed(log[..|log| - 1], channel, topic) + OwedBy(log[..|log| - 1], log[|log| - 1], channel, topic)
  }

  lemma {:induction false} ReceivedAppend(a: seq<Message>, b: seq<Message>, c: Name, t: Name)
    ensures Received(a + b, c, t) == Received(a, c, t) + Received(b, c, t)
  {
    if a == [] {
      assert a + b == b;
    } else {
      assert (a + b)[1..] == a[1..] + b;
      ReceivedAppend(a[1..], b, c, t);
    }
  }

  function Times(value: string, n: nat): seq<string> {
    if n == 0 then [] else [value] + Times(value, n - 1)
  }

  /** Each of the values `n` times in a row. */
  function Each(values: seq<string>, n: nat): seq<string> {
    if values == [] then [] else Times(values[0], n) + Each(values[1..], n)
  }

  lemma {:induction false} EachAtMostOnce(values: seq<string>)
    ensures Each(values, 1) == values && Each(values, 0) == []
  {
    if values != [] {
      EachAtMostOnce(values[1..]);
      assert Times(values[0], 1) == [values[0]];
    }
  }

  lemma EachCons(value: string, values: seq<string>, n: nat)
    ensures Each([value] + values, n) == Times(value, n) + Each(values, n)
  {
    assert ([value] + values)[1..] == values;
  }

  lemma ReceivedCons(message: Message, rest: seq<Message>, c: Name, t: Name)
    ensures Received([message] + rest, c, t) ==
            (if message.key == c && message.topic == t then [message.value] else []) + Received(rest, c, t)
  {
    assert ([message] + rest)[1..] == rest;
  }

  lemma {:induction false} ReceivedCopies(e: Event, topics: seq<Name>, c: Name, t: Name)
    ensures Received(Copies(e, topics), c, t) == if e.channel == c then Times(e.value, multiset(topics)[t]) else []
  {
    if topics != [] {
      var rest := topics[1..];
      ReceivedCopies(e, rest, c, t);
      ReceivedCons(Message(e.channel, topics[0], e.value), Copies(e, rest), c, t);
      TopicCounts(topics, t);
      hide Received, Copies;
    }
  }

  lemma TopicCounts(topics: seq<Name>, t: Name)
    requires topics != []
    ensures multiset(topics)[t] == multiset(topics[1..])[t] + if topics[0] == t then 1 else 0
  {
    assert topics == [topics[0]] + topics[1..];
  }

  /** Under any topic map, a subscriber gets each Data value as often as the topic stands in the channel's vector. */
  lemma {:induction false} ReceivedRoute(m: TopicMap, batch: seq<Event>, source: Name, c: Name, t: Name)
    requires FromChannel(batch, source)
    ensures Received(Route(m, batch), c, t) ==
            if source == c then Each(DataValues(batch), multiset(TopicsOf(m, c))[t]) else []
  {
    if batch != [] {
      var first, rest := batch[0], batch[1..];
      assert first.channel == source;
      ReceivedRoute(m, rest, source, c, t);
      ReceivedAppend(Copies(first, Targets(m, first)), Route(m, rest), c, t);
      ReceivedCopies(first, Targets(m, first), c, t);
      if first.kind.Data? {
        assert DataValues(batch) == [first.value] + DataValues(rest);
        EachCons(first.value, DataValues(rest), multiset(TopicsOf(m, c))[t]);
      } else {
        assert Targets(m, first) == [] && Copies(first, []) == [];
        assert DataValues(batch) == DataValues(rest);
      }
    }
  }

  lemma BatchIsExact(h: seq<Command>, source: Name, batch: seq<Event>, c: Name, t: Name)
    requires FromChannel(batch, source)
    ensures Received(Route(Replay(h).topics, batch), c, t) ==
            if source == c && Active(h, c, t) then DataValues(batch) else []
  {
    hide Route, Received, Replay, DataValues;
    ReplayDescribed(h, c);
    ReceivedRoute(Replay(h).topics, batch, source, c, t);
    DistinctMultiplicity(TopicsOf(Replay(h).topics, c), t);
    EachAtMostOnce(DataValues(batch));
  }

  /** Delivery is exact: every owed value once, in order, on the right topic and key, and nothing else. */
  lemma {:induction false} DeliveryIsExact(log: seq<Entry>, c: Name, t: Name)
    requires WellFormed(log)
    ensures Received(Published(log), c, t) == Owed(log, c, t)
  {
    if log != [] {
      var before, last := log[..|log| - 1], log[|log| - 1];
      DeliveryIsExact(before, c, t);
      assert Received(PublishedBy(before, last), c, t) == OwedBy(before, last, c, t) by {
        if last.Handled? {
          BatchIsExact(Commands(before), last.channel, last.batch, c, t);
        }
      }
      ReceivedAppend(Published(before), PublishedBy(before, last), c, t);
    }
  }
}
