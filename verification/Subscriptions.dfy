/**
  The subscription state as a function of the acquire commands served so far: which topics each
  channel feeds, in which order, and which channels are monitored.
 */
module Subscriptions {
  import opened Sequences

  type Name = string

  datatype Command = Command(channel: Name, protocol: Name, topic: Name, activate: bool)

  type TopicMap = map<Name, seq<Name>>

  datatype Gateway = Gateway(topics: TopicMap, monitored: set<Name>)

  const INITIAL := Gateway(map[], {})

  /** The topic vector of a channel; operator[] makes an absent key an empty vector. */
  function TopicsOf(m: TopicMap, c: Name): seq<Name> {
    if c in m then m[c] else []
  }

  /** Position of the first occurrence, as std::find gives it. */
  function Find(s: seq<Name>, x: Name): (r: Option<nat>)
    ensures r.Some? ==> r.value < |s| && s[r.value] == x && x !in s[..r.value]
    ensures r.None? <==> x !in s
  {
    if s == [] then None
    else if s[0] == x then Some(0)
    else match Find(s[1..], x)
         case None => None
         case Some(i) => Some(i + 1)
  }

  /** The topic vector after a command for its channel. */
  function Edit(v: seq<Name>, topic: Name, activate: bool): seq<Name> {
    match Find(v, topic)
    case None => if activate then v + [topic] else v
    case Some(i) => if activate then v else v[..i] + v[i + 1..]
  }

  function Switch(monitored: set<Name>, c: Name, on: bool): set<Name> {
    if on then monitored + {c} else monitored - {c}
  }

  /** One command served start to finish, the channel being created without error. */
  function Serve(g: Gateway, cmd: Command): Gateway {
    var v := Edit(TopicsOf(g.topics, cmd.channel), cmd.topic, cmd.activate);
    Gateway(g.topics[cmd.channel := v], Switch(g.monitored, cmd.channel, v != []))
  }

  function Replay(h: seq<Command>): Gateway {
    if h == [] then INITIAL else Serve(Replay(h[..|h| - 1]), h[|h| - 1])
  }

  lemma ReplayAppend(h: seq<Command>, cmd: Command)
    ensures Replay(h + [cmd]) == Serve(Replay(h), cmd)
  {
    assert (h + [cmd])[..|h|] == h;
  }

  /** A command changes only its own channel. */
  lemma ServeEffect(g: Gateway, cmd: Command, c: Name)
    ensures TopicsOf(Serve(g, cmd).topics, c) ==
            if c == cmd.channel then Edit(TopicsOf(g.topics, c), cmd.topic, cmd.activate) else TopicsOf(g.topics, c)
    ensures c != cmd.channel ==> (c in Serve(g, cmd).monitored <==> c in g.monitored)
    ensures c == cmd.channel ==> (c in Serve(g, cmd).monitored <==> TopicsOf(Serve(g, cmd).topics, c) != [])
  {
  }

  /** The topic map is the one of the commands `h` served one at a time, an absent key being an empty vector. */
  ghost predicate Mirrors(topics: TopicMap, h: seq<Command>) {
    forall c :: TopicsOf(topics, c) == TopicsOf(Replay(h).topics, c)
  }

  lemma MirrorServed(topics: TopicMap, h: seq<Command>, cmd: Command, topics': TopicMap)
    requires Mirrors(topics, h)
    requires TopicsOf(topics', cmd.channel) == Edit(TopicsOf(topics, cmd.channel), cmd.topic, cmd.activate)
    requires forall c :: c != cmd.channel ==> TopicsOf(topics', c) == TopicsOf(topics, c)
    ensures Mirrors(topics', h + [cmd])
  {
    ReplayAppend(h, cmd);
    forall c ensures TopicsOf(topics', c) == TopicsOf(Replay(h + [cmd]).topics, c) {
      ServeEffect(Replay(h), cmd, c);
    }
  }

  // The same state, said without replaying.

  predicate About(cmd: Command, c: Name, t: Name) { cmd.channel == c && cmd.topic == t }

  /** The last command about the pair was an activation. */
  predicate Active(h: seq<Command>, c: Name, t: Name) {
    h != [] &&
    var last := h[|h| - 1];
    if About(last, c, t) then last.activate else Active(h[..|h| - 1], c, t)
  }

  /** The first activation of the pair since its last deactivation. */
  function Since(h: seq<Command>, c: Name, t: Name): (i: nat)
    requires Active(h, c, t)
    ensures i < |h| && About(h[i], c, t) && h[i].activate
    ensures !Active(h[..i], c, t)
    ensures forall j :: i <= j < |h| && About(h[j], c, t) ==> h[j].activate
  {
    var n := |h| - 1;
    if Active(h[..n], c, t) then
      var i := Since(h[..n], c, t);
      assert h[..n][..i] == h[..i];
      i
    else n
  }

  /** The topics of `v` are active, in the order of their activation. */
  ghost predicate InActivationOrder(h: seq<Command>, c: Name, v: seq<Name>) {
    && (forall i :: 0 <= i < |v| ==> Active(h, c, v[i]))
    && (forall i, j :: 0 <= i < j < |v| ==> Since(h, c, v[i]) < Since(h, c, v[j]))
  }

  /** What the topic vector and the monitored flag of channel `c` must be after the commands `h`. */
  ghost predicate Describes(g: Gateway, h: seq<Command>, c: Name) {
    var v := TopicsOf(g.topics, c);
    && NoDuplicates(v)
    && (forall t :: t in v <==> Active(h, c, t))
    && InActivationOrder(h, c, v)
    && (c in g.monitored <==> v != [])
  }

  lemma EditKeepsDistinct(v: seq<Name>, topic: Name, activate: bool)
    requires NoDuplicates(v)
    ensures NoDuplicates(Edit(v, topic, activate))
    ensures forall t :: t in Edit(v, topic, activate) <==> if t == topic then activate else t in v
  {
    match Find(v, topic)
    case None =>
    case Some(i) => RemoveAt(v, i);
  }

  /** The position of an activation does not change while the pair stays active. */
  lemma SinceStep(h: seq<Command>, c: Name, t: Name)
    requires h != [] && Active(h, c, t)
    ensures Since(h, c, t) == if Active(h[..|h| - 1], c, t) then Since(h[..|h| - 1], c, t) else |h| - 1
  {
  }

  lemma OrderPreserved(h: seq<Command>, c: Name, v: seq<Name>)
    requires h != [] && InActivationOrder(h[..|h| - 1], c, v)
    requires forall i :: 0 <= i < |v| ==> Active(h, c, v[i])
    ensures InActivationOrder(h, c, v)
  {
    forall i | 0 <= i < |v| ensures Since(h, c, v[i]) == Since(h[..|h| - 1], c, v[i]) {
      SinceStep(h, c, v[i]);
    }
  }

  lemma OrderWithout(h: seq<Command>, c: Name, v: seq<Name>, k: nat)
    requires InActivationOrder(h, c, v) && k < |v|
    ensures InActivationOrder(h, c, v[..k] + v[k + 1..])
  {
  }

  lemma OrderExtended(h: seq<Command>, c: Name, v: seq<Name>, t: Name)
    requires h != [] && InActivationOrder(h, c, v)
    requires Active(h, c, t) && !Active(h[..|h| - 1], c, t) && t !in v
    requires forall i :: 0 <= i < |v| ==> Active(h[..|h| - 1], c, v[i])
    ensures InActivationOrder(h, c, v + [t])
  {
    SinceStep(h, c, t);
    forall i | 0 <= i < |v| ensures Since(h, c, v[i]) < |h| - 1 {
      SinceStep(h, c, v[i]);
    }
  }

  lemma ActiveStep(h: seq<Command>, c: Name, t: Name)
    requires h != []
    ensures Active(h, c, t) <==>
            if About(h[|h| - 1], c, t) then h[|h| - 1].activate else Active(h[..|h| - 1], c, t)
  {
  }

  lemma DescribedOnOtherChannel(h: seq<Command>, c: Name)
    requires h != [] && h[|h| - 1].channel != c
    requires Describes(Replay(h[..|h| - 1]), h[..|h| - 1], c)
    ensures Describes(Replay(h), h, c)
  {
    hide Edit, InActivationOrder, Active, Since, Serve, TopicsOf;
    var before, last := h[..|h| - 1], h[|h| - 1];
    var v := TopicsOf(Replay(before).topics, c);
    ServeEffect(Replay(before), last, c);
    forall t ensures Active(h, c, t) == Active(before, c, t) {
      ActiveStep(h, c, t);
    }
    assert forall i :: 0 <= i < |v| ==> v[i] in v;
    OrderPreserved(h, c, v);
  }

  /** The order of the vector after a command for its channel. */
  lemma OrderAfterEdit(h: seq<Command>, c: Name, v: seq<Name>)
    requires h != [] && h[|h| - 1].channel == c
    requires NoDuplicates(v) && (forall t :: t in v <==> Active(h[..|h| - 1], c, t))
    requires InActivationOrder(h[..|h| - 1], c, v)
    ensures InActivationOrder(h, c, Edit(v, h[|h| - 1].topic, h[|h| - 1].activate))
  {
    hide Active, Since, InActivationOrder;
    var last := h[|h| - 1];
    var v' := Edit(v, last.topic, last.activate);
    EditKeepsDistinct(v, last.topic, last.activate);
    forall i | 0 <= i < |v'| ensures Active(h, c, v'[i]) {
      assert v'[i] in v';
      ActiveStep(h, c, v'[i]);
    }
    match Find(v, last.topic)
    case None =>
      if last.activate {
        ActiveStep(h, c, last.topic);
        assert forall i :: 0 <= i < |v| ==> v[i] in v && v'[i] == v[i];
        OrderPreserved(h, c, v);
        OrderExtended(h, c, v, last.topic);
      } else {
        OrderPreserved(h, c, v);
      }
    case Some(k) =>
      if !last.activate { OrderWithout(h[..|h| - 1], c, v, k); }
      OrderPreserved(h, c, v');
  }

  lemma DescribedOnOwnChannel(h: seq<Command>, c: Name)
    requires h != [] && h[|h| - 1].channel == c
    requires Describes(Replay(h[..|h| - 1]), h[..|h| - 1], c)
    ensures Describes(Replay(h), h, c)
  {
    hide Edit, InActivationOrder, Active, Since, Serve, TopicsOf;
    var before, last := h[..|h| - 1], h[|h| - 1];
    var v := TopicsOf(Replay(before).topics, c);
    ServeEffect(Replay(before), last, c);
    EditKeepsDistinct(v, last.topic, last.activate);
    OrderAfterEdit(h, c, v);
    forall t ensures t in TopicsOf(Replay(h).topics, c) <==> Active(h, c, t) {
      ActiveStep(h, c, t);
    }
  }

  /**
    After any sequence of commands served one at a time, each channel's topic vector has no
    duplicates, holds exactly the topics whose last command was an activation, in the order of their
    first activation since their last deactivation, and the channel is monitored exactly while the
    vector is not empty.
   */
  lemma {:induction false} ReplayDescribed(h: seq<Command>, c: Name)
    ensures Describes(Replay(h), h, c)
  {
    if h != [] {
      var n := |h| - 1;
      ReplayDescribed(h[..n], c);
      if h[n].channel != c {
        DescribedOnOtherChannel(h, c);
      } else {
        DescribedOnOwnChannel(h, c);
      }
    }
  }
}
