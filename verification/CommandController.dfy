/** Command intake: batches fetched, decoded, offered to the handler and committed. */
module CommandController {
  import opened Sequences
  import opened Subscriber

  /** What the intake thread does that others can observe, in order. */
  datatype Event<C> =
    | Fetched(from: nat, to: nat)        // a non-empty batch: the broker's answers from..to
    | Offered(commands: seq<C>)
    | Accepted                           // the handler returned
    | Rejected                           // the handler threw
    | Committed(upTo: nat)               // everything consumed so far is committed
    | CommitFailed

  /** Skips empty payloads and those that do not decode. */
  function Decoded<C>(decode: string -> Option<C>, elements: seq<Element>): seq<C> {
    if elements == [] then []
    else
      var before := Decoded(decode, elements[..|elements| - 1]);
      before + DecodeOne(decode, elements[|elements| - 1])
  }

  function DecodeOne<C>(decode: string -> Option<C>, e: Element): seq<C> {
    if e.payload == "" then [] else match decode(e.payload) case None => [] case Some(c) => [c]
  }

  lemma {:induction false} DecodedAppend<C>(decode: string -> Option<C>, a: seq<Element>, b: seq<Element>)
    ensures Decoded(decode, a + b) == Decoded(decode, a) + Decoded(decode, b)
  {
    if b == [] {
      assert a + b == a;
    } else {
      assert (a + b)[..|a + b| - 1] == a + b[..|b| - 1];
      DecodedAppend(decode, a, b[..|b| - 1]);
    }
  }

  /** An element contributes its command if its payload is not empty and decodes, and nothing otherwise. */
  lemma {:induction false} DecodedOfOne<C>(decode: string -> Option<C>, e: Element)
    ensures e.payload != "" && decode(e.payload).Some? ==> Decoded(decode, [e]) == [decode(e.payload).value]
    ensures e.payload == "" || decode(e.payload).None? ==> Decoded(decode, [e]) == []
  {
    assert [e][..0] == [];
    assert Decoded(decode, [e][..0]) == [];
  }

  lemma NothingDecoded<C>(decode: string -> Option<C>)
    ensures Decoded(decode, []) == []
  {
  }

  /** The commands of the broker's answers from..to. */
  function Batch<C>(decode: string -> Option<C>, stream: seq<Answer>, from: nat, to: nat): seq<C> {
    Decoded(decode, Payloads(Consumed(stream, from, to)))
  }

  /** One turn of the intake loop that consumed the answers from..to. */
  function Round<C>(decode: string -> Option<C>, stream: seq<Answer>, from: nat, to: nat, handles: bool,
      commits: bool): seq<Event<C>> {
    var batch := Batch(decode, stream, from, to);
    var commit := if commits then Committed(to) else CommitFailed;
    if Payloads(Consumed(stream, from, to)) == [] then []
    else if batch == [] then [Fetched(from, to), commit]
    else if handles then [Fetched(from, to), Offered(batch), Accepted, commit]
    else [Fetched(from, to), Offered(batch), Rejected]
  }

  lemma NothingHappens<C>(decode: string -> Option<C>, stream: seq<Answer>, from: nat, to: nat,
                          handles: bool, commits: bool)
    requires Payloads(Consumed(stream, from, to)) == []
    ensures Round(decode, stream, from, to, handles, commits) == []
  {
  }

  /** The consumer's position after some turns. */
  function PositionAfter(stream: seq<Answer>, max: nat, rounds: nat): nat {
    if rounds == 0 then 0 else FetchEnd(stream, PositionAfter(stream, max, rounds - 1), 0, max)
  }

  /**
    Everything observable of some turns; the functions say in which turns the handler returns and a
    commit succeeds.
   */
  function Trace<C>(decode: string -> Option<C>, stream: seq<Answer>, max: nat, rounds: nat, handles: nat -> bool,
      commits: nat -> bool): seq<Event<C>> {
    if rounds == 0 then []
    else
      Trace(decode, stream, max, rounds - 1, handles, commits) +
      Round(decode, stream, PositionAfter(stream, max, rounds - 1), PositionAfter(stream, max, rounds),
            handles(rounds - 1), commits(rounds - 1))
  }

  class CMDController<C(!new)> {
    const decode: string -> Option<C>
    const subscriber: Subscriber
    const maxMessageToFetch: nat
    var log: seq<Event<C>>

    constructor (decode: string -> Option<C>, subscriber: Subscriber, maxMessageToFetch: nat)
      ensures log == [] && this.decode == decode && this.subscriber == subscriber
      ensures this.maxMessageToFetch == maxMessageToFetch
    {
      this.decode, this.subscriber, this.maxMessageToFetch := decode, subscriber, maxMessageToFetch;
      log := [];
    }

    /** The intake loop for a number of turns. */
    method Consume(rounds: nat, handles: nat -> bool, commits: nat -> bool)
      requires log == [] && subscriber.pos == 0
      modifies `log, subscriber`pos
      ensures log == Trace(decode, subscriber.stream, maxMessageToFetch, rounds, handles, commits)
      ensures subscriber.pos == PositionAfter(subscriber.stream, maxMessageToFetch, rounds)
    {
      hide Decoded, Payloads, FetchEnd, Round, Consumed;
      var receivedMessage: seq<Element> := [];
      for round := 0 to rounds
        invariant receivedMessage == []
        invariant subscriber.pos == PositionAfter(subscriber.stream, maxMessageToFetch, round)
        invariant log == Trace(decode, subscriber.stream, maxMessageToFetch, round, handles, commits)
      {
        var from := subscriber.pos;
        ghost var before := log;
        var status;
        receivedMessage, status := subscriber.GetMsg(receivedMessage, maxMessageToFetch);
        assert receivedMessage == Payloads(Consumed(subscriber.stream, from, subscriber.pos));
        if |receivedMessage| > 0 {
          Dispatch(receivedMessage, from, handles(round), commits(round));
          receivedMessage := [];
        } else {
          NothingHappens(decode, subscriber.stream, from, subscriber.pos, handles(round), commits(round));
        }
        assert log == before + Round(decode, subscriber.stream, from, subscriber.pos, handles(round), commits(round));
      }
    }

    /** One fetched vector: decode, offer what decoded, commit unless the handler threw. */
    method Dispatch(receivedMessage: seq<Element>, from: nat, handles: bool, commits: bool)
      requires receivedMessage != [] && receivedMessage == Payloads(Consumed(subscriber.stream, from, subscriber.pos))
      modifies `log
      ensures log == old(log) + Round(decode, subscriber.stream, from, subscriber.pos, handles, commits)
    {
      hide Decoded, Payloads;
      log := log + [Fetched(from, subscriber.pos)];
      var resultVec := Decode(receivedMessage);
      var accepted := true;
      if |resultVec| > 0 {
        log := log + [Offered(resultVec)];
        accepted := handles;
        log := log + [if accepted then Accepted else Rejected];
      }
      if accepted {
        log := log + [if commits then Committed(subscriber.pos) else CommitFailed];
      }
    }

    method Decode(elements: seq<Element>) returns (resultVec: seq<C>)
      ensures resultVec == Decoded(decode, elements)
    {
      resultVec := [];
      for i := 0 to |elements|
        invariant resultVec == Decoded(decode, elements[..i])
      {
        assert elements[..i + 1][..i] == elements[..i];
        if elements[i].payload != "" {
          match decode(elements[i].payload) {
            case None =>
            case Some(c) => resultVec := resultVec + [c];
          }
        }
      }
      assert elements[..|elements|] == elements;
    }
  }

  // What every trace satisfies.

  /** Everything offered to the handler, in order. */
  function AllOffered<C>(log: seq<Event<C>>): seq<C> {
    if log == [] then [] else AllOffered(log[..|log| - 1]) + OfferedBy(log[|log| - 1])
  }

  function OfferedBy<C>(e: Event<C>): seq<C> {
    if e.Offered? then e.commands else []
  }

  lemma {:induction false} AllOfferedAppend<C>(a: seq<Event<C>>, b: seq<Event<C>>)
    ensures AllOffered(a + b) == AllOffered(a) + AllOffered(b)
  {
    if b == [] {
      assert a + b == a;
    } else {
      assert (a + b)[..|a + b| - 1] == a + b[..|b| - 1];
      AllOfferedAppend(a, b[..|b| - 1]);
    }
  }

  lemma RoundOffers<C>(decode: string -> Option<C>, stream: seq<Answer>, from: nat, to: nat, handles: bool,
      commits: bool)
    ensures AllOffered(Round(decode, stream, from, to, handles, commits)) == Batch(decode, stream, from, to)
  {
    hide Decoded, Payloads, AllOffered;
    var batch := Batch(decode, stream, from, to);
    var log := Round(decode, stream, from, to, handles, commits);
    if batch == [] {
      NothingOffered(log);
    } else {
      BatchNeedsPayloads(decode, stream, from, to);
      var head := [Fetched(from, to), Offered(batch)];
      assert log == head + log[2..];
      AllOfferedAppend(head, log[2..]);
      NothingOffered(log[2..]);
      FetchedThenOffered(from, to, batch);
    }
  }

  lemma BatchNeedsPayloads<C>(decode: string -> Option<C>, stream: seq<Answer>, from: nat, to: nat)
    ensures Batch(decode, stream, from, to) != [] ==> Payloads(Consumed(stream, from, to)) != []
  {
  }

  lemma FetchedThenOffered<C>(from: nat, to: nat, batch: seq<C>)
    ensures AllOffered([Fetched(from, to), Offered(batch)]) == batch
  {
    var log: seq<Event<C>> := [Fetched(from, to), Offered(batch)];
    assert log[..1] == [Fetched(from, to)] && log[..1][..0] == [];
    assert AllOffered(log[..1]) == [];
  }

  lemma {:induction false} NothingOffered<C>(log: seq<Event<C>>)
    requires forall k :: 0 <= k < |log| ==> !log[k].Offered?
    ensures AllOffered(log) == []
  {
    if log != [] {
      NothingOffered(log[..|log| - 1]);
    }
  }

  /**
    However the fetches split the broker's stream, whatever the handler and the commits do, the
    concatenation of the vectors offered is the in-order decoding of everything received.
   */
  lemma {:induction false} OfferedIsDecodedStream<C>(decode: string -> Option<C>, stream: seq<Answer>, max: nat,
      rounds: nat, handles: nat -> bool, commits: nat -> bool)
    ensures AllOffered(Trace(decode, stream, max, rounds, handles, commits))
         == Decoded(decode, Payloads(Consumed(stream, 0, PositionAfter(stream, max, rounds))))
  {
    hide Round, Payloads, Consumed, Decoded, FetchEnd, AllOffered;
    if rounds == 0 {
      NothingConsumed(stream, 0);
      NothingDecoded(decode);
      NothingOffered<C>([]);
    } else {
      var from, to := PositionAfter(stream, max, rounds - 1), PositionAfter(stream, max, rounds);
      PositionsAdvance(stream, max, rounds - 1, rounds);
      OfferedIsDecodedStream(decode, stream, max, rounds - 1, handles, commits);
      RoundOffers(decode, stream, from, to, handles(rounds - 1), commits(rounds - 1));
      AllOfferedAppend(Trace(decode, stream, max, rounds - 1, handles, commits),
                       Round(decode, stream, from, to, handles(rounds - 1), commits(rounds - 1)));
      ConsumedJoin(stream, from, to);
      DecodedAppend(decode, Payloads(Consumed(stream, 0, from)), Payloads(Consumed(stream, from, to)));
    }
  }

  /**
    The commit at `k` is of the batch just fetched, which either held no command or has just been
    accepted by the handler.
   */
  ghost predicate Justified<C(!new)>(decode: string -> Option<C>, stream: seq<Answer>, log: seq<Event<C>>, k: nat)
    requires k < |log| && log[k].Committed?
  {
    || (k >= 1 && log[k - 1].Fetched? && log[k - 1].to == log[k].upTo
        && Batch(decode, stream, log[k - 1].from, log[k - 1].to) == [])
    || (k >= 3 && log[k - 1].Accepted? && log[k - 2].Offered? && log[k - 3].Fetched? && log[k - 3].to == log[k].upTo
        && log[k - 2].commands == Batch(decode, stream, log[k - 3].from, log[k - 3].to))
  }

  ghost predicate AllJustified<C(!new)>(decode: string -> Option<C>, stream: seq<Answer>, log: seq<Event<C>>) {
    forall k :: 0 <= k < |log| && log[k].Committed? ==> Justified(decode, stream, log, k)
  }

  /** No commit is issued before the handler has accepted the current batch, unless the batch held no command. */
  lemma {:induction false} CommitsAreJustified<C(!new)>(decode: string -> Option<C>, stream: seq<Answer>, max: nat,
      rounds: nat, handles: nat -> bool, commits: nat -> bool)
    ensures AllJustified(decode, stream, Trace(decode, stream, max, rounds, handles, commits))
  {
    hide Round, PositionAfter, AllJustified;
    if rounds == 0 {
      NothingToJustify(decode, stream);
    } else {
      CommitsAreJustified(decode, stream, max, rounds - 1, handles, commits);
      JustifiedAppend(decode, stream, Trace(decode, stream, max, rounds - 1, handles, commits),
                      PositionAfter(stream, max, rounds - 1), PositionAfter(stream, max, rounds),
                      handles(rounds - 1), commits(rounds - 1));
    }
  }

  lemma NothingToJustify<C(!new)>(decode: string -> Option<C>, stream: seq<Answer>)
    ensures AllJustified(decode, stream, [])
  {
  }

  lemma JustifiedAppend<C(!new)>(decode: string -> Option<C>, stream: seq<Answer>, log: seq<Event<C>>, from: nat,
      to: nat, handles: bool, commits: bool)
    requires AllJustified(decode, stream, log)
    ensures AllJustified(decode, stream, log + Round(decode, stream, from, to, handles, commits))
  {
    hide Decoded, Payloads;
    var round := Round(decode, stream, from, to, handles, commits);
    var all := log + round;
    forall k | 0 <= k < |all| && all[k].Committed? ensures Justified(decode, stream, all, k) {
      if k < |log| {
        assert Justified(decode, stream, log, k);
      } else {
        assert all[k - 1] == round[k - |log| - 1];
        if |round| == 4 {
          assert all[k - 2] == round[1] && all[k - 3] == round[0];
        }
      }
    }
  }

  /** Fetches and commits follow the consumer's position, and a rejection is preceded by its batch. */
  ghost predicate InPosition<C>(log: seq<Event<C>>, pos: nat) {
    && (forall k :: 0 <= k < |log| && log[k].Fetched? ==> log[k].from < log[k].to <= pos)
    && (forall k :: 0 <= k < |log| && log[k].Committed? ==> log[k].upTo <= pos)
    && (forall j, k :: 0 <= j < k < |log| && log[j].Committed? && log[k].Fetched? ==> log[j].upTo <= log[k].from)
    && (forall j, k :: 0 <= j < k < |log| && log[j].Fetched? && log[k].Committed? ==> log[j].to <= log[k].upTo)
    && (forall k :: 0 <= k < |log| && log[k].Rejected? ==> k >= 2 && log[k - 1].Offered? && log[k - 2].Fetched?)
  }

  lemma PositionAppend<C>(decode: string -> Option<C>, stream: seq<Answer>, log: seq<Event<C>>, from: nat, to: nat,
      handles: bool, commits: bool)
    requires InPosition(log, from) && from <= to
    ensures InPosition(log + Round(decode, stream, from, to, handles, commits), to)
  {
    if from == to {
      NothingConsumed(stream, from);
    }
    hide Decoded, Payloads;
    var round := Round(decode, stream, from, to, handles, commits);
    var all := log + round;
    assert round != [] ==> all[|log|] == Fetched(from, to);
    forall k | 0 <= k < |all| && all[k].Rejected? ensures k >= 2 && all[k - 1].Offered? && all[k - 2].Fetched? {
      if k >= |log| {
        assert all[k - 1] == round[1] && all[k - 2] == round[0];
      }
    }
  }

  lemma {:induction false} TraceInPosition<C>(decode: string -> Option<C>, stream: seq<Answer>, max: nat,
      rounds: nat, handles: nat -> bool, commits: nat -> bool)
    ensures InPosition(Trace(decode, stream, max, rounds, handles, commits), PositionAfter(stream, max, rounds))
  {
    if rounds > 0 {
      TraceInPosition(decode, stream, max, rounds - 1, handles, commits);
      PositionAppend(decode, stream, Trace(decode, stream, max, rounds - 1, handles, commits),
                     PositionAfter(stream, max, rounds - 1), PositionAfter(stream, max, rounds),
                     handles(rounds - 1), commits(rounds - 1));
    }
  }

  /** Turn `r` fetches something. */
  predicate FetchesIn(stream: seq<Answer>, max: nat, r: nat) {
    Payloads(Consumed(stream, PositionAfter(stream, max, r), PositionAfter(stream, max, r + 1))) != []
  }

  /** The commands of turn `r`. */
  function BatchOf<C>(decode: string -> Option<C>, stream: seq<Answer>, max: nat, r: nat): seq<C> {
    Batch(decode, stream, PositionAfter(stream, max, r), PositionAfter(stream, max, r + 1))
  }

  /** Turn `r` commits: it fetches something, has no command or a handler that returns, and the commit succeeds. */
  predicate CommitsIn<C(==)>(decode: string -> Option<C>, stream: seq<Answer>, max: nat,
                             handles: nat -> bool, commits: nat -> bool, r: nat) {
    FetchesIn(stream, max, r) && (BatchOf(decode, stream, max, r) == [] || handles(r)) && commits(r)
  }

  lemma RoundCommits<C>(decode: string -> Option<C>, stream: seq<Answer>, from: nat, to: nat,
                        handles: bool, commits: bool, upTo: nat)
    ensures Committed(upTo) in Round(decode, stream, from, to, handles, commits) <==>
            && Payloads(Consumed(stream, from, to)) != []
            && (Batch(decode, stream, from, to) == [] || handles) && commits && upTo == to
  {
    hide Decoded, Payloads;
  }

  /** The commits of a run are those of its committing turns, each up to the position after its turn. */
  lemma {:induction false} CommitsOfTrace<C>(decode: string -> Option<C>, stream: seq<Answer>, max: nat, rounds: nat,
                                             handles: nat -> bool, commits: nat -> bool, upTo: nat)
    ensures Committed(upTo) in Trace(decode, stream, max, rounds, handles, commits) <==>
            exists r :: 0 <= r < rounds && CommitsIn(decode, stream, max, handles, commits, r)
                        && upTo == PositionAfter(stream, max, r + 1)
  {
    hide Round, Batch, Payloads, FetchEnd;
    if rounds > 0 {
      var n := rounds - 1;
      CommitsOfTrace(decode, stream, max, n, handles, commits, upTo);
      RoundCommits(decode, stream, PositionAfter(stream, max, n), PositionAfter(stream, max, rounds),
                   handles(n), commits(n), upTo);
      assert CommitsIn(decode, stream, max, handles, commits, n) <==>
             FetchesIn(stream, max, n) && (BatchOf(decode, stream, max, n) == [] || handles(n)) && commits(n);
    }
  }

  lemma {:induction false} PositionsAdvance(stream: seq<Answer>, max: nat, a: nat, b: nat)
    requires a <= b
    ensures PositionAfter(stream, max, a) <= PositionAfter(stream, max, b)
    decreases b
  {
    if a < b {
      PositionsAdvance(stream, max, a, b - 1);
    }
  }

  /** No turn takes more messages than the configured maximum. */
  lemma TurnFetchesAtMost(stream: seq<Answer>, max: nat, r: nat)
    ensures |Payloads(Consumed(stream, PositionAfter(stream, max, r), PositionAfter(stream, max, r + 1)))| <= max
  {
    hide Payloads, Consumed, FetchEnd;
    NothingConsumed(stream, PositionAfter(stream, max, r));
    FetchTakesAtMost(stream, PositionAfter(stream, max, r), PositionAfter(stream, max, r), 0, max);
  }

  lemma {:induction false} FetchTakesAtMost(stream: seq<Answer>, from: nat, pos: nat, held: nat, max: nat)
    requires from <= pos && held == |Payloads(Consumed(stream, from, pos))| <= max
    ensures |Payloads(Consumed(stream, from, FetchEnd(stream, pos, held, max)))| <= max
    decreases if pos < |stream| then |stream| - pos else 0
  {
    hide Payloads, Consumed;
    ConsumedNext(stream, from, pos);
    if held < max && !Stops(AnswerAt(stream, pos)) {
      FetchTakesAtMost(stream, from, pos + 1, if AnswerAt(stream, pos).poll.Message? then held + 1 else held, max);
    }
  }

  lemma FetchAdvances(stream: seq<Answer>, max: nat, r: nat)
    requires FetchesIn(stream, max, r)
    ensures PositionAfter(stream, max, r) < PositionAfter(stream, max, r + 1)
  {
    PositionsAdvance(stream, max, r, r + 1);
    NothingConsumed(stream, PositionAfter(stream, max, r));
  }

  /** Some commit of the run covers an answer fetched in turn `r`. */
  ghost predicate Covered<C>(log: seq<Event<C>>, stream: seq<Answer>, max: nat, r: nat) {
    exists upTo: nat :: Committed(upTo) in log && upTo > PositionAfter(stream, max, r)
  }

  /**
    The documentation says that messages whose handler threw are not committed. Those of turn `r` stay
    uncommitted exactly as long as no later turn fetches something, has no command or a handler that
    returns, and commits: a commit covers everything consumed before it.
   */
  lemma RejectedStaysUncommittedExactlyWhen<C>(decode: string -> Option<C>, stream: seq<Answer>, max: nat, rounds: nat,
                                               handles: nat -> bool, commits: nat -> bool, r: nat)
    requires r < rounds && BatchOf(decode, stream, max, r) != [] && !handles(r)
    ensures Covered(Trace(decode, stream, max, rounds, handles, commits), stream, max, r) <==>
            exists q :: r < q < rounds && CommitsIn(decode, stream, max, handles, commits, q)
  {
    hide Trace, PositionAfter, Payloads, Decoded;
    var log := Trace(decode, stream, max, rounds, handles, commits);
    if Covered(log, stream, max, r) {
      var upTo: nat :| Committed(upTo) in log && upTo > PositionAfter(stream, max, r);
      CommitsOfTrace(decode, stream, max, rounds, handles, commits, upTo);
      var q :| 0 <= q < rounds && CommitsIn(decode, stream, max, handles, commits, q)
               && upTo == PositionAfter(stream, max, q + 1);
      if q < r {
        PositionsAdvance(stream, max, q + 1, r);
      }
    }
    if q :| r < q < rounds && CommitsIn(decode, stream, max, handles, commits, q) {
      CommitsOfTrace(decode, stream, max, rounds, handles, commits, PositionAfter(stream, max, q + 1));
      FetchAdvances(stream, max, q);
      PositionsAdvance(stream, max, r, q);
      assert Committed(PositionAfter(stream, max, q + 1)) in log;
    }
  }

  lemma {:induction false} OneFetched(stream: seq<Answer>, at: nat)
    requires at < |stream| && stream[at].poll.Message?
    ensures FetchEnd(stream, at, 0, 1) == at + 1
  {
    FetchNext(stream, at, 0, 1);
    FetchNext(stream, at + 1, 1, 1);
  }

  /** A turn of one message that decodes. */
  lemma {:induction false} OneMessageTurn<C>(decode: string -> Option<C>, stream: seq<Answer>, at: nat, c: C)
    requires at < |stream| && stream[at].poll.Message?
    requires stream[at].poll.element.payload != "" && decode(stream[at].poll.element.payload) == Some(c)
    ensures FetchEnd(stream, at, 0, 1) == at + 1
    ensures Payloads(Consumed(stream, at, at + 1)) != [] && Batch(decode, stream, at, at + 1) == [c]
  {
    hide FetchEnd, Payloads, Decoded;
    OneFetched(stream, at);
    assert Consumed(stream, at, at + 1) == [stream[at]];
    PayloadsOfOne(stream[at]);
    DecodedOfOne(decode, stream[at].poll.element);
  }

  /** Whatever two commands arrive one to a turn: the first rejected, it is committed with the second. */
  lemma {:induction false} RejectedCanBeCommitted<C>(decode: string -> Option<C>, stream: seq<Answer>, first: C,
      second: C)
    requires |stream| == 2 && stream[0].poll.Message? && stream[1].poll.Message?
    requires stream[0].poll.element.payload != "" && decode(stream[0].poll.element.payload) == Some(first)
    requires stream[1].poll.element.payload != "" && decode(stream[1].poll.element.payload) == Some(second)
    ensures Trace(decode, stream, 1, 2, r => r == 1, r => true)
         == [Fetched(0, 1), Offered([first]), Rejected, Fetched(1, 2), Offered([second]), Accepted, Committed(2)]
  {
    hide Payloads, Batch, FetchEnd, Consumed;
    OneMessageTurn(decode, stream, 0, first);
    OneMessageTurn(decode, stream, 1, second);
    assert PositionAfter(stream, 1, 0) == 0;
    assert PositionAfter(stream, 1, 1) == 1;
    assert PositionAfter(stream, 1, 2) == 2;
    TwoTurns(decode, stream, 1, r => r == 1, r => true);
    assert Round(decode, stream, 0, 1, false, true) == [Fetched(0, 1), Offered([first]), Rejected];
    assert Round(decode, stream, 1, 2, true, true) == [Fetched(1, 2), Offered([second]), Accepted, Committed(2)];
  }

  lemma {:induction false} TwoTurns<C>(decode: string -> Option<C>, stream: seq<Answer>, max: nat,
                                       handles: nat -> bool, commits: nat -> bool)
    ensures Trace(decode, stream, max, 2, handles, commits) ==
            Round(decode, stream, 0, PositionAfter(stream, max, 1), handles(0), commits(0)) +
            Round(decode, stream, PositionAfter(stream, max, 1), PositionAfter(stream, max, 2), handles(1), commits(1))
  {
    hide Round;
    assert PositionAfter(stream, max, 0) == 0;
    assert Trace(decode, stream, max, 0, handles, commits) == [];
    assert Trace(decode, stream, max, 1, handles, commits) ==
           Round(decode, stream, 0, PositionAfter(stream, max, 1), handles(0), commits(0));
  }
}
