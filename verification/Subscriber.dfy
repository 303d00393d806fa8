/** Fetching from the message broker: the poll loop and what it leaves in the caller's vector. */
module Subscriber {
  import opened Sequences

  /** A fetched message; an empty payload has length 0. */
  datatype Element = Element(key: string, payload: string)

  /** What one poll of the consumer answers. */
  datatype Poll =
    | Nothing                       // no message object at all
    | PartitionEnd
    | Message(element: Element)
    | TimedOut
    | Broken                        // any other error

  /** An answer together with the clock reading after it: whether the deadline has passed. */
  datatype Answer = Answer(poll: Poll, late: bool)

  /** The broker's answers to come; once they run out every poll times out. */
  function AnswerAt(stream: seq<Answer>, pos: nat): Answer {
    if pos < |stream| then stream[pos] else Answer(TimedOut, true)
  }

  /** The successful payloads among the answers consumed, in order. */
  function Payloads(answers: seq<Answer>): seq<Element> {
    if answers == [] then []
    else
      var before := Payloads(answers[..|answers| - 1]);
      var last := answers[|answers| - 1].poll;
      if last.Message? then before + [last.element] else before
  }

  /** A message contributes its element, any other answer nothing. */
  lemma PayloadsOfOne(a: Answer)
    ensures Payloads([a]) == match a.poll case Message(element) => [element] case _ => []
  {
    assert [a][..0] == [] && Payloads([a][..0]) == [];
  }

  function Consumed(stream: seq<Answer>, from: nat, to: nat): seq<Answer> {
    var top := if to < |stream| then to else |stream|;
    if from <= top then stream[from..top] else []
  }

  lemma ConsumedIs(stream: seq<Answer>, from: nat, to: nat)
    requires from <= to <= |stream|
    ensures Consumed(stream, from, to) == stream[from..to]
  {
  }

  lemma ConsumedNext(stream: seq<Answer>, from: nat, pos: nat)
    requires from <= pos
    ensures Payloads(Consumed(stream, from, pos + 1)) ==
            Payloads(Consumed(stream, from, pos)) +
            if AnswerAt(stream, pos).poll.Message? then [AnswerAt(stream, pos).poll.element] else []
  {
    if pos < |stream| {
      var next := Consumed(stream, from, pos + 1);
      assert next[..|next| - 1] == Consumed(stream, from, pos);
    } else {
      assert Consumed(stream, from, pos + 1) == Consumed(stream, from, pos);
    }
  }

  lemma {:induction false} PayloadsAppend(a: seq<Answer>, b: seq<Answer>)
    ensures Payloads(a + b) == Payloads(a) + Payloads(b)
  {
    if b == [] {
      assert a + b == a;
    } else {
      assert (a + b)[..|a + b| - 1] == a + b[..|b| - 1];
      PayloadsAppend(a, b[..|b| - 1]);
    }
  }

  lemma ConsumedJoin(stream: seq<Answer>, mid: nat, to: nat)
    requires mid <= to
    ensures Payloads(Consumed(stream, 0, to)) ==
            Payloads(Consumed(stream, 0, mid)) + Payloads(Consumed(stream, mid, to))
  {
    assert Consumed(stream, 0, to) == Consumed(stream, 0, mid) + Consumed(stream, mid, to);
    PayloadsAppend(Consumed(stream, 0, mid), Consumed(stream, mid, to));
  }

  /** An answer after which the fetch loop does not poll again, whatever it holds so far. */
  predicate Stops(a: Answer) {
    a.poll.TimedOut? || a.poll.Broken? || (a.late && !a.poll.Nothing?)
  }

  /** Where the broker's answers stand after a fetch that starts at `pos` with `held` messages. */
  function FetchEnd(stream: seq<Answer>, pos: nat, held: nat, wanted: nat): (r: nat)
    decreases if pos < |stream| then |stream| - pos else 0
    ensures pos <= r && (held < wanted ==> pos < r)
  {
    if held >= wanted then pos
    else
      var a := AnswerAt(stream, pos);
      if Stops(a) then pos + 1 else FetchEnd(stream, pos + 1, if a.poll.Message? then held + 1 else held, wanted)
  }

  ghost predicate NeverStops(stream: seq<Answer>, from: nat, to: nat) {
    forall k :: from <= k < to ==> !Stops(AnswerAt(stream, k))
  }

  class Subscriber {
    /** The answers of the broker, and how many have been taken. */
    const stream: seq<Answer>
    var pos: nat

    constructor (stream: seq<Answer>)
      ensures this.stream == stream && pos == 0
    {
      this.stream, pos := stream, 0;
    }

    /**
      Appends the payloads of the answers it takes, in order, until the vector holds `wanted`
      messages or an answer stops it. A vector that is already long enough is left alone and the
      broker is not asked. The result is -1 exactly when an error ended the loop while something was held.
     */
    method GetMsg(messages: seq<Element>, wanted: nat) returns (result: seq<Element>, status: int)
      modifies this`pos
      ensures old(pos) <= pos
      ensures result == messages + Payloads(Consumed(stream, old(pos), pos))
      ensures |result| <= if |messages| > wanted then |messages| else wanted
      ensures |messages| >= wanted ==> pos == old(pos)
      ensures |result| >= wanted || (pos > old(pos) && Stops(AnswerAt(stream, pos - 1)))
      ensures pos > old(pos) ==> NeverStops(stream, old(pos), pos - 1)
      ensures pos == FetchEnd(stream, old(pos), |messages|, wanted)
      ensures forall k :: old(pos) <= k < pos - 1 ==>
                var a := AnswerAt(stream, k);
                a.poll.Nothing? || (!a.late && (a.poll.PartitionEnd? || a.poll.Message?))
      ensures |result| < wanted ==>
                var a := AnswerAt(stream, pos - 1);
                pos > old(pos) && (a.poll.TimedOut? || a.poll.Broken? || (a.late && !a.poll.Nothing?))
      ensures pos > old(pos) && |result| >= wanted ==> AnswerAt(stream, pos - 1).poll.Message?
      ensures pos <= |stream| ==> result == messages + Payloads(stream[old(pos)..pos])
      ensures status == if pos > old(pos) && AnswerAt(stream, pos - 1).poll.Broken? && |result| > 0 then -1 else 0
    {
      hide Payloads, FetchEnd, Consumed;
      NothingConsumed(stream, pos);
      result := messages;
      var error, looping := false, true;
      while |result| < wanted && looping
        invariant old(pos) <= pos
        invariant result == messages + Payloads(Consumed(stream, old(pos), pos))
        invariant |result| <= if |messages| > wanted then |messages| else wanted
        invariant |messages| >= wanted ==> pos == old(pos)
        invariant looping ==> FetchEnd(stream, pos, |result|, wanted) == FetchEnd(stream, old(pos), |messages|, wanted)
        invariant !looping ==> pos == FetchEnd(stream, old(pos), |messages|, wanted)
        invariant looping ==> NeverStops(stream, old(pos), pos)
        invariant !looping ==> pos > old(pos) && Stops(AnswerAt(stream, pos - 1))
        invariant !looping ==> pos > old(pos) && NeverStops(stream, old(pos), pos - 1)
        invariant pos > old(pos) && |result| >= wanted ==> AnswerAt(stream, pos - 1).poll.Message?
        invariant error <==> pos > old(pos) && AnswerAt(stream, pos - 1).poll.Broken? && |result| > 0
        decreases looping, if pos < |stream| then |stream| - pos else 0
      {
        ConsumedNext(stream, old(pos), pos);
        FetchNext(stream, pos, |result|, wanted);
        var answer := AnswerAt(stream, pos);
        pos := pos + 1;
        assert answer == AnswerAt(stream, pos - 1);
        assert !Stops(answer) ==> NeverStops(stream, old(pos), pos);
        match answer.poll {
          case Nothing =>
            continue;
          case PartitionEnd =>
          case Message(element) =>
            result := result + [element];
          case TimedOut =>
            looping := false;
          case Broken =>
            error := |result| != 0;
            looping := false;
        }
        if answer.late {
          looping := false;
          break;
        }
      }
      FetchNext(stream, pos, |result|, wanted);
      if pos <= |stream| {
        ConsumedIs(stream, old(pos), pos);
      }
      status := if error then -1 else 0;
    }
  }

  lemma FetchNext(stream: seq<Answer>, pos: nat, held: nat, wanted: nat)
    ensures FetchEnd(stream, pos, held, wanted) ==
            if held >= wanted then pos
            else if Stops(AnswerAt(stream, pos)) then pos + 1
            else FetchEnd(stream, pos + 1, if AnswerAt(stream, pos).poll.Message? then held + 1 else held, wanted)
  {
  }

  lemma NothingConsumed(stream: seq<Answer>, pos: nat)
    ensures Payloads(Consumed(stream, pos, pos)) == []
  {
  }
}
