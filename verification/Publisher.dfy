/** Publishing: who owns a message between the caller's vector, the broker's queue and its release. */
module Publisher {
  import opened Sequences

  datatype Message = Message(id: nat, requestType: string)

  /** A slot of the caller's vector; a moved-from slot is empty. */
  type Slot = Option<Message>

  /** Where messages are: in the caller's vector, queued at the broker, or released. */
  datatype Books = Books(slots: seq<Slot>, inFlight: seq<Message>, freed: seq<Message>)

  function Held(slots: seq<Slot>): seq<Message> {
    if slots == [] then [] else (if slots[0].Some? then [slots[0].value] else []) + Held(slots[1..])
  }

  /** Every message with the number of places that own it. */
  function Owners(b: Books): multiset<Message> {
    multiset(Held(b.slots)) + multiset(b.inFlight) + multiset(b.freed)
  }

  /** There is a message in slot `i` and the producer takes it. */
  predicate Taken(slots: seq<Slot>, accepts: seq<bool>, i: nat)
    requires i < |slots|
  {
    slots[i].Some? && i < |accepts| && accepts[i]
  }

  /** The first slot at which pushMessages stops: an empty one, or one the producer refuses. */
  function FirstStop(slots: seq<Slot>, accepts: seq<bool>): (n: nat)
    ensures n <= |slots|
    ensures forall i :: 0 <= i < n ==> Taken(slots, accepts, i)
    ensures n < |slots| ==> !Taken(slots, accepts, n)
  {
    StopFrom(slots, accepts, 0)
  }

  function StopFrom(slots: seq<Slot>, accepts: seq<bool>, from: nat): (n: nat)
    requires from <= |slots|
    decreases |slots| - from
    ensures from <= n <= |slots|
    ensures forall i :: from <= i < n ==> Taken(slots, accepts, i)
    ensures n < |slots| ==> !Taken(slots, accepts, n)
  {
    if from < |slots| && Taken(slots, accepts, from) then StopFrom(slots, accepts, from + 1) else from
  }

  /** How a call of pushMessages ends; following an empty slot is undefined in the program. */
  datatype Result = Done(status: int) | NullDereference

  function PushOutcome(slots: seq<Slot>, accepts: seq<bool>): Result {
    var n := FirstStop(slots, accepts);
    if n == |slots| then Done(0) else if slots[n].None? then NullDereference else Done(-1)
  }

  /** The sent prefix goes to the broker in order; a refused message is released and leaves its slot empty. */
  function Pushed(b: Books, accepts: seq<bool>): Books {
    var n := FirstStop(b.slots, accepts);
    var sent := Held(b.slots[..n]);
    match PushOutcome(b.slots, accepts)
    case Done(status) =>
      if status == 0 then Books([], b.inFlight + sent, b.freed)
      else Books([None] + b.slots[n + 1..], b.inFlight + sent, b.freed + [b.slots[n].value])
    case NullDereference => Books(b.slots[n..], b.inFlight + sent, b.freed)
  }

  lemma {:induction false} HeldAppend(a: seq<Slot>, b: seq<Slot>)
    ensures Held(a + b) == Held(a) + Held(b)
  {
    hide Held;
    HeldNothing();
    if a == [] {
      assert a + b == b;
    } else {
      HeldAppend(a[1..], b);
      HeldCons(a[0], a[1..]);
      HeldCons(a[0], a[1..] + b);
      assert a == [a[0]] + a[1..];
      assert a + b == [a[0]] + (a[1..] + b);
    }
  }

  lemma HeldNothing()
    ensures Held([]) == []
  {
  }

  lemma HeldCons(slot: Slot, rest: seq<Slot>)
    ensures Held([slot] + rest) == if slot.Some? then [slot.value] + Held(rest) else Held(rest)
  {
    assert ([slot] + rest)[1..] == rest;
  }

  /** pushMessages neither creates, duplicates nor loses a message. */
  lemma PushConserves(b: Books, accepts: seq<bool>)
    ensures Owners(Pushed(b, accepts)) == Owners(b)
  {
    hide Held, FirstStop;
    var n := FirstStop(b.slots, accepts);
    assert b.slots == b.slots[..n] + b.slots[n..];
    HeldAppend(b.slots[..n], b.slots[n..]);
    assert multiset(Held(b.slots)) == multiset(Held(b.slots[..n])) + multiset(Held(b.slots[n..]));
    if n == |b.slots| {
      HeldNothing();
      assert b.slots[n..] == [];
    } else if b.slots[n].Some? {
      assert b.slots[n..] == [b.slots[n]] + b.slots[n + 1..];
      HeldCons(b.slots[n], b.slots[n + 1..]);
      HeldCons(None, b.slots[n + 1..]);
    }
  }

  lemma {:induction false} HeldAll(slots: seq<Slot>)
    requires forall k :: 0 <= k < |slots| ==> slots[k].Some?
    ensures |Held(slots)| == |slots| && forall k :: 0 <= k < |slots| ==> Held(slots)[k] == slots[k].value
  {
    if slots != [] {
      HeldAll(slots[1..]);
    }
  }

  /**
    What pushMessages does, slot by slot. It returns 0 exactly when every slot held a message that the
    producer took. Otherwise it stops at the first slot that does not: there it follows a null pointer,
    or releases the refused message and empties the slot. The messages before it are with the broker,
    in order, and the slots after it are as they were.
   */
  lemma PushedSlotBySlot(b: Books, accepts: seq<bool>, n: nat)
    requires n <= |b.slots| && forall i :: 0 <= i < n ==> b.slots[i].Some? && i < |accepts| && accepts[i]
    requires n < |b.slots| ==> b.slots[n].None? || n >= |accepts| || !accepts[n]
    ensures var b' := Pushed(b, accepts);
      && |b'.inFlight| == |b.inFlight| + n && b'.inFlight[..|b.inFlight|] == b.inFlight
      && (forall k :: 0 <= k < n ==> b'.inFlight[|b.inFlight| + k] == b.slots[k].value)
    ensures n == |b.slots| ==>
      PushOutcome(b.slots, accepts) == Done(0) && Pushed(b, accepts).slots == [] && Pushed(b, accepts).freed == b.freed
    ensures n < |b.slots| && b.slots[n].None? ==>
      PushOutcome(b.slots, accepts) == NullDereference && Pushed(b, accepts).freed == b.freed
    ensures n < |b.slots| && b.slots[n].Some? ==>
      && PushOutcome(b.slots, accepts) == Done(-1)
      && Pushed(b, accepts).slots == [None] + b.slots[n + 1..]
      && Pushed(b, accepts).freed == b.freed + [b.slots[n].value]
  {
    var m := FirstStop(b.slots, accepts);
    assert m < |b.slots| ==> !Taken(b.slots, accepts, m);
    assert forall i :: 0 <= i < m ==> Taken(b.slots, accepts, i);
    assert forall i :: 0 <= i < n ==> Taken(b.slots, accepts, i);
    assert n < m ==> Taken(b.slots, accepts, n);
    assert m == n;
    HeldAll(b.slots[..n]);
  }

  /**
    A vector left by a failed call cannot be pushed again: its head slot is empty, so the next call
    follows a null pointer at once.
   */
  lemma RetryAfterFailureCrashes(b: Books, accepts: seq<bool>, again: seq<bool>)
    requires PushOutcome(b.slots, accepts) == Done(-1)
    ensures PushOutcome(Pushed(b, accepts).slots, again) == NullDereference
    ensures Pushed(b, accepts).slots[1..] == b.slots[FirstStop(b.slots, accepts) + 1..]
  {
  }

  // Runs.

  datatype Operation =
    | Offer(message: Message)                     // the caller puts a new message into its vector
    | PushOne(message: Message, accepted: bool)   // pushMessage of a new message
    | PushAll(accepts: seq<bool>)
    | Report(index: nat)                          // the broker reports on a queued message

  /** New messages are new, and the broker reports only on messages it has. */
  predicate Enabled(b: Books, op: Operation) {
    match op
    case Offer(m) => Owners(b)[m] == 0
    case PushOne(m, _) => Owners(b)[m] == 0
    case PushAll(_) => true
    case Report(k) => k < |b.inFlight|
  }

  function Apply(b: Books, op: Operation): Books
    requires Enabled(b, op)
  {
    match op
    case Offer(m) => b.(slots := b.slots + [Some(m)])
    case PushOne(m, accepted) => if accepted then b.(inFlight := b.inFlight + [m]) else b.(freed := b.freed + [m])
    case PushAll(accepts) => Pushed(b, accepts)
    case Report(k) => b.(inFlight := b.inFlight[..k] + b.inFlight[k + 1..], freed := b.freed + [b.inFlight[k]])
  }

  predicate Legal(b: Books, ops: seq<Operation>)
    decreases |ops|
  {
    ops == [] || (Enabled(b, ops[0]) && Legal(Apply(b, ops[0]), ops[1..]))
  }

  function Exec(b: Books, ops: seq<Operation>): Books
    requires Legal(b, ops)
    decreases |ops|
  {
    if ops == [] then b else Exec(Apply(b, ops[0]), ops[1..])
  }

  /** No message has two owners. */
  ghost predicate Linear(b: Books) {
    forall m :: Owners(b)[m] <= 1
  }

  lemma Conserved(b: Books, op: Operation)
    requires Enabled(b, op)
    ensures Owners(Apply(b, op)) == Owners(b) + if op.Offer? || op.PushOne? then multiset{op.message} else multiset{}
  {
    hide Held, Pushed;
    match op
    case Offer(m) =>
      HeldAppend(b.slots, [Some(m)]);
      HeldCons(Some(m), []);
      HeldNothing();
      assert [Some(m)] + [] == [Some(m)];
    case PushOne(m, _) =>
    case PushAll(accepts) => PushConserves(b, accepts);
    case Report(k) => ReportConserves(b, k);
  }

  /** Where one message goes: an accepted one to the broker only, a refused one is released only. */
  lemma PushOneGoesWhere(b: Books, m: Message, accepted: bool)
    requires Enabled(b, PushOne(m, accepted))
    ensures var b' := Apply(b, PushOne(m, accepted));
      && (m in b'.inFlight <==> accepted) && (m in b'.freed <==> !accepted)
      && b'.slots == b.slots && b.inFlight <= b'.inFlight && b.freed <= b'.freed
  {
    assert Owners(b)[m] == 0;
    assert m !in multiset(b.inFlight) && m !in multiset(b.freed);
  }

  /** A reported message leaves the broker's queue and is released. */
  lemma ReportGoesWhere(b: Books, k: nat)
    requires Linear(b) && Enabled(b, Report(k))
    ensures var b' := Apply(b, Report(k));
      && b.inFlight[k] !in b'.inFlight && b.inFlight[k] in b'.freed && b'.slots == b.slots
      && forall m :: m != b.inFlight[k] ==> (m in b'.inFlight <==> m in b.inFlight)
  {
    var m, b' := b.inFlight[k], Apply(b, Report(k));
    ReportConserves(b, k);
    assert Owners(b')[m] <= 1;
    assert b'.freed[|b.freed|] == m;
    assert m in multiset(b'.freed);
    assert b.inFlight == b.inFlight[..k] + [m] + b.inFlight[k + 1..];
  }

  lemma ReportConserves(b: Books, k: nat)
    requires k < |b.inFlight|
    ensures Owners(Apply(b, Report(k))) == Owners(b)
  {
    hide Held;
    assert b.inFlight == b.inFlight[..k] + [b.inFlight[k]] + b.inFlight[k + 1..];
  }

  /**
    Over any run, every message is at all times in exactly one place once it exists: in the caller's
    vector, in the broker's queue, or released; none is released twice, and none disappears.
   */
  lemma {:induction false} OwnershipIsLinear(b: Books, ops: seq<Operation>)
    requires Linear(b) && Legal(b, ops)
    ensures Linear(Exec(b, ops))
    ensures Owners(b) <= Owners(Exec(b, ops))
    ensures NoDuplicates(Exec(b, ops).freed)
    decreases |ops|
  {
    if ops == [] {
      ReleasedOnce(b);
    } else {
      Conserved(b, ops[0]);
      OwnershipIsLinear(Apply(b, ops[0]), ops[1..]);
    }
  }

  /** A message offered, pushed and reported on has gone all the way. */
  lemma WholeWay(m: Message)
    ensures var ops := [Offer(m), PushAll([true]), Report(0)];
      Legal(Books([], [], []), ops) && Exec(Books([], [], []), ops) == Books([], [], [m])
  {
    var b0 := Books([], [], []);
    var b1, b2, b3 := Books([Some(m)], [], []), Books([], [m], []), Books([], [], [m]);
    assert b1.slots[..1] == [Some(m)] && Held([Some(m)]) == [m];
    PushedSlotBySlot(b1, [true], 1);
    assert Apply(b0, Offer(m)) == b1;
    assert Apply(b1, PushAll([true])) == b2;
    assert Apply(b2, Report(0)) == b3;
    var ops := [Offer(m), PushAll([true]), Report(0)];
    assert ops[1..] == [PushAll([true]), Report(0)] && ops[1..][1..] == [Report(0)] && ops[1..][1..][1..] == [];
    assert Legal(b2, [Report(0)]) && Exec(b2, [Report(0)]) == b3;
  }

  lemma ReleasedOnce(b: Books)
    requires Linear(b)
    ensures NoDuplicates(b.freed)
  {
    forall i, j | 0 <= i < j < |b.freed| ensures b.freed[i] != b.freed[j] {
      assert Owners(b)[b.freed[i]] <= 1;
      if b.freed[i] == b.freed[j] {
        RepeatedCounts(b.freed, i, j);
      }
    }
  }

  /** The first `n` slots are sent. */
  ghost predicate Reaches(slots: seq<Slot>, accepts: seq<bool>, n: nat) {
    n <= FirstStop(slots, accepts)
  }

  lemma PushStart(slots: seq<Slot>, accepts: seq<bool>)
    ensures Reaches(slots, accepts, 0) && Held(slots[..0]) == []
  {
    assert slots[..0] == [];
  }

  lemma PushNext(slots: seq<Slot>, accepts: seq<bool>, n: nat)
    requires Reaches(slots, accepts, n) && n < |slots| && |accepts| >= |slots|
    ensures if slots[n].Some? && accepts[n]
            then Reaches(slots, accepts, n + 1) && Held(slots[..n + 1]) == Held(slots[..n]) + [slots[n].value]
            else FirstStop(slots, accepts) == n
  {
    assert Taken(slots, accepts, n) <==> slots[n].Some? && accepts[n];
    HeldAppend(slots[..n], [slots[n]]);
    HeldCons(slots[n], []);
    assert slots[..n + 1] == slots[..n] + [slots[n]] && [slots[n]] == [slots[n]] + [];
  }

  lemma PushEnd(b: Books, accepts: seq<bool>)
    requires Reaches(b.slots, accepts, |b.slots|)
    ensures PushOutcome(b.slots, accepts) == Done(0)
    ensures Pushed(b, accepts) == Books([], b.inFlight + Held(b.slots[..|b.slots|]), b.freed)
  {
    hide Held;
  }

  lemma PushStop(b: Books, accepts: seq<bool>, n: nat)
    requires n < |b.slots| && FirstStop(b.slots, accepts) == n
    ensures b.slots[n].None? ==>
      && PushOutcome(b.slots, accepts) == NullDereference
      && Pushed(b, accepts) == Books(b.slots[n..], b.inFlight + Held(b.slots[..n]), b.freed)
    ensures b.slots[n].Some? ==>
      && PushOutcome(b.slots, accepts) == Done(-1)
      && Pushed(b, accepts)
         == Books([None] + b.slots[n + 1..], b.inFlight + Held(b.slots[..n]), b.freed + [b.slots[n].value])
  {
    hide Held, FirstStop;
  }

  // The publisher itself.

  /** The caller's vector, passed by reference. */
  class MessageVector {
    var slots: seq<Slot>

    constructor (slots: seq<Slot>)
      ensures this.slots == slots
    {
      this.slots := slots;
    }
  }

  datatype Delivery = NotPersisted | PossiblyPersisted | Persisted

  datatype EventType = OnSent | OnError

  /** A function the publisher can call back; None stands for an empty std::function. */
  type Callback = nat

  datatype Notice = Notice(callback: Callback, event: EventType, message: Message)

  // The callback table.

  /** What touches the table: a registration, or a delivery report, which looks the type up with operator[]. */
  datatype Use = Registers(requestType: string, callback: Option<Callback>) | Reports(requestType: string)
  {
    function Brings(): Option<Callback> { if Registers? then callback else None }
  }

  type CallbackTable = map<string, Option<Callback>>

  function Touch(table: CallbackTable, use: Use): CallbackTable {
    if use.requestType in table then table else table[use.requestType := use.Brings()]
  }

  function TableAfter(uses: seq<Use>): CallbackTable {
    if uses == [] then map[] else Touch(TableAfter(uses[..|uses| - 1]), uses[|uses| - 1])
  }

  /** Position `i` is the first use of its request type. */
  ghost predicate FirstUse(uses: seq<Use>, i: nat)
    requires i < |uses|
  {
    forall j :: 0 <= j < i ==> uses[j].requestType != uses[i].requestType
  }

  /**
    The first use of a request type decides for good who hears its delivery reports: a callback
    registered after a report of that type is refused and never called.
   */
  lemma {:induction false} FirstUseDecides(uses: seq<Use>, i: nat)
    requires i < |uses| && FirstUse(uses, i)
    ensures uses[i].requestType in TableAfter(uses)
    ensures TableAfter(uses)[uses[i].requestType] == uses[i].Brings()
  {
    if i < |uses| - 1 {
      FirstUseDecides(uses[..|uses| - 1], i);
    } else {
      TableHoldsUsedTypes(uses[..i], uses[i].requestType);
    }
  }

  lemma FirstUsesDecide(uses: seq<Use>)
    ensures forall i :: 0 <= i < |uses| && FirstUse(uses, i) ==>
              && uses[i].requestType in TableAfter(uses)
              && TableAfter(uses)[uses[i].requestType] == uses[i].Brings()
  {
    forall i | 0 <= i < |uses| && FirstUse(uses, i)
      ensures uses[i].requestType in TableAfter(uses)
      ensures TableAfter(uses)[uses[i].requestType] == uses[i].Brings()
    {
      FirstUseDecides(uses, i);
    }
  }

  ghost predicate Used(uses: seq<Use>, requestType: string) {
    exists i :: 0 <= i < |uses| && uses[i].requestType == requestType
  }

  lemma {:induction false} TableHoldsUsedTypes(uses: seq<Use>, requestType: string)
    ensures requestType in TableAfter(uses) <==> Used(uses, requestType)
  {
    if uses != [] {
      var n := |uses| - 1;
      TableHoldsUsedTypes(uses[..n], requestType);
      if i :| 0 <= i < n && uses[i].requestType == requestType {
        assert uses[..n][i].requestType == requestType;
      }
    }
  }

  /** Who hears of a message's delivery, and what. */
  function Heard(table: CallbackTable, message: Message, status: Delivery): seq<Notice> {
    if message.requestType !in table then []
    else
      match table[message.requestType]
      case None => []
      case Some(cb) => [Notice(cb, if status.Persisted? then OnSent else OnError, message)]
  }

  lemma TableAppend(uses: seq<Use>, use: Use)
    ensures TableAfter(uses + [use]) == Touch(TableAfter(uses), use)
  {
    assert (uses + [use])[..|uses|] == uses;
  }

  class RDKafkaPublisher {
    var callbacks: CallbackTable
    var inFlight: seq<Message>
    var freed: seq<Message>
    var notices: seq<Notice>
    /** History: everything that touched the callback table. */
    ghost var uses: seq<Use>

    ghost predicate Valid()
      reads this
    {
      callbacks == TableAfter(uses)
    }

    constructor ()
      ensures Valid() && uses == [] && inFlight == [] && freed == [] && notices == []
    {
      callbacks, inFlight, freed, notices, uses := map[], [], [], [], [];
    }

    /** Refused when the type has been used before, be it only by a delivery report. */
    method SetCallBackForReqType(requestType: string, callback: Option<Callback>) returns (r: int)
      requires Valid()
      modifies this`callbacks, this`uses
      ensures Valid() && uses == old(uses) + [Registers(requestType, callback)]
      ensures r == if Used(old(uses), requestType) then -1 else 1
    {
      hide TableAfter;
      TableHoldsUsedTypes(uses, requestType);
      TableAppend(uses, Registers(requestType, callback));
      uses := uses + [Registers(requestType, callback)];
      if requestType in callbacks {
        return -1;
      }
      callbacks := callbacks[requestType := callback];
      r := 1;
    }

    /** On success the broker owns the message; on failure it is released on return. */
    method PushMessage(message: Message, accepted: bool) returns (status: int)
      modifies this`inFlight, this`freed
      ensures status == if accepted then 0 else -1
      ensures inFlight == if accepted then old(inFlight) + [message] else old(inFlight)
      ensures freed == if accepted then old(freed) else old(freed) + [message]
    {
      if !accepted {
        freed := freed + [message];
        return -1;
      }
      inFlight := inFlight + [message];
      status := 0;
    }

    /** Sends a prefix in order; `accepts` says which messages the producer takes. */
    method PushMessages(messages: MessageVector, accepts: seq<bool>) returns (r: Result)
      requires |accepts| >= |messages.slots|
      modifies messages, this`inFlight, this`freed
      ensures r == PushOutcome(old(messages.slots), accepts)
      ensures Books(messages.slots, inFlight, freed) == Pushed(old(Books(messages.slots, inFlight, freed)), accepts)
    {
      hide Held, FirstStop, Reaches, Pushed, PushOutcome;
      var err := 0;
      var n := 0;
      ghost var slots := messages.slots;
      ghost var books := Books(slots, inFlight, freed);
      PushStart(slots, accepts);
      while messages.slots != []
        invariant n <= |slots| && messages.slots == slots[n..]
        invariant Reaches(slots, accepts, n)
        invariant inFlight == old(inFlight) + Held(slots[..n]) && freed == old(freed)
        decreases |messages.slots|
      {
        PushNext(slots, accepts, n);
        if messages.slots[0].None? {
          PushStop(books, accepts, n);
          return NullDereference;
        }
        var message := messages.slots[0].value;
        messages.slots := messages.slots[0 := None];
        err := PushMessage(message, accepts[n]);
        if err != 0 {
          PushStop(books, accepts, n);
          assert messages.slots == [None] + slots[n + 1..];
          return Done(-1);
        }
        messages.slots := messages.slots[1..];
        n := n + 1;
      }
      PushEnd(books, accepts);
      r := Done(0);
    }

    /**
      The delivery report for the queued message at `index`: ownership comes back, the callback of
      its request type hears how it went, and the message is released.
     */
    method DeliveryReport(index: nat, status: Delivery)
      requires Valid() && index < |inFlight|
      modifies this
      ensures Valid() && uses == old(uses) + [Reports(old(inFlight)[index].requestType)]
      ensures Books([], inFlight, freed) == Apply(old(Books([], inFlight, freed)), Report(index))
      ensures notices == old(notices) + Heard(callbacks, old(inFlight)[index], status)
      ensures forall i :: 0 <= i < |uses| && FirstUse(uses, i)
                          && uses[i].requestType == old(inFlight)[index].requestType ==>
                match uses[i].Brings()
                case None => notices == old(notices)
                case Some(cb) =>
                  && |notices| == |old(notices)| + 1 && notices[..|old(notices)|] == old(notices)
                  && var notice := notices[|old(notices)|];
                  && notice.callback == cb && notice.message == old(inFlight)[index]
                  && (notice.event == OnSent <==> status == Persisted)
    {
      hide TableAfter, FirstUse;
      var messageManaged := inFlight[index];
      FirstUsesDecide(uses + [Reports(messageManaged.requestType)]);
      inFlight := inFlight[..index] + inFlight[index + 1..];
      Tell(messageManaged, status);
      freed := freed + [messageManaged];
    }

    method Tell(message: Message, status: Delivery)
      requires Valid()
      modifies this`callbacks, this`uses, this`notices
      ensures Valid() && uses == old(uses) + [Reports(message.requestType)]
      ensures notices == old(notices) + Heard(callbacks, message, status)
    {
      hide TableAfter;
      TableAppend(uses, Reports(message.requestType));
      uses := uses + [Reports(message.requestType)];
      if message.requestType !in callbacks {
        callbacks := callbacks[message.requestType := None];
      }
      match callbacks[message.requestType] {
        case None =>
        case Some(handler) =>
          match status {
            case NotPersisted | PossiblyPersisted => notices := notices + [Notice(handler, OnError, message)];
            case Persisted => notices := notices + [Notice(handler, OnSent, message)];
          }
      }
    }
  }
}
