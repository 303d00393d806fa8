/**
  Any number of threads operating on the table, each step taken under the storage lock. The table
  refines a set of triples in every reachable state.
 */
module RepositoryProtocol {
  import opened Sequences
  import opened ChannelRepository

  datatype Operation = Insert(triple: Triple) | Remove(triple: Triple) | RemoveAll

  /** Program points of one operation. */
  datatype Client =
    | Away
    | Wanting(operation: Operation)          // about to lock the storage
    | Inside(operation: Operation)           // holds the lock
    | Counted(triple: Triple, found: bool)   // insert: holds the lock, has counted
    | Leaving                                // holds the lock, about to release it

  /** `called` and `effects` are history: the operations in the order of their calls, and of their effects. */
  datatype Store = Store(
    rows: seq<Row>, nextId: nat, holder: Option<nat>, clients: seq<Client>,
    called: seq<Operation>, effects: seq<Operation>)

  datatype Action = Call(index: nat, operation: Operation) | Step(index: nat)

  predicate Enabled(s: Store, a: Action) {
    a.index < |s.clients| &&
    match a
    case Call(i, _) => s.clients[i].Away?
    case Step(i) => !s.clients[i].Away? && (s.clients[i].Wanting? ==> s.holder.None?)
  }

  function Apply(s: Store, a: Action): Store
    requires Enabled(s, a)
  {
    match a
    case Call(i, op) => s.(clients := s.clients[i := Wanting(op)], called := s.called + [op])
    case Step(i) =>
      match s.clients[i]
      case Away => s
      case Wanting(op) => s.(clients := s.clients[i := Inside(op)], holder := Some(i))
      case Inside(Insert(t)) => s.(clients := s.clients[i := Counted(t, CountOf(s.rows, t) != 0)])
      case Inside(Remove(t)) =>
        s.(rows := Without(s.rows, t), clients := s.clients[i := Leaving], effects := s.effects + [Remove(t)])
      case Inside(RemoveAll) =>
        s.(rows := [], clients := s.clients[i := Leaving], effects := s.effects + [RemoveAll])
      case Counted(t, found) =>
        s.(rows := if found then s.rows else s.rows + [Row(s.nextId, t)],
           nextId := if found then s.nextId else s.nextId + 1,
           clients := s.clients[i := Leaving], effects := s.effects + [Insert(t)])
      case Leaving => s.(clients := s.clients[i := Away], holder := None)
  }

  predicate Legal(s: Store, actions: seq<Action>)
    decreases |actions|
  {
    actions == [] || (Enabled(s, actions[0]) && Legal(Apply(s, actions[0]), actions[1..]))
  }

  function Exec(s: Store, actions: seq<Action>): Store
    requires Legal(s, actions)
    decreases |actions|
  {
    if actions == [] then s else Exec(Apply(s, actions[0]), actions[1..])
  }

  /** The effect of one operation on the set of triples. */
  function Effect(triples: set<Triple>, op: Operation): set<Triple> {
    match op
    case Insert(t) => triples + {t}
    case Remove(t) => triples - {t}
    case RemoveAll => {}
  }

  function After(initial: set<Triple>, ops: seq<Operation>): set<Triple> {
    if ops == [] then initial else Effect(After(initial, ops[..|ops| - 1]), ops[|ops| - 1])
  }

  predicate Holding(c: Client) { c.Inside? || c.Counted? || c.Leaving? }

  ghost predicate LockInv(s: Store) {
    forall i :: 0 <= i < |s.clients| ==> (Holding(s.clients[i]) <==> s.holder == Some(i))
  }

  /** What an insert counted still holds when it comes to insert. */
  ghost predicate CountInv(s: Store) {
    forall i :: 0 <= i < |s.clients| && s.clients[i].Counted? ==>
      (s.clients[i].found <==> s.clients[i].triple in Triples(s.rows))
  }

  ghost predicate TableInv(s: Store, initial: set<Triple>) {
    Sound(s.rows, s.nextId) && Triples(s.rows) == After(initial, s.effects)
  }

  ghost predicate Inv(s: Store, initial: set<Triple>) {
    LockInv(s) && CountInv(s) && TableInv(s, initial)
  }

  lemma AfterAppend(initial: set<Triple>, ops: seq<Operation>, op: Operation)
    ensures After(initial, ops + [op]) == Effect(After(initial, ops), op)
  {
    assert (ops + [op])[..|ops|] == ops;
  }

  lemma LockKept(s: Store, a: Action)
    requires LockInv(s) && CountInv(s) && Enabled(s, a)
    ensures LockInv(Apply(s, a)) && CountInv(Apply(s, a))
  {
    hide Without, CountOf, Triples;
  }

  lemma TableKept(s: Store, a: Action, initial: set<Triple>)
    requires CountInv(s) && TableInv(s, initial) && Enabled(s, a)
    ensures TableInv(Apply(s, a), initial)
  {
    hide After, Without, CountOf;
    if a.Step? {
      match s.clients[a.index]
      case Inside(Remove(t)) =>
        WithoutSound(s.rows, t, s.nextId);
        WithoutRemoves(s.rows, t);
        AfterAppend(initial, s.effects, Remove(t));
      case Inside(RemoveAll) =>
        AfterAppend(initial, s.effects, RemoveAll);
      case Counted(t, found) =>
        InsertSound(s.rows, s.nextId, t);
        AfterAppend(initial, s.effects, Insert(t));
      case _ =>
    }
  }

  lemma InsertSound(rows: seq<Row>, nextId: nat, t: Triple)
    requires Sound(rows, nextId)
    ensures t !in Triples(rows) ==> Sound(rows + [Row(nextId, t)], nextId + 1)
    ensures Triples(rows + [Row(nextId, t)]) == Triples(rows) + {t}
  {
    TriplesAppend(rows, Row(nextId, t));
    assert forall i :: 0 <= i < |rows| ==> rows[i].triple in Triples(rows);
  }

  lemma {:induction false} InvRun(s: Store, actions: seq<Action>, initial: set<Triple>)
    requires Inv(s, initial) && Legal(s, actions)
    ensures Inv(Exec(s, actions), initial)
    decreases |actions|
  {
    if actions != [] {
      LockKept(s, actions[0]);
      TableKept(s, actions[0], initial);
      InvRun(Apply(s, actions[0]), actions[1..], initial);
    }
  }

  /**
    Starting from any table without repeated triples, no interleaving of inserts, removals and
    clearings by any number of threads ever produces a repeated triple, and the table always stands
    for the set obtained by applying the operations in the order in which they took effect.
   */
  lemma TableIsASet(rows: seq<Row>, nextId: nat, threads: nat, actions: seq<Action>)
    requires Sound(rows, nextId)
    requires Legal(Store(rows, nextId, None, seq(threads, _ => Away), [], []), actions)
    ensures var s := Exec(Store(rows, nextId, None, seq(threads, _ => Away), [], []), actions);
      NoRepeats(s.rows) && Triples(s.rows) == After(Triples(rows), s.effects)
  {
    InvRun(Store(rows, nextId, None, seq(threads, _ => Away), [], []), actions, Triples(rows));
  }

  // What the operations mean, said without applying them one by one.

  /** The operation decides whether `t` is in the table. */
  predicate Decides(op: Operation, t: Triple) { op.RemoveAll? || op.triple == t }

  /**
    A triple is stored exactly if the last operation that decides it is its insertion, or none decides
    it and it was there at the start.
   */
  lemma {:induction false} LastEffectDecides(initial: set<Triple>, ops: seq<Operation>, t: Triple, last: int)
    requires -1 <= last < |ops| && (last >= 0 ==> Decides(ops[last], t))
    requires forall k :: last < k < |ops| ==> !Decides(ops[k], t)
    ensures t in After(initial, ops) <==> if last >= 0 then ops[last] == Insert(t) else t in initial
  {
    if last < |ops| - 1 {
      assert !Decides(ops[|ops| - 1], t);
      LastEffectDecides(initial, ops[..|ops| - 1], t, last);
    }
  }

  // Every call takes effect once.

  /** 1 if the client is inside a call of `op` that has not taken effect. */
  function Undone(c: Client, op: Operation): nat {
    match c
    case Wanting(o) => if o == op then 1 else 0
    case Inside(o) => if o == op then 1 else 0
    case Counted(t, _) => if op == Insert(t) then 1 else 0
    case _ => 0
  }

  function AllUndone(clients: seq<Client>, op: Operation): nat {
    if clients == [] then 0 else Undone(clients[0], op) + AllUndone(clients[1..], op)
  }

  lemma {:induction false} UndoneUpdate(clients: seq<Client>, i: nat, c: Client, op: Operation)
    requires i < |clients|
    ensures AllUndone(clients[i := c], op) == AllUndone(clients, op) - Undone(clients[i], op) + Undone(c, op)
  {
    if i == 0 {
      assert clients[0 := c][1..] == clients[1..];
    } else {
      assert clients[i := c][1..] == clients[1..][i - 1 := c];
      UndoneUpdate(clients[1..], i - 1, c, op);
    }
  }

  lemma {:induction false} NothingUndone(clients: seq<Client>, op: Operation)
    requires forall i :: 0 <= i < |clients| ==> clients[i].Away?
    ensures AllUndone(clients, op) == 0
  {
    if clients != [] {
      NothingUndone(clients[1..], op);
    }
  }

  lemma CallsKept(s: Store, a: Action, op: Operation)
    requires Enabled(s, a)
    requires multiset(s.called)[op] == multiset(s.effects)[op] + AllUndone(s.clients, op)
    ensures multiset(Apply(s, a).called)[op] == multiset(Apply(s, a).effects)[op] + AllUndone(Apply(s, a).clients, op)
  {
    var s' := Apply(s, a);
    HistoryGrows(s, a);
    ClientGivesUp(s, a, op);
    UndoneUpdate(s.clients, a.index, s'.clients[a.index], op);
    hide AllUndone, Without, CountOf, Undone, Apply;
    assert |EffectOf(s.clients[a.index])| <= 1;
  }

  /** The operation whose effect a step of the client is, if any. */
  function EffectOf(c: Client): seq<Operation> {
    match c
    case Inside(Remove(t)) => [Remove(t)]
    case Inside(RemoveAll) => [RemoveAll]
    case Counted(t, _) => [Insert(t)]
    case _ => []
  }

  /** What an action adds to the history. */
  lemma HistoryGrows(s: Store, a: Action)
    requires Enabled(s, a)
    ensures var s' := Apply(s, a);
      && s'.clients == s.clients[a.index := s'.clients[a.index]]
      && s'.called == s.called + (if a.Call? then [a.operation] else [])
      && s'.effects == s.effects + (if a.Call? then [] else EffectOf(s.clients[a.index]))
  {
    hide Without, CountOf;
  }

  /** What a step adds to the history is what its client stops owing. */
  lemma ClientGivesUp(s: Store, a: Action, op: Operation)
    requires Enabled(s, a)
    ensures var c, c' := s.clients[a.index], Apply(s, a).clients[a.index];
      && (a.Call? ==> Undone(c, op) == 0 && Undone(c', op) == if a.operation == op then 1 else 0)
      && (a.Step? ==> Undone(c, op) == Undone(c', op) + if EffectOf(c) == [op] then 1 else 0)
  {
    hide Without, CountOf;
  }

  lemma {:induction false} CallsRun(s: Store, actions: seq<Action>, op: Operation)
    requires Legal(s, actions)
    requires multiset(s.called)[op] == multiset(s.effects)[op] + AllUndone(s.clients, op)
    ensures multiset(Exec(s, actions).called)[op] ==
            multiset(Exec(s, actions).effects)[op] + AllUndone(Exec(s, actions).clients, op)
    decreases |actions|
  {
    hide AllUndone;
    if actions != [] {
      CallsKept(s, actions[0], op);
      CallsRun(Apply(s, actions[0]), actions[1..], op);
    }
  }

  ghost predicate AllAway(s: Store) {
    forall i :: 0 <= i < |s.clients| ==> s.clients[i].Away?
  }

  /** Once every client has returned, every call has taken effect exactly once. */
  lemma EveryCallTakesEffectOnce(rows: seq<Row>, nextId: nat, threads: nat, actions: seq<Action>)
    requires Legal(Store(rows, nextId, None, seq(threads, _ => Away), [], []), actions)
    requires AllAway(Exec(Store(rows, nextId, None, seq(threads, _ => Away), [], []), actions))
    ensures var s := Exec(Store(rows, nextId, None, seq(threads, _ => Away), [], []), actions);
      multiset(s.called) == multiset(s.effects)
  {
    hide Legal, Exec;
    var start := Store(rows, nextId, None, seq(threads, _ => Away), [], []);
    var s := Exec(start, actions);
    forall op ensures multiset(s.called)[op] == multiset(s.effects)[op] {
      NothingUndone(start.clients, op);
      CallsRun(start, actions, op);
      NothingUndone(s.clients, op);
    }
  }

  /** A client inside a call can always go on, or the one that holds the lock can. */
  lemma SomeClientMoves(s: Store, i: nat) returns (a: Action)
    requires LockInv(s) && (s.holder.Some? ==> s.holder.value < |s.clients|)
    requires i < |s.clients| && !s.clients[i].Away?
    ensures Enabled(s, a) && a.Step?
  {
    a := if s.holder.Some? then Step(s.holder.value) else Step(i);
  }

  /** Client `i` goes through a whole call of an insert, undisturbed. */
  lemma InsertRuns(s: Store, i: nat, t: Triple)
    requires i < |s.clients| && s.clients[i].Away? && s.holder.None? && t !in Triples(s.rows)
    ensures var run := [Call(i, Insert(t)), Step(i), Step(i), Step(i), Step(i)];
      && Legal(s, run)
      && Exec(s, run) == s.(rows := s.rows + [Row(s.nextId, t)], nextId := s.nextId + 1,
                            called := s.called + [Insert(t)], effects := s.effects + [Insert(t)])
  {
    hide Triples, CountOf;
    assert CountOf(s.rows, t) == 0;
    var s1 := Apply(s, Call(i, Insert(t)));
    var s2 := Apply(s1, Step(i));
    var s3 := Apply(s2, Step(i));
    assert s3.clients[i] == Counted(t, false);
    var s4 := Apply(s3, Step(i));
    var s5 := Apply(s4, Step(i));
    assert s5.clients == s.clients;
    var run := [Call(i, Insert(t)), Step(i), Step(i), Step(i), Step(i)];
    FiveSteps(s, run, s1, s2, s3, s4);
  }

  lemma FiveSteps(s: Store, run: seq<Action>, s1: Store, s2: Store, s3: Store, s4: Store)
    requires |run| == 5
    requires Enabled(s, run[0]) && s1 == Apply(s, run[0]) && Enabled(s1, run[1]) && s2 == Apply(s1, run[1])
    requires Enabled(s2, run[2]) && s3 == Apply(s2, run[2]) && Enabled(s3, run[3]) && s4 == Apply(s3, run[3])
    requires Enabled(s4, run[4])
    ensures Legal(s, run) && Exec(s, run) == Apply(s4, run[4])
  {
    hide Enabled, Apply;
    assert run[4..] == [run[4]] && Legal(Apply(s4, run[4]), run[4..][1..]);
    assert Legal(s4, run[4..]) && Exec(s4, run[4..]) == Apply(s4, run[4]);
    assert run[3..][1..] == run[4..] && run[2..][1..] == run[3..] && run[1..][1..] == run[2..];
    assert Legal(s3, run[3..]) && Exec(s3, run[3..]) == Apply(s4, run[4]);
    assert Legal(s2, run[2..]) && Exec(s2, run[2..]) == Apply(s4, run[4]);
    assert Legal(s1, run[1..]) && Exec(s1, run[1..]) == Apply(s4, run[4]);
  }
}
