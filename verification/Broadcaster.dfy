/** The weak list of event handlers: a handler is called while its token is alive. */
module Broadcaster {
  import opened Sequences

  /** A registration; tokens and their handlers share one identity. */
  type Handler = nat

  /** The tokens that the body of each handler drops when it runs. */
  type Effects = map<Handler, set<Handler>>

  function Drops(effects: Effects, h: Handler): set<Handler> {
    if h in effects then effects[h] else {}
  }

  /** The tokens left after the target `h` has had its turn. */
  function After(h: Handler, live: set<Handler>, effects: Effects): set<Handler> {
    if h in live then live - Drops(effects, h) else live
  }

  /** The handlers called by one pass over `targets`, in order. */
  function Calls(targets: seq<Handler>, live: set<Handler>, effects: Effects): seq<Handler> {
    if targets == [] then []
    else
      (if targets[0] in live then [targets[0]] else []) +
      Calls(targets[1..], After(targets[0], live, effects), effects)
  }

  /** The tokens alive after one pass. */
  function Remaining(targets: seq<Handler>, live: set<Handler>, effects: Effects): set<Handler> {
    if targets == [] then live else Remaining(targets[1..], After(targets[0], live, effects), effects)
  }

  /** The body of `h` drops the token of `victim`. */
  predicate DropsToken(effects: Effects, h: Handler, victim: Handler) { h in effects && victim in effects[h] }

  /** No handler that was called before position `i` has dropped the token of the target at `i`. */
  ghost predicate Spared(targets: seq<Handler>, calls: seq<Handler>, effects: Effects, i: nat)
    requires i < |targets|
  {
    forall j :: 0 <= j < i && targets[j] in calls ==> !DropsToken(effects, targets[j], targets[i])
  }

  /**
    A pass calls exactly the handlers that are alive at their turn: those alive at the start whose
    token no handler called earlier in the pass has dropped.
   */
  lemma {:induction false} PassCallsLiveHandlers(targets: seq<Handler>, live: set<Handler>, effects: Effects)
    requires NoDuplicates(targets)
    ensures var calls := Calls(targets, live, effects);
      forall i {:trigger targets[i]} :: 0 <= i < |targets| ==>
        (targets[i] in calls <==> targets[i] in live && Spared(targets, calls, effects, i))
  {
    if targets != [] {
      var h, tail := targets[0], targets[1..];
      var after := After(h, live, effects);
      PassCallsLiveHandlers(tail, after, effects);
      PassWithin(tail, after, effects);
      var calls, rest := Calls(targets, live, effects), Calls(tail, after, effects);
      forall i | 0 <= i < |targets|
        ensures targets[i] in calls <==> targets[i] in live && Spared(targets, calls, effects, i)
      {
        if i > 0 {
          assert tail[i - 1] == targets[i] != h;
          assert forall j :: 0 < j < i ==> targets[j] == tail[j - 1] != h;
          assert Spared(targets, calls, effects, i) <==>
            (h in live ==> targets[i] !in Drops(effects, h)) && Spared(tail, rest, effects, i - 1);
        }
      }
    }
  }

  /** None of the handlers called drops the token. */
  ghost predicate Kept(effects: Effects, calls: seq<Handler>, h: Handler) {
    forall k :: 0 <= k < |calls| ==> !DropsToken(effects, calls[k], h)
  }

  lemma KeptCons(effects: Effects, first: Handler, rest: seq<Handler>, h: Handler)
    ensures Kept(effects, [first] + rest, h) <==> !DropsToken(effects, first, h) && Kept(effects, rest, h)
  {
    var all := [first] + rest;
    assert all[0] == first && forall k :: 0 <= k < |rest| ==> all[k + 1] == rest[k];
  }

  /** A pass leaves exactly the tokens that no handler it called has dropped. */
  lemma {:induction false} PassLeaves(targets: seq<Handler>, live: set<Handler>, effects: Effects)
    ensures forall h :: h in Remaining(targets, live, effects) <==>
              h in live && Kept(effects, Calls(targets, live, effects), h)
  {
    if targets != [] {
      var first, tail := targets[0], targets[1..];
      var after := After(first, live, effects);
      PassLeaves(tail, after, effects);
      forall h ensures h in Remaining(targets, live, effects) <==>
          h in live && Kept(effects, Calls(targets, live, effects), h)
      {
        KeptCons(effects, first, Calls(tail, after, effects), h);
        assert [] + Calls(tail, after, effects) == Calls(tail, after, effects);
      }
    }
  }

  /** Calls are made in list order, each at most once. */
  lemma {:induction false} PassKeepsOrder(targets: seq<Handler>, live: set<Handler>, effects: Effects)
    requires NoDuplicates(targets)
    ensures var calls := Calls(targets, live, effects);
      NoDuplicates(calls) && calls == Filter(targets, set h | h in calls)
  {
    if targets != [] {
      var h, tail := targets[0], targets[1..];
      var after := After(h, live, effects);
      PassKeepsOrder(tail, after, effects);
      PassWithin(tail, after, effects);
      var calls, rest := Calls(targets, live, effects), Calls(tail, after, effects);
      FilterAgrees(tail, set x | x in calls, set x | x in rest);
      assert h !in rest;
      PrependDistinct(h, rest);
    }
  }

  lemma {:induction false} PassWithin(targets: seq<Handler>, live: set<Handler>, effects: Effects)
    ensures forall h :: h in Calls(targets, live, effects) ==> h in targets && h in live
    ensures Remaining(targets, live, effects) <= live
  {
    if targets != [] {
      PassWithin(targets[1..], After(targets[0], live, effects), effects);
    }
  }

  lemma {:induction false} FilterAgrees(s: seq<Handler>, a: set<Handler>, b: set<Handler>)
    requires forall x :: x in s ==> (x in a <==> x in b)
    ensures Filter(s, a) == Filter(s, b)
  {
    if s != [] {
      FilterAgrees(s[1..], a, b);
    }
  }

  lemma RegisterKeeps(s: seq<Handler>, h: Handler, live: set<Handler>)
    requires NoDuplicates(s) && h !in s
    ensures NoDuplicates(s + [h])
    ensures Filter(s + [h], live + {h}) == Filter(s, live) + [h]
  {
    AppendDistinct(s, h);
    FilterAppend(s, [h], live + {h});
    FilterAgrees(s, live + {h}, live);
  }

  /** Dead targets can be skipped or purged first; a pass behaves the same. */
  lemma {:induction false} PassIgnoresDead(targets: seq<Handler>, keep: set<Handler>, live: set<Handler>,
      effects: Effects)
    requires live <= keep
    ensures Calls(Filter(targets, keep), live, effects) == Calls(targets, live, effects)
    ensures Remaining(Filter(targets, keep), live, effects) == Remaining(targets, live, effects)
  {
    if targets != [] {
      var h := targets[0];
      PassIgnoresDead(targets[1..], keep, After(h, live, effects), effects);
      if h in keep {
        var kept := Filter(targets, keep);
        assert kept == [h] + Filter(targets[1..], keep) && kept[0] == h && kept[1..] == Filter(targets[1..], keep);
        assert Calls(kept, live, effects) == (if h in live then [h] else []) +
            Calls(kept[1..], After(h, live, effects), effects);
        assert Calls(targets, live, effects) == (if h in live then [h] else []) +
            Calls(targets[1..], After(h, live, effects), effects);
      } else {
        assert Filter(targets, keep) == Filter(targets[1..], keep);
        assert Calls(targets, live, effects) == Calls(targets[1..], live, effects);
      }
    }
  }

  lemma TakeTurn(done: seq<Handler>, targets: seq<Handler>, i: nat, live: set<Handler>, effects: Effects)
    requires i < |targets|
    ensures var h := targets[i];
      && done + Calls(targets[i..], live, effects)
         == done + (if h in live then [h] else []) + Calls(targets[i + 1..], After(h, live, effects), effects)
      && Remaining(targets[i..], live, effects) == Remaining(targets[i + 1..], After(h, live, effects), effects)
  {
    assert targets[i..][1..] == targets[i + 1..];
  }

  /**
    `registered` and `calls` are history: every registration in order, and every call made. `live`
    is the set of tokens somebody still holds.
   */
  class Broadcaster {
    var targets: seq<Handler>
    ghost var registered: seq<Handler>
    ghost var live: set<Handler>
    ghost var calls: seq<Handler>

    /** The target list holds every live registration, in registration order, and possibly some dead ones. */
    ghost predicate Valid()
      reads this
    {
      && NoDuplicates(registered)
      && NoDuplicates(targets)
      && Filter(targets, live) == Filter(registered, live)
      && (forall h :: h in live ==> h in registered)
      && (forall h :: h in targets ==> h in registered)
    }

    constructor ()
      ensures Valid() && registered == [] && live == {} && calls == []
    {
      targets, registered, live, calls := [], [], {}, [];
    }

    method RegisterHandler(h: Handler)
      requires Valid() && h !in registered
      modifies this
      ensures Valid()
      ensures registered == old(registered) + [h] && live == old(live) + {h} && calls == old(calls)
      ensures targets == old(targets) + [h]
    {
      RegisterKeeps(targets, h, live);
      RegisterKeeps(registered, h, live);
      targets := targets + [h];
      registered, live := registered + [h], live + {h};
    }

    /** The holder of a token lets it go. */
    ghost method DropTokens(dropped: set<Handler>)
      requires Valid()
      modifies this`live
      ensures Valid()
      ensures live == old(live) - dropped
    {
      FilterTwice(targets, live, live - dropped);
      FilterTwice(registered, live, live - dropped);
      live := live - dropped;
    }

    /** `alive` answers expired(): the tokens held now. */
    method Purge(alive: set<Handler>)
      requires Valid() && alive == live
      modifies this`targets
      ensures Valid()
      ensures targets == Filter(registered, live)
    {
      var kept: seq<Handler> := [];
      for i := 0 to |targets|
        invariant targets == old(targets)
        invariant kept == Filter(targets[..i], alive)
      {
        FilterAppend(targets[..i], [targets[i]], alive);
        assert targets[..i + 1] == targets[..i] + [targets[i]];
        if targets[i] in alive {
          kept := kept + [targets[i]];
        }
      }
      assert targets[..|targets|] == targets;
      FilterDistinct(targets, alive);
      FilterTwice(targets, live, live);
      targets := kept;
    }

    /**
      Calls what one pass over all live registrations would call. Handlers may drop tokens, their own
      or others', but do not register new handlers.
     */
    method Broadcast(alive: set<Handler>, effects: Effects)
      requires Valid() && alive == live
      modifies this
      ensures Valid()
      ensures registered == old(registered) && targets == Filter(registered, old(live))
      ensures calls == old(calls) + Calls(old(registered), old(live), effects)
      ensures live == Remaining(old(registered), old(live), effects)
    {
      PassIgnoresDead(registered, live, live, effects);
      Purge(alive);
      CallTargets(alive, effects);
    }

    method CallTargets(alive: set<Handler>, effects: Effects)
      requires Valid() && alive == live
      modifies this`live, this`calls
      ensures Valid()
      ensures calls == old(calls) + Calls(targets, old(live), effects)
      ensures live == Remaining(targets, old(live), effects)
    {
      var turns, current := targets, alive;
      ghost var allCalls, allLeft := calls + Calls(turns, alive, effects), Remaining(turns, alive, effects);
      assert turns[0..] == turns;
      for i := 0 to |turns|
        invariant Valid() && current == live
        invariant calls + Calls(turns[i..], current, effects) == allCalls
        invariant Remaining(turns[i..], current, effects) == allLeft
      {
        TakeTurn(calls, turns, i, current, effects);
        if turns[i] in current {
          Call(turns[i], effects);
          current := current - Drops(effects, turns[i]);
        }
      }
    }

    /** One handler runs; `effects` says whose tokens its body drops. */
    ghost method Call(h: Handler, effects: Effects)
      requires Valid() && h in live
      modifies this`live, this`calls
      ensures Valid()
      ensures live == old(live) - Drops(effects, h) && calls == old(calls) + [h]
    {
      calls := calls + [h];
      DropTokens(Drops(effects, h));
    }
  }
}
