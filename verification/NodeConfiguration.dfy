/** Replaying the stored configuration: how often each stored row is handed to the handler. */
module NodeConfiguration {
  import opened Sequences
  import Repo = ChannelRepository

  type Row = Repo.Row
  type Visit = Repo.Visit
  type Name = Repo.Name

  function Described(descriptions: seq<Repo.Triple>): set<Repo.Triple> {
    set i | 0 <= i < |descriptions| :: descriptions[i]
  }

  lemma DescribedNext(descriptions: seq<Repo.Triple>, i: nat)
    requires i < |descriptions|
    ensures Described(descriptions[..i + 1]) == Described(descriptions[..i]) + {descriptions[i]}
  {
    var next := descriptions[..i + 1];
    forall t ensures t in Described(next) <==> t in Described(descriptions[..i]) || t == descriptions[i] {
      if k :| 0 <= k < i && descriptions[..i][k] == t {
        assert next[k] == t;
      }
      assert next[i] == descriptions[i];
    }
  }

  /** The protocols stored under a channel name. */
  function Protocols(rows: seq<Row>, name: Name): set<Name> {
    set i | 0 <= i < |rows| && rows[i].triple.name == name :: rows[i].triple.protocol
  }

  function RowsOf(visits: seq<Visit>): seq<Row> {
    if visits == [] then [] else RowsOf(visits[..|visits| - 1]) + [visits[|visits| - 1].row]
  }

  /** The rows handed out for a list of (name, protocol) pairs, in order. */
  function Passes(rows: seq<Row>, pairs: seq<(Name, Name)>): seq<Visit> {
    if pairs == [] then []
    else Passes(rows, pairs[..|pairs| - 1]) + Repo.Numbered(Repo.Named(rows, pairs[|pairs| - 1].0))
  }

  /** How many of the pairs carry the name. */
  function PairsNamed(pairs: seq<(Name, Name)>, name: Name): seq<(Name, Name)> {
    if pairs == [] then []
    else
      var last := pairs[|pairs| - 1];
      PairsNamed(pairs[..|pairs| - 1], name) + if last.0 == name then [last] else []
  }

  /** The pairs are the distinct (name, protocol) pairs of the rows, in any order. */
  ghost predicate Projects(pairs: seq<(Name, Name)>, rows: seq<Row>) {
    && NoDuplicates(pairs)
    && forall p :: p in pairs <==> exists i :: 0 <= i < |rows| && p == Repo.PairOf(rows[i])
  }

  class NodeConfiguration {
    const repository: Repo.ChannelRepository

    constructor (repository: Repo.ChannelRepository)
      ensures this.repository == repository
    {
      this.repository := repository;
    }

    method AddChannelMonitor(descriptions: seq<Repo.Triple>)
      requires repository.Valid()
      modifies repository
      ensures repository.Valid()
      ensures Repo.Triples(repository.rows) == old(Repo.Triples(repository.rows)) + Described(descriptions)
      ensures old(repository.rows) <= repository.rows
    {
      assert Described([]) == {};
      for i := 0 to |descriptions|
        invariant repository.Valid() && old(repository.rows) <= repository.rows
        invariant Repo.Triples(repository.rows) == old(Repo.Triples(repository.rows)) + Described(descriptions[..i])
      {
        DescribedNext(descriptions, i);
        repository.Insert(descriptions[i]);
      }
      assert descriptions[..|descriptions|] == descriptions;
    }

    /** As written in the source, this inserts the descriptions: nothing is ever removed here. */
    method RemoveChannelMonitor(descriptions: seq<Repo.Triple>)
      requires repository.Valid()
      modifies repository
      ensures repository.Valid()
      ensures Repo.Triples(repository.rows) == old(Repo.Triples(repository.rows)) + Described(descriptions)
      ensures old(repository.rows) <= repository.rows
    {
      assert Described([]) == {};
      for i := 0 to |descriptions|
        invariant repository.Valid() && old(repository.rows) <= repository.rows
        invariant Repo.Triples(repository.rows) == old(Repo.Triples(repository.rows)) + Described(descriptions[..i])
      {
        DescribedNext(descriptions, i);
        repository.Insert(descriptions[i]);
      }
      assert descriptions[..|descriptions|] == descriptions;
    }

    /**
      Hands every stored row to the handler exactly as many times as there are protocols stored under
      its name, whatever order the database lists the pairs in.
     */
    method IterateAllChannelMonitor() returns (visits: seq<Visit>)
      requires repository.Valid()
      ensures forall r :: r in repository.rows ==>
                multiset(RowsOf(visits))[r] == |Protocols(repository.rows, r.triple.name)|
      ensures forall r :: r in RowsOf(visits) ==> r in repository.rows
      ensures exists pairs :: Projects(pairs, repository.rows) && visits == Passes(repository.rows, pairs)
      ensures multiset(RowsOf(visits)) == multiset(repository.rows) <==> SingleProtocol(repository.rows)
    {
      hide Passes, RowsOf, SingleProtocol, Protocols;
      var pairs := repository.GetDistinctByNameProtocol();
      visits := [];
      PassesNothing(repository.rows);
      for i := 0 to |pairs|
        invariant visits == Passes(repository.rows, pairs[..i])
      {
        PassesNext(repository.rows, pairs, i);
        var pass := repository.ProcessAllChannelMonitor(pairs[i].0, pairs[i].1);
        visits := visits + pass;
      }
      assert pairs[..|pairs|] == pairs;
      EachRowPerProtocol(repository.rows, repository.nextId, pairs);
      OncePerRowExactlyWhenSingleProtocol(repository.rows, repository.nextId, pairs);
    }
  }

  lemma PassesNothing(rows: seq<Row>)
    ensures Passes(rows, []) == []
  {
  }

  lemma PassesNext(rows: seq<Row>, pairs: seq<(Name, Name)>, i: nat)
    requires i < |pairs|
    ensures Passes(rows, pairs[..i + 1]) == Passes(rows, pairs[..i]) + Repo.Numbered(Repo.Named(rows, pairs[i].0))
  {
    assert pairs[..i + 1][..i] == pairs[..i];
  }

  lemma {:induction false} RowsOfAppend(a: seq<Visit>, b: seq<Visit>)
    ensures RowsOf(a + b) == RowsOf(a) + RowsOf(b)
  {
    if b == [] {
      assert a + b == a;
    } else {
      assert (a + b)[..|a + b| - 1] == a + b[..|b| - 1];
      RowsOfAppend(a, b[..|b| - 1]);
    }
  }

  lemma {:induction false} RowsOfNumbered(rows: seq<Row>)
    ensures RowsOf(Repo.Numbered(rows)) == rows
  {
    if rows != [] {
      RowsOfNumbered(rows[..|rows| - 1]);
      assert Repo.Numbered(rows)[..|rows| - 1] == Repo.Numbered(rows[..|rows| - 1]);
    }
  }

  lemma {:induction false} NamedMultiplicity(rows: seq<Row>, name: Name, r: Row)
    ensures multiset(Repo.Named(rows, name))[r] == if r.triple.name == name then multiset(rows)[r] else 0
  {
    if rows != [] {
      assert rows == rows[..|rows| - 1] + [rows[|rows| - 1]];
      NamedMultiplicity(rows[..|rows| - 1], name, r);
    }
  }

  lemma PassMultiplicity(rows: seq<Row>, name: Name, r: Row)
    requires NoDuplicates(rows)
    ensures multiset(RowsOf(Repo.Numbered(Repo.Named(rows, name))))[r] ==
            if r in rows && r.triple.name == name then 1 else 0
  {
    RowsOfNumbered(Repo.Named(rows, name));
    NamedMultiplicity(rows, name, r);
    DistinctMultiplicity(rows, r);
  }

  /** Each pass over a name hands out its rows once. */
  lemma {:induction false} PassesMultiplicity(rows: seq<Row>, pairs: seq<(Name, Name)>, r: Row)
    requires NoDuplicates(rows)
    ensures multiset(RowsOf(Passes(rows, pairs)))[r] == if r in rows then |PairsNamed(pairs, r.triple.name)| else 0
  {
    if pairs == [] {
      assert Passes(rows, pairs) == [];
    } else {
      var before, last := pairs[..|pairs| - 1], pairs[|pairs| - 1];
      var pass := Repo.Numbered(Repo.Named(rows, last.0));
      PassesMultiplicity(rows, before, r);
      assert Passes(rows, pairs) == Passes(rows, before) + pass;
      assert |PairsNamed(pairs, r.triple.name)| == |PairsNamed(before, r.triple.name)| +
          if last.0 == r.triple.name then 1 else 0;
      PassAdded(Passes(rows, before), pass, r);
      PassMultiplicity(rows, last.0, r);
    }
  }

  lemma PassAdded(visits: seq<Visit>, pass: seq<Visit>, r: Row)
    ensures multiset(RowsOf(visits + pass))[r] == multiset(RowsOf(visits))[r] + multiset(RowsOf(pass))[r]
  {
    RowsOfAppend(visits, pass);
  }

  lemma {:induction false} PairsNamedFilters(pairs: seq<(Name, Name)>, name: Name)
    requires NoDuplicates(pairs)
    ensures NoDuplicates(PairsNamed(pairs, name))
    ensures forall p :: p in PairsNamed(pairs, name) <==> p in pairs && p.0 == name
  {
    if pairs != [] {
      var n := |pairs| - 1;
      PairsNamedFilters(pairs[..n], name);
      assert pairs == pairs[..n] + [pairs[n]];
      assert pairs[n] !in pairs[..n];
    }
  }

  lemma OneNamedPairPerProtocol(rows: seq<Row>, pairs: seq<(Name, Name)>, name: Name)
    requires Projects(pairs, rows)
    ensures |PairsNamed(pairs, name)| == |Protocols(rows, name)|
  {
    PairsNamedFilters(pairs, name);
    var named := PairsNamed(pairs, name);
    var protocols := Seconds(named);
    forall x ensures x in protocols <==> x in Protocols(rows, name) {
      if x in Protocols(rows, name) {
        var i :| 0 <= i < |rows| && rows[i].triple.name == name && rows[i].triple.protocol == x;
        assert (name, x) == Repo.PairOf(rows[i]) && (name, x) in named;
        var k :| 0 <= k < |named| && named[k] == (name, x);
        assert protocols[k] == x;
      }
      if x in protocols {
        var k :| 0 <= k < |protocols| && protocols[k] == x;
        assert named[k] in named && named[k] == (name, x);
      }
    }
    forall i, j | 0 <= i < j < |protocols| ensures protocols[i] != protocols[j] {
      assert named[i] in named && named[j] in named;
    }
    DistinctCardinality(protocols, Protocols(rows, name));
  }

  function Seconds(pairs: seq<(Name, Name)>): (r: seq<Name>)
    ensures |r| == |pairs| && forall i :: 0 <= i < |r| ==> r[i] == pairs[i].1
  {
    if pairs == [] then [] else [pairs[0].1] + Seconds(pairs[1..])
  }

  lemma EachRowPerProtocol(rows: seq<Row>, nextId: nat, pairs: seq<(Name, Name)>)
    requires Repo.Sound(rows, nextId) && Projects(pairs, rows)
    ensures forall r :: multiset(RowsOf(Passes(rows, pairs)))[r] ==
              if r in rows then |Protocols(rows, r.triple.name)| else 0
  {
    forall r
      ensures multiset(RowsOf(Passes(rows, pairs)))[r] == if r in rows then |Protocols(rows, r.triple.name)| else 0
    {
      PassesMultiplicity(rows, pairs, r);
      OneNamedPairPerProtocol(rows, pairs, r.triple.name);
    }
  }

  /** No channel name is stored under two protocols. */
  ghost predicate SingleProtocol(rows: seq<Row>) {
    forall i, j :: 0 <= i < |rows| && 0 <= j < |rows| && rows[i].triple.name == rows[j].triple.name ==>
      rows[i].triple.protocol == rows[j].triple.protocol
  }

  lemma SingleProtocolCounts(rows: seq<Row>)
    ensures SingleProtocol(rows) <==> forall i :: 0 <= i < |rows| ==> |Protocols(rows, rows[i].triple.name)| == 1
  {
    if SingleProtocol(rows) {
      forall i | 0 <= i < |rows| ensures |Protocols(rows, rows[i].triple.name)| == 1 {
        assert Protocols(rows, rows[i].triple.name) == {rows[i].triple.protocol};
      }
    } else {
      var i, j :| 0 <= i < |rows| && 0 <= j < |rows| && rows[i].triple.name == rows[j].triple.name
                  && rows[i].triple.protocol != rows[j].triple.protocol;
      var protocols := Protocols(rows, rows[i].triple.name);
      if |protocols| == 1 {
        SingletonEqual(protocols, rows[i].triple.protocol, rows[j].triple.protocol);
        assert false;
      }
    }
  }

  /** Every row is handed out exactly once if and only if no name is stored under two protocols. */
  lemma OncePerRowExactlyWhenSingleProtocol(rows: seq<Row>, nextId: nat, pairs: seq<(Name, Name)>)
    requires Repo.Sound(rows, nextId) && Projects(pairs, rows)
    ensures multiset(RowsOf(Passes(rows, pairs))) == multiset(rows) <==> SingleProtocol(rows)
  {
    hide Passes, RowsOf, Protocols, SingleProtocol;
    EachRowPerProtocol(rows, nextId, pairs);
    SingleProtocolCounts(rows);
    var visited := multiset(RowsOf(Passes(rows, pairs)));
    forall r ensures multiset(rows)[r] == if r in rows then 1 else 0 {
      DistinctMultiplicity(rows, r);
    }
    if visited == multiset(rows) {
      forall i | 0 <= i < |rows| ensures |Protocols(rows, rows[i].triple.name)| == 1 {
        assert rows[i] in rows && visited[rows[i]] == 1;
      }
    }
  }

  lemma SingletonEqual(s: set<Name>, a: Name, b: Name)
    requires |s| == 1 && a in s && b in s
    ensures a == b
  {
    assert |s - {a}| == 0;
  }
}
