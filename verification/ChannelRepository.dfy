/** The persisted table of monitored channels, as rows and as the set of triples it stands for. */
module ChannelRepository {
  import opened Sequences

  type Name = string

  /** A stored triple; what callers pass in, where the row id is not yet known. */
  datatype Triple = Triple(name: Name, protocol: Name, destination: Name)

  datatype Row = Row(id: nat, triple: Triple)

  function Triples(rows: seq<Row>): set<Triple> {
    set i | 0 <= i < |rows| :: rows[i].triple
  }

  /** No two rows share name, protocol and destination. */
  ghost predicate NoRepeats(rows: seq<Row>) {
    forall i, j :: 0 <= i < j < |rows| ==> rows[i].triple != rows[j].triple
  }

  /** Row ids are assigned in increasing order, below `nextId`. */
  ghost predicate OrderedIds(rows: seq<Row>, nextId: nat) {
    && (forall i, j :: 0 <= i < j < |rows| ==> rows[i].id < rows[j].id)
    && (forall i :: 0 <= i < |rows| ==> rows[i].id < nextId)
  }

  ghost predicate Sound(rows: seq<Row>, nextId: nat) {
    NoRepeats(rows) && OrderedIds(rows, nextId)
  }

  function CountOf(rows: seq<Row>, t: Triple): (n: nat)
    ensures n == 0 <==> t !in Triples(rows)
  {
    if rows == [] then 0
    else
      assert Triples(rows) == {rows[0].triple} + Triples(rows[1..]) by { TriplesCons(rows); }
      (if rows[0].triple == t then 1 else 0) + CountOf(rows[1..], t)
  }

  lemma TriplesCons(rows: seq<Row>)
    requires rows != []
    ensures Triples(rows) == {rows[0].triple} + Triples(rows[1..])
  {
    forall t ensures t in Triples(rows) <==> t == rows[0].triple || t in Triples(rows[1..]) {
      if t in Triples(rows) && t != rows[0].triple {
        var i :| 0 <= i < |rows| && rows[i].triple == t;
        assert rows[1..][i - 1] == rows[i];
      }
      if t in Triples(rows[1..]) {
        var i :| 0 <= i < |rows[1..]| && rows[1..][i].triple == t;
        assert rows[i + 1] == rows[1..][i];
      }
    }
  }

  lemma TriplesAppend(rows: seq<Row>, r: Row)
    ensures Triples(rows + [r]) == Triples(rows) + {r.triple}
  {
    var all := rows + [r];
    forall t ensures t in Triples(all) <==> t in Triples(rows) || t == r.triple {
      if t in Triples(rows) {
        var i :| 0 <= i < |rows| && rows[i].triple == t;
        assert all[i].triple == t;
      }
      assert all[|rows|] == r;
    }
  }

  /** remove_all with a condition on the triple. */
  function Without(rows: seq<Row>, t: Triple): seq<Row> {
    if rows == [] then [] else (if rows[0].triple == t then [] else [rows[0]]) + Without(rows[1..], t)
  }

  lemma {:induction false} WithoutRows(rows: seq<Row>, t: Triple)
    ensures forall r :: r in Without(rows, t) <==> r in rows && r.triple != t
  {
    if rows != [] {
      WithoutRows(rows[1..], t);
      assert rows == [rows[0]] + rows[1..];
    }
  }

  lemma {:induction false} WithoutSound(rows: seq<Row>, t: Triple, nextId: nat)
    requires Sound(rows, nextId)
    ensures Sound(Without(rows, t), nextId)
  {
    if rows != [] {
      WithoutSound(rows[1..], t, nextId);
      WithoutRows(rows[1..], t);
      assert rows == [rows[0]] + rows[1..];
      SoundCons(rows[0], rows[1..], Without(rows[1..], t), nextId);
    }
  }

  lemma SoundCons(first: Row, rows: seq<Row>, kept: seq<Row>, nextId: nat)
    requires Sound([first] + rows, nextId) && Sound(kept, nextId)
    requires forall r :: r in kept ==> r in rows
    ensures Sound([first] + kept, nextId)
  {
    assert ([first] + rows)[0] == first;
    forall i | 0 <= i < |kept| ensures first.id < kept[i].id && first.triple != kept[i].triple {
      assert kept[i] in kept;
      var k :| 0 <= k < |rows| && rows[k] == kept[i];
      assert ([first] + rows)[k + 1] == kept[i];
    }
  }

  lemma WithoutRemoves(rows: seq<Row>, t: Triple)
    ensures Triples(Without(rows, t)) == Triples(rows) - {t}
  {
    WithoutRows(rows, t);
    forall x ensures x in Triples(Without(rows, t)) <==> x in Triples(rows) && x != t {
      if x in Triples(rows) && x != t {
        var i :| 0 <= i < |rows| && rows[i].triple == x;
        assert rows[i] in Without(rows, t);
      }
      if x in Triples(Without(rows, t)) {
        var i :| 0 <= i < |Without(rows, t)| && Without(rows, t)[i].triple == x;
        assert Without(rows, t)[i] in rows;
      }
    }
  }

  /** The (name, protocol) pairs in order of first appearance. */
  function Distinct(rows: seq<Row>): seq<(Name, Name)> {
    if rows == [] then []
    else
      var before := Distinct(rows[..|rows| - 1]);
      var pair := PairOf(rows[|rows| - 1]);
      if pair in before then before else before + [pair]
  }

  function PairOf(r: Row): (Name, Name) { (r.triple.name, r.triple.protocol) }

  /** Rows of one name; the query takes a protocol too but does not use it. */
  function Named(rows: seq<Row>, name: Name): seq<Row> {
    if rows == [] then []
    else Named(rows[..|rows| - 1], name) + if rows[|rows| - 1].triple.name == name then [rows[|rows| - 1]] else []
  }

  /** Exactly the rows of the name, in table order. */
  lemma {:induction false} NamedInOrder(rows: seq<Row>, name: Name, nextId: nat)
    ensures forall r :: r in Named(rows, name) <==> r in rows && r.triple.name == name
    ensures OrderedIds(rows, nextId) ==> OrderedIds(Named(rows, name), nextId)
  {
    if rows != [] {
      var n := |rows| - 1;
      assert rows == rows[..n] + [rows[n]];
      NamedInOrder(rows[..n], name, rows[n].id);
      NamedStep(rows, name);
      var before := Named(rows[..n], name);
      hide Named;
      if OrderedIds(rows, nextId) && rows[n].triple.name == name {
        assert OrderedIds(rows[..n], rows[n].id);
        OrderedAppend(before, rows[n], nextId);
      }
    }
  }

  lemma NamedStep(rows: seq<Row>, name: Name)
    requires rows != []
    ensures var n := |rows| - 1;
      Named(rows, name) ==
      if rows[n].triple.name == name then Named(rows[..n], name) + [rows[n]] else Named(rows[..n], name)
  {
  }

  lemma OrderedAppend(rows: seq<Row>, r: Row, nextId: nat)
    requires OrderedIds(rows, r.id) && r.id < nextId
    ensures OrderedIds(rows + [r], nextId)
  {
  }

  lemma NumberedShape(rows: seq<Row>, visits: seq<Visit>)
    requires visits == Numbered(rows)
    ensures forall r :: r in rows <==> exists i :: 0 <= i < |visits| && visits[i].row == r
    ensures forall i :: 0 <= i < |visits| ==> visits[i].index == i % INDEX_VALUES
    ensures forall i, j :: 0 <= i < j < |visits| && rows[i].id < rows[j].id ==> visits[i].row.id < visits[j].row.id
  {
    forall r | r in rows ensures exists i :: 0 <= i < |visits| && visits[i].row == r {
      var i :| 0 <= i < |rows| && rows[i] == r;
      assert visits[i].row == r;
    }
  }

  /** A call of a row handler. */
  datatype Visit = Visit(index: nat, row: Row)

  /** Row indices are of type uint32_t. */
  const INDEX_VALUES: nat := 0x1_0000_0000

  function Numbered(rows: seq<Row>): (r: seq<Visit>)
    ensures |r| == |rows|
    ensures forall i :: 0 <= i < |r| ==> r[i] == Visit(i % INDEX_VALUES, rows[i])
  {
    if rows == [] then []
    else
      var n := |rows| - 1;
      Numbered(rows[..n]) + [Visit(n % INDEX_VALUES, rows[n])]
  }

  lemma NamedNothing(name: Name)
    ensures Numbered(Named([], name)) == []
  {
  }

  lemma NamedNext(rows: seq<Row>, name: Name, i: nat)
    requires i < |rows|
    ensures Named(rows[..i + 1], name) ==
            if rows[i].triple.name == name then Named(rows[..i], name) + [rows[i]] else Named(rows[..i], name)
  {
    assert rows[..i + 1][..i] == rows[..i];
  }

  lemma NumberedNext(rows: seq<Row>, r: Row)
    ensures Numbered(rows + [r]) == Numbered(rows) + [Visit(|rows| % INDEX_VALUES, r)]
  {
    assert (rows + [r])[..|rows|] == rows;
  }

  lemma IndexNext(n: nat)
    ensures (n % INDEX_VALUES + 1) % INDEX_VALUES == (n + 1) % INDEX_VALUES
  {
  }

  class ChannelRepository {
    var rows: seq<Row>
    var nextId: nat

    ghost predicate Valid()
      reads this
    {
      Sound(rows, nextId)
    }

    constructor ()
      ensures Valid() && rows == []
    {
      rows, nextId := [], 1;
    }

    /** Adds the triple to the set, and nothing else. */
    method Insert(t: Triple)
      requires Valid()
      modifies this
      ensures Valid()
      ensures Triples(rows) == old(Triples(rows)) + {t}
      ensures t in old(Triples(rows)) ==> rows == old(rows)
      ensures t !in old(Triples(rows)) ==> rows == old(rows) + [Row(old(nextId), t)]
    {
      var found := CountOf(rows, t);
      if found == 0 {
        assert forall i :: 0 <= i < |rows| ==> rows[i].triple in Triples(rows);
        TriplesAppend(rows, Row(nextId, t));
        rows, nextId := rows + [Row(nextId, t)], nextId + 1;
      }
    }

    method Remove(t: Triple)
      requires Valid()
      modifies this`rows
      ensures Valid()
      ensures Triples(rows) == old(Triples(rows)) - {t}
      ensures forall r :: r in rows <==> r in old(rows) && r.triple != t
    {
      WithoutRows(rows, t);
      WithoutSound(rows, t, nextId);
      WithoutRemoves(rows, t);
      rows := Without(rows, t);
    }

    method RemoveAll()
      requires Valid()
      modifies this`rows
      ensures Valid() && rows == [] && Triples(rows) == {}
    {
      rows := [];
    }

    method IsPresent(t: Triple) returns (r: bool)
      ensures r <==> t in Triples(rows)
    {
      r := CountOf(rows, t) != 0;
    }

    /** The stored row of the triple, if there is one; a table without repeats has at most one. */
    method GetChannelMonitor(t: Triple) returns (r: Option<Row>)
      requires Valid()
      ensures r.Some? <==> t in Triples(rows)
      ensures r.Some? ==> r.value in rows && r.value.triple == t
      ensures r.Some? ==> forall row :: row in rows && row.triple == t ==> row == r.value
    {
      for i := 0 to |rows|
        invariant forall j :: 0 <= j < i ==> rows[j].triple != t
      {
        if rows[i].triple == t {
          assert rows[i].triple in Triples(rows);
          return Some(rows[i]);
        }
      }
      r := None;
    }

    /** The duplicate-free projection; the database may list it in any order. */
    method GetDistinctByNameProtocol() returns (r: seq<(Name, Name)>)
      ensures NoDuplicates(r)
      ensures forall p :: p in r <==> exists i :: 0 <= i < |rows| && p == PairOf(rows[i])
    {
      DistinctProjects(rows);
      r := Distinct(rows);
    }

    /** Calls the handler on every row of the name, numbering the calls from 0. */
    method ProcessAllChannelMonitor(name: Name, protocol: Name) returns (visits: seq<Visit>)
      ensures visits == Numbered(Named(rows, name))
      ensures forall r :: r in rows && r.triple.name == name <==> exists i :: 0 <= i < |visits| && visits[i].row == r
      ensures Valid() ==> forall i, j :: 0 <= i < j < |visits| ==> visits[i].row.id < visits[j].row.id
      ensures forall i :: 0 <= i < |visits| ==> visits[i].index == i % INDEX_VALUES
    {
      visits := Visits(name);
      NamedInOrder(rows, name, nextId);
      NumberedShape(Named(rows, name), visits);
    }

    method Visits(name: Name) returns (visits: seq<Visit>)
      ensures visits == Numbered(Named(rows, name))
    {
      hide Named, Numbered;
      NamedNothing(name);
      visits := [];
      var idx := 0;
      for i := 0 to |rows|
        invariant visits == Numbered(Named(rows[..i], name)) && idx == |visits| % INDEX_VALUES
      {
        NamedNext(rows, name, i);
        if rows[i].triple.name == name {
          NumberedNext(Named(rows[..i], name), rows[i]);
          IndexNext(|visits|);
          visits := visits + [Visit(idx, rows[i])];
          idx := (idx + 1) % INDEX_VALUES;
        }
      }
      assert rows[..|rows|] == rows;
    }
  }

  lemma {:induction false} DistinctProjects(rows: seq<Row>)
    ensures NoDuplicates(Distinct(rows))
    ensures forall p :: p in Distinct(rows) <==> exists i :: 0 <= i < |rows| && p == PairOf(rows[i])
  {
    if rows != [] {
      var n := |rows| - 1;
      DistinctProjects(rows[..n]);
      forall p ensures p in Distinct(rows) <==> exists i :: 0 <= i < |rows| && p == PairOf(rows[i]) {
        if i :| 0 <= i < |rows| && p == PairOf(rows[i]) {
          if i < n {
            assert p == PairOf(rows[..n][i]);
          }
        }
      }
    }
  }
}
