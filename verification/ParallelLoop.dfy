/** Loops split over the pool: every completion order gives what the sequential loop gives. */
module ParallelLoop {
  import opened Sequences
  import opened Blocks
  import opened ThreadPool
  import opened ThreadPoolSafety
  import opened ThreadPoolWaiting

  /** The arguments of one block task. */
  datatype Span = Span(start: int, end: int)

  /** Non-empty spans that follow each other from lo to hi; none at all when the range is empty. */
  ghost predicate Tiles(spans: seq<Span>, lo: int, hi: int) {
    if spans == [] then lo == hi
    else
      var last := spans[|spans| - 1];
      lo <= last.start < last.end == hi && Tiles(spans[..|spans| - 1], lo, last.start)
  }

  lemma NothingTiles(lo: int)
    ensures Tiles([], lo, lo)
  {
  }

  lemma TilesNext(spans: seq<Span>, lo: int, span: Span)
    requires Tiles(spans, lo, span.start) && lo <= span.start < span.end
    ensures Tiles(spans + [span], lo, span.end)
  {
    assert (spans + [span])[..|spans|] == spans;
  }

  /** The arguments of all blocks. */
  function Spans(d: Division, n: nat): (r: seq<Span>)
    requires d.Blocks?
    ensures |r| == n && forall i :: 0 <= i < n ==> r[i] == Span(d.Start(i), d.End(i))
  {
    if n == 0 then [] else Spans(d, n - 1) + [Span(d.Start(n - 1), d.End(n - 1))]
  }

  lemma {:induction false} SpansTile(d: Division, lo: int, hi: int, wanted: nat, n: nat)
    requires d.Blocks? && n <= d.numBlocks
    ensures Partitions(d, lo, hi, wanted) && lo < hi ==>
              Tiles(Spans(d, n), lo, if n == 0 then lo else d.End(n - 1))
  {
    if n == 0 {
      NothingTiles(lo);
    } else if Partitions(d, lo, hi, wanted) && lo < hi {
      SpansTile(d, lo, hi, wanted, n - 1);
      assert n > 1 ==> d.End(n - 2) == d.Start(n - 1);
      TilesNext(Spans(d, n - 1), lo, Span(d.Start(n - 1), d.End(n - 1)));
    }
  }

  lemma SpansShape(d: Division, lo: int, hi: int, wanted: nat)
    requires d.Blocks?
    ensures var spans := Spans(d, d.numBlocks);
      Partitions(d, lo, hi, wanted) && lo < hi ==>
        && Tiles(spans, lo, hi)
        && forall i :: 0 <= i < |spans| - 1 ==> spans[i].end - spans[i].start == spans[0].end - spans[0].start
  {
    hide Tiles;
    SpansTile(d, lo, hi, wanted, d.numBlocks);
    var spans := Spans(d, d.numBlocks);
    if Partitions(d, lo, hi, wanted) && lo < hi {
      forall i | 0 <= i < |spans| - 1 ensures spans[i].end - spans[i].start == d.blockSize {
        assert d.End(i) - d.Start(i) == d.blockSize;
      }
    }
  }

  /** push_loop and, for what it submits, parallelize_loop. */
  method PushLoop(t: IndexType, first: int, afterLast: int, numBlocks: nat, threadCount: nat)
    returns (pushed: seq<Span>, overflow: bool)
    requires numBlocks < SIZE && 0 < threadCount < SIZE
    ensures var a, b := Cast(t, first), Cast(t, afterLast);
      && (overflow <==> High(a, b) - Low(a, b) > Greatest(t))
      && (!overflow ==> Tiles(pushed, Low(a, b), High(a, b)))
    ensures var wanted := if numBlocks > 0 then numBlocks else threadCount;
      var a, b := Cast(t, first), Cast(t, afterLast);
      var total := High(a, b) - Low(a, b);
      && |pushed| <= wanted
      && (!overflow ==> |pushed| == if wanted <= total then wanted else total)
    ensures forall i :: 0 <= i < |pushed| - 1 ==>
              pushed[i].end - pushed[i].start == pushed[0].end - pushed[0].start
  {
    hide Tiles, Cast;
    pushed := [];
    var wanted := if numBlocks > 0 then numBlocks else threadCount;
    var blks := Divide(t, first, afterLast, wanted);
    if blks.Overflow? {
      return [], true;
    }
    overflow := false;
    ghost var a, b := Cast(t, first), Cast(t, afterLast);
    if blks.totalSize > 0 {
      for i := 0 to blks.numBlocks
        invariant pushed == Spans(blks, i)
      {
        pushed := pushed + [Span(blks.Start(i), blks.End(i))];
      }
      SpansShape(blks, Low(a, b), High(a, b), wanted);
    } else {
      NothingTiles(Low(a, b));
    }
  }

  /** The indices of the sequential loop. */
  function Indices(lo: int, hi: int): (r: seq<int>)
    decreases hi - lo
    ensures |r| == if lo < hi then hi - lo else 0
    ensures forall i :: 0 <= i < |r| ==> r[i] == lo + i
  {
    if lo < hi then [lo] + Indices(lo + 1, hi) else []
  }

  lemma {:induction false} IndicesJoin(lo: int, mid: int, hi: int)
    requires lo <= mid <= hi
    ensures Indices(lo, mid) + Indices(mid, hi) == Indices(lo, hi)
    decreases mid - lo
  {
    IndicesStep(lo, mid);
    IndicesStep(lo, hi);
    hide Indices;
    if lo < mid {
      IndicesJoin(lo + 1, mid, hi);
      assert Indices(lo, mid) + Indices(mid, hi) == [lo] + (Indices(lo + 1, mid) + Indices(mid, hi));
    } else {
      assert [] + Indices(mid, hi) == Indices(mid, hi);
    }
  }

  lemma IndicesStep(lo: int, hi: int)
    ensures Indices(lo, hi) == if lo < hi then [lo] + Indices(lo + 1, hi) else []
  {
  }

  predicate Within(order: seq<nat>, n: nat) {
    forall i :: 0 <= i < |order| ==> order[i] < n
  }

  /** The indices visited when blocks finish in the given order. */
  function Visited(spans: seq<Span>, order: seq<nat>): seq<int>
    requires Within(order, |spans|)
  {
    if order == [] then []
    else Indices(spans[order[0]].start, spans[order[0]].end) + Visited(spans, order[1..])
  }

  lemma {:induction false} VisitedAppend(spans: seq<Span>, a: seq<nat>, b: seq<nat>)
    requires Within(a, |spans|) && Within(b, |spans|)
    ensures Visited(spans, a + b) == Visited(spans, a) + Visited(spans, b)
  {
    if a == [] {
      assert a + b == b;
    } else {
      assert (a + b)[1..] == a[1..] + b;
      VisitedAppend(spans, a[1..], b);
    }
  }

  lemma {:induction false} VisitedPrefix(spans: seq<Span>, order: seq<nat>, n: nat)
    requires n <= |spans| && Within(order, n)
    ensures Visited(spans, order) == Visited(spans[..n], order)
  {
    if order != [] {
      assert spans[order[0]] == spans[..n][order[0]];
      VisitedPrefix(spans, order[1..], n);
    }
  }

  /** Each of the blocks 0..n-1 exactly once. */
  ghost predicate Permutes(order: seq<nat>, n: nat) {
    NoDuplicates(order) && Within(order, n) && forall b :: 0 <= b < n ==> b in order
  }

  lemma WithoutBlock(order: seq<nat>, k: nat, n: nat)
    requires Permutes(order, n + 1) && k < |order| && order[k] == n
    ensures Permutes(order[..k] + order[k + 1..], n)
  {
    var rest := order[..k] + order[k + 1..];
    RemoveAt(order, k);
    forall i | 0 <= i < |rest| ensures rest[i] < n {
      assert rest[i] in rest && rest[i] in order;
    }
    forall b: nat | b < n ensures b in rest {
      assert b in order;
    }
  }

  lemma VisitedSplit(spans: seq<Span>, order: seq<nat>, k: nat)
    requires Within(order, |spans|) && k < |order|
    ensures Within(order[..k] + order[k + 1..], |spans|)
    ensures multiset(Visited(spans, order)) ==
            multiset(Visited(spans, order[..k] + order[k + 1..])) +
            multiset(Indices(spans[order[k]].start, spans[order[k]].end))
  {
    var a, b := order[..k], order[k + 1..];
    assert order == a + order[k..] && order[k..][1..] == b;
    VisitedAppend(spans, a, order[k..]);
    VisitedAppend(spans, a, b);
  }

  /** Whatever order the blocks finish in, the indices visited are the sequential loop's, each once. */
  lemma {:induction false} AnyOrderVisitsAll(spans: seq<Span>, lo: int, hi: int, order: seq<nat>)
    requires Tiles(spans, lo, hi) && Permutes(order, |spans|)
    ensures multiset(Visited(spans, order)) == multiset(Indices(lo, hi))
    decreases |spans|
  {
    hide Visited, Indices;
    if spans == [] {
      NoBlocks(spans, lo, order);
    } else {
      var n: nat := |spans| - 1;
      var last := spans[n];
      assert n in order;
      var k :| 0 <= k < |order| && order[k] == n;
      var rest := order[..k] + order[k + 1..];
      WithoutBlock(order, k, n);
      VisitedSplit(spans, order, k);
      VisitedPrefix(spans, rest, n);
      AnyOrderVisitsAll(spans[..n], lo, last.start, rest);
      TilesOrdered(spans[..n], lo, last.start);
      IndicesJoin(lo, last.start, hi);
      calc {
        multiset(Visited(spans, order));
        multiset(Visited(spans[..n], rest)) + multiset(Indices(last.start, hi));
        multiset(Indices(lo, last.start)) + multiset(Indices(last.start, hi));
        multiset(Indices(lo, last.start) + Indices(last.start, hi));
        multiset(Indices(lo, hi));
      }
    }
  }

  lemma NoBlocks(spans: seq<Span>, lo: int, order: seq<nat>)
    requires spans == [] && Permutes(order, 0)
    ensures Visited(spans, order) == Indices(lo, lo) == []
  {
    DistinctCardinality(order, {});
  }

  lemma TilesOrdered(spans: seq<Span>, lo: int, hi: int)
    requires Tiles(spans, lo, hi)
    ensures lo <= hi
  {
  }

  /** The block that a task stands for, if it is one of the loop's. */
  function BlockOf(blocks: seq<Task>, t: Task): (r: Option<nat>)
    ensures r.Some? ==> r.value < |blocks| && blocks[r.value] == t
    ensures r.None? <==> t !in blocks
  {
    if blocks == [] then None
    else if blocks[|blocks| - 1] == t then Some(|blocks| - 1)
    else BlockOf(blocks[..|blocks| - 1], t)
  }

  /** The loop's blocks among the finished tasks, in the order they finished. */
  function BlockOrder(blocks: seq<Task>, finished: seq<Task>): seq<nat> {
    if finished == [] then []
    else
      match BlockOf(blocks, finished[0])
      case None => BlockOrder(blocks, finished[1..])
      case Some(b) => [b] + BlockOrder(blocks, finished[1..])
  }

  lemma {:induction false} BlockOrderHolds(blocks: seq<Task>, finished: seq<Task>)
    requires NoDuplicates(blocks) && NoDuplicates(finished)
    ensures var order := BlockOrder(blocks, finished);
      && NoDuplicates(order) && Within(order, |blocks|)
      && forall b :: 0 <= b < |blocks| ==> (b in order <==> blocks[b] in finished)
  {
    if finished != [] {
      var t, rest := finished[0], finished[1..];
      BlockOrderHolds(blocks, rest);
      assert finished == [t] + rest && t !in rest;
      var order, tail := BlockOrder(blocks, finished), BlockOrder(blocks, rest);
      match BlockOf(blocks, t) {
        case None => assert order == tail;
        case Some(b) =>
          assert order == [b] + tail && b !in tail;
          PrependDistinct(b, tail);
      }
    }
  }

  /**
    push_loop followed by wait_for_tasks: once the wait has returned with no push in flight on an
    unpaused pool, whatever other tasks the pool has been given, every index of the loop has been
    visited exactly once. `blocks` are the tasks that push_loop pushed.
   */
  lemma LoopCompletesByWait(s: Pool, blocks: seq<Task>, spans: seq<Span>, lo: int, hi: int)
    requires Reachable(s) && s.owner.Satisfied? && !s.owner.sawPaused && s.owner.inFlight == 0
    requires Tiles(spans, lo, hi) && |blocks| == |spans| && NoDuplicates(blocks)
    requires forall t :: t in blocks ==> t in s.enqueued
    ensures Permutes(BlockOrder(blocks, s.finished), |spans|)
    ensures multiset(Visited(spans, BlockOrder(blocks, s.finished))) == multiset(Indices(lo, hi))
  {
    hide Reachable, Visited, Indices, Tiles;
    WaitReturns(s);
    ExactlyOnceInOrder(s);
    BlockOrderHolds(blocks, s.finished);
    AnyOrderVisitsAll(spans, lo, hi, BlockOrder(blocks, s.finished));
  }

  // Results.

  function Map<V>(f: int -> V, xs: seq<int>): (r: seq<V>)
    ensures |r| == |xs| && forall i :: 0 <= i < |r| ==> r[i] == f(xs[i])
  {
    if xs == [] then [] else [f(xs[0])] + Map(f, xs[1..])
  }

  lemma {:induction false} MapAppend<V>(f: int -> V, a: seq<int>, b: seq<int>)
    ensures Map(f, a + b) == Map(f, a) + Map(f, b)
  {
    if a == [] {
      assert a + b == b;
    } else {
      assert (a + b)[1..] == a[1..] + b;
      MapAppend(f, a[1..], b);
    }
  }

  function BlockResult<V>(f: int -> V, span: Span): seq<V> {
    Map(f, Indices(span.start, span.end))
  }

  /** The promises fulfilled after blocks have finished in the given order. */
  function Fulfilled<V>(f: int -> V, spans: seq<Span>, order: seq<nat>): map<nat, seq<V>>
    requires Within(order, |spans|)
  {
    if order == [] then map[]
    else Fulfilled(f, spans, order[1..])[order[0] := BlockResult(f, spans[order[0]])]
  }

  lemma {:induction false} FulfilledValue<V>(f: int -> V, spans: seq<Span>, order: seq<nat>)
    requires Within(order, |spans|)
    ensures forall b :: b in order ==> b in Fulfilled(f, spans, order)
    ensures forall b :: 0 <= b < |spans| && b in Fulfilled(f, spans, order) ==>
              Fulfilled(f, spans, order)[b] == BlockResult(f, spans[b])
  {
    if order != [] {
      FulfilledValue(f, spans, order[1..]);
    }
  }

  function Concat<V>(parts: seq<seq<V>>): seq<V> {
    if parts == [] then [] else Concat(parts[..|parts| - 1]) + parts[|parts| - 1]
  }

  lemma {:induction false} ResultsJoin<V>(f: int -> V, spans: seq<Span>, lo: int, hi: int, parts: seq<seq<V>>)
    requires Tiles(spans, lo, hi) && |parts| == |spans|
    requires forall b :: 0 <= b < |spans| ==> parts[b] == BlockResult(f, spans[b])
    ensures Concat(parts) == Map(f, Indices(lo, hi))
    decreases |spans|
  {
    if spans != [] {
      var n := |spans| - 1;
      ResultsJoin(f, spans[..n], lo, spans[n].start, parts[..n]);
      TilesOrdered(spans[..n], lo, spans[n].start);
      IndicesJoin(lo, spans[n].start, hi);
      MapAppend(f, Indices(lo, spans[n].start), Indices(spans[n].start, hi));
    }
  }

  datatype Outcome<+V> = Value(value: V) | Raised(error: string)

  /** multi_future::get: the values in block order, or the exception of the first block that raised one. */
  method Get<V>(futures: seq<Outcome<V>>) returns (r: Outcome<seq<V>>)
    ensures r.Value? <==> forall i :: 0 <= i < |futures| ==> futures[i].Value?
    ensures r.Value? ==> |r.value| == |futures| && forall i :: 0 <= i < |futures| ==> futures[i] == Value(r.value[i])
    ensures r.Raised? ==>
              exists i :: 0 <= i < |futures| && futures[i] == Raised(r.error)
                          && forall j :: 0 <= j < i ==> futures[j].Value?
  {
    var results: seq<V> := [];
    for i := 0 to |futures|
      invariant |results| == i
      invariant forall j :: 0 <= j < i ==> futures[j] == Value(results[j])
    {
      if futures[i].Raised? {
        return Raised(futures[i].error);
      }
      results := results + [futures[i].value];
    }
    r := Value(results);
  }

  /** The futures of parallelize_loop once its blocks have finished, in any order. */
  function Futures<V>(fulfilled: map<nat, seq<V>>, n: nat): (r: seq<Outcome<seq<V>>>)
    requires forall b :: 0 <= b < n ==> b in fulfilled
    ensures |r| == n
    ensures forall b :: 0 <= b < n ==> r[b] == Value(fulfilled[b])
  {
    if n == 0 then [] else Futures(fulfilled, n - 1) + [Value(fulfilled[n - 1])]
  }

  /**
    parallelize_loop followed by get: concatenating the blocks' values gives the sequential loop's
    values in index order.
   */
  method CollectParallel<V>(f: int -> V, spans: seq<Span>, ghost lo: int, ghost hi: int, order: seq<nat>)
    returns (values: seq<V>)
    requires Tiles(spans, lo, hi) && Permutes(order, |spans|)
    ensures values == Map(f, Indices(lo, hi))
  {
    FulfilledValue(f, spans, order);
    var r := Get(Futures(Fulfilled(f, spans, order), |spans|));
    ResultsJoin(f, spans, lo, hi, r.value);
    values := Concat(r.value);
  }
}
