/**
  Splitting an index range into blocks, in the arithmetic of the program: `size_t` counters, and
  indices of a 32- or 64-bit integer type.
 */
module Blocks {

  /** Number of values of size_t. */
  const SIZE: nat := 0x1_0000_0000_0000_0000

  /** The common type of the two range bounds. */
  datatype IndexType = Int32 | UInt32 | Int64 | UInt64

  function Least(t: IndexType): int {
    match t
    case Int32 => -0x8000_0000
    case Int64 => -0x8000_0000_0000_0000
    case UInt32 | UInt64 => 0
  }

  function Greatest(t: IndexType): int {
    match t
    case Int32 => 0x7FFF_FFFF
    case UInt32 => 0xFFFF_FFFF
    case Int64 => 0x7FFF_FFFF_FFFF_FFFF
    case UInt64 => 0xFFFF_FFFF_FFFF_FFFF
  }

  predicate Has(t: IndexType, x: int) { Least(t) <= x <= Greatest(t) }

  /** static_cast<T>: reduction into the range of the type. */
  function Cast(t: IndexType, x: int): (r: int)
    ensures Has(t, r)
    ensures Has(t, x) ==> r == x
    ensures (x - r) % (Greatest(t) - Least(t) + 1) == 0
  {
    CastCongruent(t, x);
    Least(t) + (x - Least(t)) % (Greatest(t) - Least(t) + 1)
  }

  lemma CastCongruent(t: IndexType, x: int)
    ensures var values := Greatest(t) - Least(t) + 1;
      (x - (Least(t) + (x - Least(t)) % values)) % values == 0
  {
    match t
    case Int32 => Remainder32(x - Least(t));
    case UInt32 => Remainder32(x - Least(t));
    case Int64 => Remainder64(x - Least(t));
    case UInt64 => Remainder64(x - Least(t));
  }

  lemma Remainder32(x: int)
    ensures (x - x % 0x1_0000_0000) % 0x1_0000_0000 == 0
  {
  }

  lemma Remainder64(x: int)
    ensures (x - x % 0x1_0000_0000_0000_0000) % 0x1_0000_0000_0000_0000 == 0
  {
  }

  function CastSize(x: int): (r: nat)
    ensures r < SIZE
    ensures 0 <= x < SIZE ==> r == x
    ensures (x - r) % SIZE == 0
  {
    x % SIZE
  }

  /** `Overflow` stands for a signed subtraction outside its type, which is undefined in the program. */
  datatype Division =
    | Overflow
    | Blocks(index: IndexType, firstIndex: int, indexAfterLast: int, blockSize: nat, numBlocks: nat, totalSize: nat)
  {
    function Start(i: nat): int
      requires Blocks?
    {
      Cast(index, CastSize(i * blockSize)) + firstIndex
    }

    function End(i: nat): int
      requires Blocks?
    {
      if i == numBlocks - 1 then indexAfterLast
      else Cast(index, CastSize((i + 1) * blockSize)) + firstIndex
    }
  }

  function Low(a: int, b: int): int { if b < a then b else a }
  function High(a: int, b: int): int { if b < a then a else b }

  /**
    What the documentation promises of a division of [lo, hi) into at most `wanted` blocks: contiguous,
    in order, exactly covering, all of one size except the last, and none empty; as many as wanted,
    or one for each index if there are fewer. No start or end leaves the index type.
   */
  ghost predicate Partitions(d: Division, lo: int, hi: int, wanted: nat) {
    && d.Blocks?
    && d.totalSize == hi - lo
    && 0 < d.numBlocks <= wanted
    && d.numBlocks == (if wanted <= hi - lo then wanted else if lo < hi then hi - lo else 1)
    && (lo < hi ==>
          && d.Start(0) == lo && d.End(d.numBlocks - 1) == hi
          && (forall i :: 0 <= i < d.numBlocks ==> lo <= d.Start(i) < d.End(i) <= hi)
          && (forall i {:trigger d.End(i)} :: 0 <= i < d.numBlocks - 1 ==> d.End(i) == d.Start(i + 1))
          && (forall i {:trigger d.End(i)} :: 0 <= i < d.numBlocks - 1 ==> d.End(i) - d.Start(i) == d.blockSize)
          && d.End(d.numBlocks - 1) - d.Start(d.numBlocks - 1) == d.blockSize + d.totalSize % d.numBlocks)
  }

  /**
    The constructor of `blocks`, for bounds of any type, which it first casts to the index type; the
    pool never passes a zero block count.
   */
  method Divide(t: IndexType, first: int, afterLast: int, wanted: nat) returns (d: Division)
    requires 0 < wanted < SIZE
    ensures var a, b := Cast(t, first), Cast(t, afterLast);
      && (d.Overflow? <==> High(a, b) - Low(a, b) > Greatest(t))
      && (d.Blocks? ==> Partitions(d, Low(a, b), High(a, b), wanted))
    ensures d.Blocks? ==> d.index == t
  {
    var firstIndex, indexAfterLast := Cast(t, first), Cast(t, afterLast);
    if indexAfterLast < firstIndex {
      indexAfterLast, firstIndex := firstIndex, indexAfterLast;
    }
    if !Has(t, indexAfterLast - firstIndex) {
      return Overflow;
    }
    var totalSize := CastSize(indexAfterLast - firstIndex);
    var numBlocks := wanted;
    QuotientBound(totalSize, wanted);
    var blockSize := CastSize(totalSize / numBlocks);
    if blockSize == 0 {
      blockSize := 1;
      numBlocks := if totalSize > 1 then totalSize else 1;
    }
    d := Blocks(t, firstIndex, indexAfterLast, blockSize, numBlocks, totalSize);
    assert DividesInto(totalSize, wanted, blockSize, numBlocks) by { Divides(totalSize, wanted); }
    ExactPartition(d, wanted);
  }

  /** `total` consists of `count` blocks of `size` and a remainder shorter than the number of blocks. */
  predicate DividesInto(total: nat, wanted: nat, size: nat, count: nat) {
    && 0 < count <= wanted && 0 < size
    && count == (if wanted <= total then wanted else if total > 0 then total else 1)
    && (total > 0 ==> total == count * size + total % count)
  }

  lemma Divides(total: nat, wanted: nat)
    requires 0 < wanted
    ensures total / wanted == 0 ==> DividesInto(total, wanted, 1, if total > 1 then total else 1)
    ensures total / wanted > 0 ==> DividesInto(total, wanted, total / wanted, wanted)
  {
    assert total == wanted * (total / wanted) + total % wanted;
    QuotientPositive(total, wanted);
  }

  lemma QuotientPositive(total: nat, wanted: nat)
    requires 0 < wanted
    ensures total / wanted > 0 <==> wanted <= total
  {
    var q := total / wanted;
    assert total == wanted * q + total % wanted;
    if q > 0 {
      MulMonotone(1, q, wanted);
    }
  }

  lemma QuotientBound(total: nat, wanted: nat)
    requires 0 < wanted
    ensures 0 <= total / wanted <= total
  {
    MulMonotone(1, wanted, total / wanted);
    assert total == wanted * (total / wanted) + total % wanted;
  }

  lemma MulMonotone(a: nat, b: nat, c: nat)
    requires a <= b
    ensures a * c <= b * c
  {
  }

  /** Within the range no product or cast loses value. */
  lemma StartExact(d: Division, i: nat)
    requires d.Blocks? && Has(d.index, d.firstIndex) && Has(d.index, d.indexAfterLast)
    requires d.totalSize == d.indexAfterLast - d.firstIndex && Has(d.index, d.totalSize)
    requires i <= d.numBlocks && d.numBlocks * d.blockSize <= d.totalSize
    ensures i * d.blockSize <= d.totalSize
    ensures Cast(d.index, CastSize(i * d.blockSize)) + d.firstIndex == d.firstIndex + i * d.blockSize
  {
    MulMonotone(i, d.numBlocks, d.blockSize);
  }

  /** One block: where it starts and ends. */
  lemma ExactBlock(d: Division, i: nat)
    requires d.Blocks? && Has(d.index, d.firstIndex) && Has(d.index, d.indexAfterLast)
    requires d.totalSize == d.indexAfterLast - d.firstIndex && Has(d.index, d.totalSize)
    requires i < d.numBlocks && d.numBlocks * d.blockSize <= d.totalSize
    ensures d.Start(i) == d.firstIndex + i * d.blockSize
    ensures i < d.numBlocks - 1 ==> d.End(i) == d.Start(i) + d.blockSize && d.End(i) == d.Start(i + 1)
    ensures i * d.blockSize + d.blockSize <= d.totalSize
    ensures d.firstIndex <= d.Start(i)
    ensures 0 < d.blockSize ==> d.Start(i) < d.End(i) <= d.indexAfterLast
  {
    hide Cast, CastSize;
    StartExact(d, i);
    StartExact(d, i + 1);
    NextMultiple(i, d.blockSize);
    MulMonotone(0, i, d.blockSize);
  }

  lemma NextMultiple(i: nat, b: nat)
    ensures (i + 1) * b == i * b + b
  {
  }

  lemma ExactPartition(d: Division, wanted: nat)
    requires d.Blocks? && Has(d.index, d.firstIndex) && Has(d.index, d.indexAfterLast)
    requires d.totalSize == d.indexAfterLast - d.firstIndex && Has(d.index, d.totalSize)
    requires DividesInto(d.totalSize, wanted, d.blockSize, d.numBlocks)
    ensures Partitions(d, d.firstIndex, d.indexAfterLast, wanted)
  {
    if d.totalSize > 0 {
      AllBlocks(d);
      EndBlocks(d);
    }
  }

  lemma AllBlocks(d: Division)
    requires d.Blocks? && Has(d.index, d.firstIndex) && Has(d.index, d.indexAfterLast)
    requires d.totalSize == d.indexAfterLast - d.firstIndex && Has(d.index, d.totalSize)
    requires 0 < d.blockSize && d.numBlocks * d.blockSize <= d.totalSize
    ensures forall i :: 0 <= i < d.numBlocks ==> d.firstIndex <= d.Start(i) < d.End(i) <= d.indexAfterLast
    ensures forall i {:trigger d.End(i)} :: 0 <= i < d.numBlocks - 1 ==>
              d.End(i) == d.Start(i + 1) && d.End(i) - d.Start(i) == d.blockSize
  {
    forall i | 0 <= i < d.numBlocks
      ensures d.firstIndex <= d.Start(i) < d.End(i) <= d.indexAfterLast
      ensures i < d.numBlocks - 1 ==> d.End(i) == d.Start(i + 1) && d.End(i) - d.Start(i) == d.blockSize
    {
      ExactBlock(d, i);
    }
  }

  lemma EndBlocks(d: Division)
    requires d.Blocks? && Has(d.index, d.firstIndex) && Has(d.index, d.indexAfterLast)
    requires d.totalSize == d.indexAfterLast - d.firstIndex && Has(d.index, d.totalSize)
    requires d.totalSize > 0 && 0 < d.numBlocks
    requires d.totalSize == d.numBlocks * d.blockSize + d.totalSize % d.numBlocks
    ensures d.Start(0) == d.firstIndex && d.End(d.numBlocks - 1) == d.indexAfterLast
    ensures d.End(d.numBlocks - 1) - d.Start(d.numBlocks - 1) == d.blockSize + d.totalSize % d.numBlocks
  {
    ExactBlock(d, 0);
    ExactBlock(d, d.numBlocks - 1);
    NextMultiple(d.numBlocks - 1, d.blockSize);
  }
}
