/** What the allocator reports about itself, computed from the list of blocks. */
module HeapAccounts {
  import opened HeapModel
  import HeapTheorems

  const MM_MAX_SIMPLE_BLOCKS := 32

  datatype Info = Info(totalMemory: int, usedMemory: int, freeMemory: int, allocatedBlocks: int, freeBlocks: int)

  datatype Stats = Stats(heapTotal: int, usedBytes: int, freeBytes: int, largestFree: int, freeBlocks: int,
                         freelist: seq<(int, int)>, truncated: int)

  /** One free block is added to the statistics. */
  function Collected(s: Stats, addr: int, size: int): Stats {
    var t := s.(freeBytes := s.freeBytes + size, freeBlocks := s.freeBlocks + 1,
                largestFree := if size > s.largestFree then size else s.largestFree);
    if |s.freelist| < MM_MAX_SIMPLE_BLOCKS then t.(freelist := s.freelist + [(addr, size)])
    else t.(truncated := s.truncated + 1)
  }

  /** The corrections made after the loop. */
  function Clamped(s: Stats, total: int): Stats {
    var t := if total >= s.freeBytes then s.(heapTotal := total, usedBytes := total - s.freeBytes)
             else s.(heapTotal := total, usedBytes := 0, freeBytes := total);
    if t.largestFree > t.freeBytes then t.(largestFree := t.freeBytes) else t
  }

  function Max(a: int, b: int): int { if a < b then b else a }

  ghost function FreeBytes(bs: seq<Block>): int {
    if bs == [] then 0 else (if bs[0].free then bs[0].size else 0) + FreeBytes(bs[1..])
  }

  /** Live payloads and all headers. */
  ghost function UsedBytes(bs: seq<Block>): int {
    if bs == [] then 0 else (if bs[0].free then 0 else bs[0].size) + HEADER + UsedBytes(bs[1..])
  }

  ghost function FreeCount(bs: seq<Block>): int {
    if bs == [] then 0 else (if bs[0].free then 1 else 0) + FreeCount(bs[1..])
  }

  ghost function FreeList(bs: seq<Block>): seq<(int, int)> {
    if bs == [] then [] else (if bs[0].free then [(bs[0].addr, bs[0].size)] else []) + FreeList(bs[1..])
  }

  /** The largest free size, 0 if nothing is free. */
  ghost function Largest(bs: seq<Block>): int {
    if bs == [] then 0 else Max(if bs[0].free then bs[0].size else 0, Largest(bs[1..]))
  }

  /** The statistics of the first `i` blocks. */
  ghost predicate Gathered(s: Stats, bs: seq<Block>, i: nat) {
    && i <= |bs|
    && s.freeBytes + FreeBytes(bs[i..]) == FreeBytes(bs)
    && s.largestFree >= 0 && Max(s.largestFree, Largest(bs[i..])) == Largest(bs)
    && s.freeBlocks + |FreeList(bs[i..])| == |FreeList(bs)| && s.freeBlocks == |s.freelist| + s.truncated
    && (if s.truncated == 0 then s.freelist + FreeList(bs[i..]) == FreeList(bs) else s.freelist <= FreeList(bs))
    && s.truncated >= 0 && |s.freelist| <= MM_MAX_SIMPLE_BLOCKS
    && (s.truncated > 0 ==> |s.freelist| == MM_MAX_SIMPLE_BLOCKS)
  }

  lemma GatherStart(bs: seq<Block>)
    ensures Gathered(Stats(0, 0, 0, 0, 0, [], 0), bs, 0)
  {
    assert bs[0..] == bs;
    LargestNotNegative(bs);
  }

  lemma {:induction false} LargestNotNegative(bs: seq<Block>)
    ensures Largest(bs) >= 0
  {
    if bs != [] { LargestNotNegative(bs[1..]); }
  }

  lemma GatherStep(s: Stats, bs: seq<Block>, i: nat)
    requires Gathered(s, bs, i) && i < |bs|
    ensures Gathered(if bs[i].free then Collected(s, bs[i].addr, bs[i].size) else s, bs, i + 1)
  {
    assert bs[i..][1..] == bs[i + 1..];
    LargestNotNegative(bs[i + 1..]);
  }

  lemma GatherEnd(s: Stats, bs: seq<Block>)
    requires Gathered(s, bs, |bs|)
    ensures s.freeBytes == FreeBytes(bs) && s.largestFree == Largest(bs)
    ensures s.freeBlocks == |FreeList(bs)| == |s.freelist| + s.truncated && s.freelist <= FreeList(bs)
  {
    assert bs[|bs|..] == [];
  }

  /** Used and free bytes add up to the heap, and the largest free block is no more than all of them. */
  lemma {:induction false} Accounts(bs: seq<Block>, lo: int, hi: int)
    requires Tiles(bs, lo, hi)
    ensures UsedBytes(bs) + FreeBytes(bs) == hi - lo
    ensures 0 <= Largest(bs) <= FreeBytes(bs) <= hi - lo
    ensures FreeCount(bs) == |FreeList(bs)|
    decreases |bs|
  {
    if |bs| > 1 {
      TilesTail(bs, lo, hi);
      Accounts(bs[1..], bs[0].End(), hi);
    }
  }

  /** Every block is either counted as free or a live one. */
  lemma {:induction false} LiveCounted(bs: seq<Block>, lo: int, hi: int)
    requires Tiles(bs, lo, hi)
    ensures |Live(bs)| + FreeCount(bs) == |bs|
    decreases |bs|
  {
    HeapTheorems.LiveTail(bs, lo, hi);
    if |bs| > 1 {
      TilesTail(bs, lo, hi);
      LiveCounted(bs[1..], bs[0].End(), hi);
    } else {
      assert bs[1..] == [];
    }
  }

  /** The free list names the free blocks, in address order like the blocks, and the free bytes are the sum of their sizes. */
  lemma {:induction false} FreeListIs(bs: seq<Block>, a: int, n: int)
    ensures (a, n) in FreeList(bs) <==> Block(a, n, true) in bs
    ensures FreeBytes(bs) == SumSizes(FreeList(bs))
  {
    if bs != [] {
      FreeListIs(bs[1..], a, n);
      assert bs == [bs[0]] + bs[1..];
      if bs[0].free {
        assert FreeList(bs)[1..] == FreeList(bs[1..]);
      } else {
        assert FreeList(bs) == FreeList(bs[1..]);
      }
    }
  }

  function SumSizes(q: seq<(int, int)>): int {
    if q == [] then 0 else q[0].1 + SumSizes(q[1..])
  }

  /** The largest free size is the size of a free block and no free block has more; it is 0 if there is none. */
  lemma {:induction false} LargestIs(bs: seq<Block>)
    ensures forall b | b in bs && b.free :: b.size <= Largest(bs)
    ensures Largest(bs) > 0 ==> exists b :: b in bs && b.free && b.size == Largest(bs)
    ensures Largest(bs) >= 0
  {
    if bs != [] {
      LargestIs(bs[1..]);
      assert bs == [bs[0]] + bs[1..];
      if Largest(bs) > 0 && Largest(bs) == Largest(bs[1..]) {
        var b :| b in bs[1..] && b.free && b.size == Largest(bs[1..]);
        assert b in bs;
      } else if Largest(bs) > 0 {
        assert bs[0] in bs;
      }
    }
  }
}
