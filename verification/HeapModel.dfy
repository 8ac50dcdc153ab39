/**
 * The first-fit heap as a list of blocks.  `FirstFit` keeps the headers in
 * memory; the theorems here are about the list they form.
 */
module HeapModel {
  import opened Options

  const HEADER := 32            // sizeof(memory_block_t)
  const MIN_BLOCK_SIZE := 16
  const WORD := 0x1_0000_0000_0000_0000

  datatype Block = Block(addr: int, size: int, free: bool) {
    /** The address just past the block. */
    function End(): int { addr + HEADER + size }
    function Payload(): int { addr + HEADER }
  }

  // ------------------------------------------------------------------
  // Transitions
  // ------------------------------------------------------------------

  /** The size `first_fit_malloc` looks for, in 64-bit arithmetic. */
  function Rounded(n: int): int {
    var r := (n + 7) % WORD / 8 * 8;
    if r < MIN_BLOCK_SIZE then MIN_BLOCK_SIZE else r
  }

  /** `find_free_block`: the first block that is free and large enough, or the length of the list. */
  function FindFree(bs: seq<Block>, size: int): (i: nat)
    ensures i <= |bs|
    ensures i < |bs| ==> bs[i].free && bs[i].size >= size
    ensures forall k | 0 <= k < i :: !(bs[k].free && bs[k].size >= size)
  {
    if bs == [] || (bs[0].free && bs[0].size >= size) then 0 else 1 + FindFree(bs[1..], size)
  }

  /** `split_block` */
  function SplitAt(bs: seq<Block>, i: nat, size: int): (r: seq<Block>)
    requires i < |bs|
    ensures i < |r|
  {
    var b := bs[i];
    if b.size - size < HEADER + MIN_BLOCK_SIZE then bs
    else bs[..i] + [Block(b.addr, size, b.free), Block(b.addr + HEADER + size, b.size - size - HEADER, true)] + bs[i + 1..]
  }

  /** The chosen block is split and marked as taken. */
  function TakeAt(bs: seq<Block>, i: nat, size: int): seq<Block>
    requires i < |bs|
  {
    var r := SplitAt(bs, i, size);
    r[i := r[i].(free := false)]
  }

  /** The live block this makes. */
  function Taken(b: Block, size: int): Block {
    Block(b.addr, if b.size - size < HEADER + MIN_BLOCK_SIZE then b.size else size, false)
  }

  function Malloc(bs: seq<Block>, n: int): (seq<Block>, Option<int>) {
    var i := FindFree(bs, Rounded(n));
    if n == 0 || i == |bs| then (bs, None)
    else (TakeAt(bs, i, Rounded(n)), Some(bs[i].Payload()))
  }

  /** `coalesce_blocks` */
  function Coalesce(bs: seq<Block>): (r: seq<Block>)
    ensures |r| <= |bs| && (bs != [] ==> r != [] && r[0].addr == bs[0].addr && r[0].free == bs[0].free)
    decreases |bs|
  {
    if |bs| < 2 then bs
    else if bs[0].free && bs[1].free && bs[0].End() == bs[1].addr then
      Coalesce([bs[0].(size := bs[0].size + HEADER + bs[1].size)] + bs[2..])
    else [bs[0]] + Coalesce(bs[1..])
  }

  /** Where the live block with this payload address stands, or the length of the list. */
  function LiveAt(bs: seq<Block>, p: int): (i: nat)
    ensures i <= |bs|
    ensures i < |bs| ==> !bs[i].free && bs[i].Payload() == p
    ensures forall k | 0 <= k < i :: bs[k].free || bs[k].Payload() != p
  {
    if bs == [] || (!bs[0].free && bs[0].Payload() == p) then 0 else 1 + LiveAt(bs[1..], p)
  }

  /** `first_fit_free` */
  function Free(bs: seq<Block>, p: int): seq<Block> {
    var i := LiveAt(bs, p);
    if i == |bs| then bs else Coalesce(bs[i := bs[i].(free := true)])
  }

  // ------------------------------------------------------------------
  // The shape of the heap
  // ------------------------------------------------------------------

  /** The blocks fill [lo, hi) exactly, in address order. */
  ghost predicate Tiles(bs: seq<Block>, lo: int, hi: int) {
    && bs != [] && bs[0].addr == lo && bs[|bs| - 1].End() == hi
    && (forall i | 0 <= i < |bs| :: bs[i].size >= 0)
    && (forall i | 0 <= i < |bs| - 1 :: bs[i + 1].addr == bs[i].End())
  }

  ghost predicate Coalesced(bs: seq<Block>) {
    forall i | 0 <= i < |bs| - 1 :: !(bs[i].free && bs[i + 1].free)
  }

  ghost predicate Aligned(bs: seq<Block>) {
    forall i | 0 <= i < |bs| :: bs[i].addr % 8 == 0
  }

  /** The heap between two operations. */
  ghost predicate HeapOk(bs: seq<Block>, lo: int, hi: int) {
    Tiles(bs, lo, hi) && Coalesced(bs) && Aligned(bs)
  }

  ghost function Live(bs: seq<Block>): set<Block> {
    set b | b in bs && !b.free
  }

  lemma LiveAppend(a: seq<Block>, b: seq<Block>)
    ensures Live(a + b) == Live(a) + Live(b)
  {
  }

  lemma {:induction false} Ordered(bs: seq<Block>, lo: int, hi: int, i: nat, j: nat)
    requires Tiles(bs, lo, hi) && i < j < |bs|
    ensures bs[i].End() <= bs[j].addr
    decreases j - i
  {
    if i + 1 < j { Ordered(bs, lo, hi, i + 1, j); }
  }

  lemma Within(bs: seq<Block>, lo: int, hi: int, i: nat)
    requires Tiles(bs, lo, hi) && i < |bs|
    ensures lo <= bs[i].addr && bs[i].End() <= hi
  {
    if i > 0 { Ordered(bs, lo, hi, 0, i); }
    if i < |bs| - 1 { Ordered(bs, lo, hi, i, |bs| - 1); }
  }

  /** Two blocks of the list are the same or do not overlap, headers included. */
  lemma Disjoint(bs: seq<Block>, lo: int, hi: int, b: Block, c: Block)
    requires Tiles(bs, lo, hi) && b in bs && c in bs
    ensures b == c || b.End() <= c.addr || c.End() <= b.addr
  {
    var i :| 0 <= i < |bs| && bs[i] == b;
    var j :| 0 <= j < |bs| && bs[j] == c;
    if i < j { Ordered(bs, lo, hi, i, j); } else if j < i { Ordered(bs, lo, hi, j, i); }
  }

  lemma TilesTail(bs: seq<Block>, lo: int, hi: int)
    requires Tiles(bs, lo, hi) && |bs| > 1
    ensures Tiles(bs[1..], bs[0].End(), hi)
  {
    assert bs[1..][|bs| - 2] == bs[|bs| - 1];
    forall i | 0 <= i < |bs[1..]| - 1 ensures bs[1..][i + 1].addr == bs[1..][i].End() {
      assert bs[i + 2].addr == bs[i + 1].End();
    }
  }

  lemma TilesCons(b: Block, bs: seq<Block>, hi: int)
    requires b.size >= 0 && Tiles(bs, b.End(), hi)
    ensures Tiles([b] + bs, b.addr, hi)
  {
  }

  // ------------------------------------------------------------------
  // Each operation keeps it
  // ------------------------------------------------------------------

  /** Coalescing keeps the tiling and the live blocks, and leaves no two free neighbours. */
  lemma {:induction false} CoalesceOk(bs: seq<Block>, lo: int, hi: int)
    requires Tiles(bs, lo, hi) && Aligned(bs)
    ensures HeapOk(Coalesce(bs), lo, hi)
    ensures Live(Coalesce(bs)) == Live(bs)
    decreases |bs|
  {
    if |bs| >= 2 {
      TilesTail(bs, lo, hi);
      if bs[0].free && bs[1].free {
        var m := bs[0].(size := bs[0].size + HEADER + bs[1].size);
        var r := [m] + bs[2..];
        if |bs| > 2 {
          TilesTail(bs[1..], bs[0].End(), hi);
          assert bs[1..][1..] == bs[2..];
          TilesCons(m, bs[2..], hi);
        }
        assert bs == [bs[0], bs[1]] + bs[2..];
        LiveAppend([bs[0], bs[1]], bs[2..]);
        LiveAppend([m], bs[2..]);
        CoalesceOk(r, lo, hi);
      } else {
        CoalesceOk(bs[1..], bs[0].End(), hi);
        TilesCons(bs[0], Coalesce(bs[1..]), hi);
        assert bs == [bs[0]] + bs[1..];
        LiveAppend([bs[0]], bs[1..]);
        LiveAppend([bs[0]], Coalesce(bs[1..]));
      }
    }
  }

  lemma RoundedFits(n: int)
    ensures Rounded(n) >= MIN_BLOCK_SIZE && Rounded(n) % 8 == 0
  {
  }

  /** The list after a split still tiles the heap. */
  lemma SplitLinks(bs: seq<Block>, lo: int, hi: int, i: nat, size: int)
    requires Tiles(bs, lo, hi) && Aligned(bs) && i < |bs| && 0 <= size <= bs[i].size && size % 8 == 0
    ensures var r := SplitAt(bs, i, size); Tiles(r, lo, hi) && Aligned(r)
  {
    var r := SplitAt(bs, i, size);
    if r != bs {
      assert |r| == |bs| + 1;
      assert forall j | 0 <= j < i :: r[j] == bs[j];
      assert forall j | i + 1 < j < |r| :: r[j] == bs[j - 1];
      assert r[|r| - 1].End() == hi && r[0].addr == lo;
      forall j | 0 <= j < |r| - 1 ensures r[j + 1].addr == r[j].End() {
        if j < i { assert bs[j + 1].addr == bs[j].End(); }
        else if j > i { assert bs[j].addr == bs[j - 1].End(); }
      }
      forall j | 0 <= j < |r| ensures r[j].size >= 0 && r[j].addr % 8 == 0 {
        if j < i { assert bs[j].size >= 0; } else if j > i + 1 { assert bs[j - 1].size >= 0; }
      }
    }
  }

  lemma TakeOk(bs: seq<Block>, lo: int, hi: int, i: nat, size: int)
    requires HeapOk(bs, lo, hi) && i < |bs| && bs[i].free && 0 <= size <= bs[i].size && size % 8 == 0
    ensures HeapOk(TakeAt(bs, i, size), lo, hi)
    ensures Live(TakeAt(bs, i, size)) == Live(bs) + {Taken(bs[i], size)}
  {
    SplitLinks(bs, lo, hi, i, size);
    TakeApart(bs, i, size);
    TakeLive(bs, i, size);
  }

  lemma TakeApart(bs: seq<Block>, i: nat, size: int)
    requires Coalesced(bs) && i < |bs| && bs[i].free
    ensures Coalesced(TakeAt(bs, i, size))
  {
    var r := TakeAt(bs, i, size);
    var k := |r| - |bs|;
    assert forall j | 0 <= j < i :: r[j] == bs[j];
    assert forall j | i + k < j < |r| :: r[j] == bs[j - k];
    forall j | 0 <= j < |r| - 1 ensures !(r[j].free && r[j + 1].free) {
      if j < i { assert !(bs[j].free && bs[j + 1].free); }
      else if j > i { assert !(bs[j - k].free && bs[j - k + 1].free); }
    }
  }

  /** Replacing a free block by a live one and free rest adds the one live block. */
  lemma TakeLive(bs: seq<Block>, i: nat, size: int)
    requires i < |bs| && bs[i].free
    ensures Live(TakeAt(bs, i, size)) == Live(bs) + {Taken(bs[i], size)}
  {
    var b := bs[i];
    var t := [Taken(b, size)] + if b.size - size < HEADER + MIN_BLOCK_SIZE then []
                                else [Block(b.addr + HEADER + size, b.size - size - HEADER, true)];
    var (x, y) := (bs[..i], bs[i + 1..]);
    assert bs == x + [b] + y && TakeAt(bs, i, size) == x + t + y;
    LiveAppend(x + [b], y);
    LiveAppend(x, [b]);
    LiveAppend(x + t, y);
    LiveAppend(x, t);
    assert Live([b]) == {} && Live(t) == {t[0]};
  }

  lemma MallocOk(bs: seq<Block>, lo: int, hi: int, n: int)
    requires HeapOk(bs, lo, hi)
    ensures HeapOk(Malloc(bs, n).0, lo, hi)
  {
    RoundedFits(n);
    var i := FindFree(bs, Rounded(n));
    if n != 0 && i < |bs| { TakeOk(bs, lo, hi, i, Rounded(n)); }
  }

  lemma FreeOk(bs: seq<Block>, lo: int, hi: int, p: int)
    requires HeapOk(bs, lo, hi)
    ensures HeapOk(Free(bs, p), lo, hi)
    ensures Live(Free(bs, p)) == set b | b in Live(bs) && b.Payload() != p
  {
    var i := LiveAt(bs, p);
    if i < |bs| {
      var f := bs[i := bs[i].(free := true)];
      assert forall j | 0 <= j < |f| :: f[j].addr == bs[j].addr && f[j].size == bs[j].size;
      CoalesceOk(f, lo, hi);
      forall b ensures b in Live(f) <==> b in Live(bs) && b.Payload() != p {
        if b in bs && !b.free && b.Payload() != p {
          var j :| 0 <= j < |bs| && bs[j] == b;
          assert f[j] == b;
        }
        if b in f && !b.free {
          var j :| 0 <= j < |f| && f[j] == b;
          assert j != i && bs[j] == b;
          if i < j { Ordered(bs, lo, hi, i, j); } else { Ordered(bs, lo, hi, j, i); }
        }
      }
    } else {
      assert Live(bs) == set b | b in Live(bs) && b.Payload() != p by {
        forall b | b in Live(bs) ensures b.Payload() != p { var j :| 0 <= j < |bs| && bs[j] == b; }
      }
    }
  }
}
