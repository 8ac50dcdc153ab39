/** What the heap's shape implies over whole runs of malloc and free. */
module HeapTheorems {
  import opened HeapModel
  import opened Options

  // ------------------------------------------------------------------
  // The block list is determined by the live blocks
  // ------------------------------------------------------------------

  /** A block that starts inside the first block of a tiling is that block. */
  lemma StartsAt(bs: seq<Block>, lo: int, hi: int, b: Block)
    requires Tiles(bs, lo, hi) && b in bs
    ensures b.addr == lo ==> b == bs[0]
    ensures b == bs[0] || b.addr >= bs[0].End()
    ensures b.End() <= hi
  {
    var j :| 0 <= j < |bs| && bs[j] == b;
    if j > 0 { Ordered(bs, lo, hi, 0, j); }
    Within(bs, lo, hi, j);
  }

  lemma LiveTail(bs: seq<Block>, lo: int, hi: int)
    requires Tiles(bs, lo, hi)
    ensures Live(bs) == (if bs[0].free then {} else {bs[0]}) + Live(bs[1..])
    ensures bs[0] !in Live(bs[1..])
  {
    assert bs == [bs[0]] + bs[1..];
    LiveAppend([bs[0]], bs[1..]);
    if bs[0] in Live(bs[1..]) {
      TilesTail(bs, lo, hi);
      var j :| 0 <= j < |bs[1..]| && bs[1..][j] == bs[0];
      Ordered(bs, lo, hi, 0, j + 1);
    }
  }

  /** The free block at the head of a list ends where the first live block begins: it cannot be larger than another list allows. */
  lemma HeadGap(bs: seq<Block>, cs: seq<Block>, lo: int, hi: int)
    requires HeapOk(bs, lo, hi) && HeapOk(cs, lo, hi) && Live(bs) == Live(cs)
    requires bs[0].free && cs[0].free
    ensures cs[0].size <= bs[0].size
  {
    if |bs| > 1 {
      var b := bs[1];
      assert b in Live(bs);
      assert b in cs;
      StartsAt(cs, lo, hi, b);
    } else {
      StartsAt(cs, lo, hi, cs[0]);
    }
  }

  lemma SameHead(bs: seq<Block>, cs: seq<Block>, lo: int, hi: int)
    requires HeapOk(bs, lo, hi) && HeapOk(cs, lo, hi) && Live(bs) == Live(cs)
    ensures bs[0] == cs[0]
  {
    if !bs[0].free {
      assert bs[0] in Live(cs);
      StartsAt(cs, lo, hi, bs[0]);
    } else if !cs[0].free {
      assert cs[0] in Live(bs);
      StartsAt(bs, lo, hi, cs[0]);
    } else {
      HeadGap(bs, cs, lo, hi);
      HeadGap(cs, bs, lo, hi);
    }
  }

  /** Two heaps over the same range with the same live blocks are the same list. */
  lemma {:induction false} Unique(bs: seq<Block>, cs: seq<Block>, lo: int, hi: int)
    requires HeapOk(bs, lo, hi) && HeapOk(cs, lo, hi) && Live(bs) == Live(cs)
    ensures bs == cs
    decreases |bs|
  {
    SameHead(bs, cs, lo, hi);
    if |bs| == 1 || |cs| == 1 {
      if |bs| > 1 { Ordered(bs, lo, hi, 0, |bs| - 1); }
      if |cs| > 1 { Ordered(cs, lo, hi, 0, |cs| - 1); }
    } else {
      TilesTail(bs, lo, hi);
      TilesTail(cs, lo, hi);
      LiveTail(bs, lo, hi);
      LiveTail(cs, lo, hi);
      TailOk(bs);
      TailOk(cs);
      Unique(bs[1..], cs[1..], bs[0].End(), hi);
      assert bs == [bs[0]] + bs[1..] && cs == [cs[0]] + cs[1..];
    }
  }

  lemma TailOk(bs: seq<Block>)
    requires bs != [] && Coalesced(bs) && Aligned(bs)
    ensures Coalesced(bs[1..]) && Aligned(bs[1..])
  {
    forall i | 0 <= i < |bs[1..]| - 1 ensures !(bs[1..][i].free && bs[1..][i + 1].free) {
      assert !(bs[i + 1].free && bs[i + 2].free);
    }
  }

  // ------------------------------------------------------------------
  // Inverses and commutation
  // ------------------------------------------------------------------

  /** Freeing what was just allocated restores the block list exactly. */
  lemma FreeUndoesMalloc(bs: seq<Block>, lo: int, hi: int, n: int)
    requires HeapOk(bs, lo, hi) && Malloc(bs, n).1.Some?
    ensures Free(Malloc(bs, n).0, Malloc(bs, n).1.value) == bs
  {
    RoundedFits(n);
    var i := FindFree(bs, Rounded(n));
    var (r, p) := (Malloc(bs, n).0, Malloc(bs, n).1.value);
    TakeOk(bs, lo, hi, i, Rounded(n));
    FreeOk(r, lo, hi, p);
    var t := Taken(bs[i], Rounded(n));
    assert Live(Free(r, p)) == Live(bs) by {
      forall b | b in Live(bs) ensures b.Payload() != p { Disjoint(bs, lo, hi, b, bs[i]); }
    }
    Unique(Free(r, p), bs, lo, hi);
  }

  lemma FreesCommute(bs: seq<Block>, lo: int, hi: int, p: int, q: int)
    requires HeapOk(bs, lo, hi)
    ensures Free(Free(bs, p), q) == Free(Free(bs, q), p)
  {
    FreeOk(bs, lo, hi, p);
    FreeOk(bs, lo, hi, q);
    FreeOk(Free(bs, p), lo, hi, q);
    FreeOk(Free(bs, q), lo, hi, p);
    Unique(Free(Free(bs, p), q), Free(Free(bs, q), p), lo, hi);
  }

  // ------------------------------------------------------------------
  // Runs
  // ------------------------------------------------------------------

  datatype Op = Alloc(n: int) | Release(p: int)

  function Apply(bs: seq<Block>, op: Op): seq<Block> {
    match op
    case Alloc(n) => Malloc(bs, n).0
    case Release(p) => Free(bs, p)
  }

  function RunOps(bs: seq<Block>, ops: seq<Op>): seq<Block>
    decreases |ops|
  {
    if ops == [] then bs else RunOps(Apply(bs, ops[0]), ops[1..])
  }

  /** The heap of `first_fit_init`: one free block. */
  function Initial(lo: int, hi: int): seq<Block> {
    [Block(lo, hi - lo - HEADER, true)]
  }

  lemma InitialOk(lo: int, hi: int)
    requires lo % 8 == 0 && lo + HEADER <= hi
    ensures HeapOk(Initial(lo, hi), lo, hi) && Live(Initial(lo, hi)) == {}
  {
  }

  /** After any run the blocks tile the heap and no two free blocks are neighbours. */
  lemma {:induction false} RunOk(bs: seq<Block>, lo: int, hi: int, ops: seq<Op>)
    requires HeapOk(bs, lo, hi)
    ensures HeapOk(RunOps(bs, ops), lo, hi)
    decreases |ops|
  {
    if ops != [] {
      match ops[0] {
        case Alloc(n) => MallocOk(bs, lo, hi, n);
        case Release(p) => FreeOk(bs, lo, hi, p);
      }
      RunOk(Apply(bs, ops[0]), lo, hi, ops[1..]);
    }
  }

  /** Any run that leaves nothing live ends in the heap it started from. */
  lemma EmptyIsInitial(lo: int, hi: int, ops: seq<Op>)
    requires lo % 8 == 0 && lo + HEADER <= hi
    requires Live(RunOps(Initial(lo, hi), ops)) == {}
    ensures RunOps(Initial(lo, hi), ops) == Initial(lo, hi)
  {
    InitialOk(lo, hi);
    RunOk(Initial(lo, hi), lo, hi, ops);
    Unique(RunOps(Initial(lo, hi), ops), Initial(lo, hi), lo, hi);
  }

  /** Freeing every live block, in whatever order and however often, gives back the single initial block. */
  lemma {:induction false} FreeEverything(bs: seq<Block>, lo: int, hi: int, ps: seq<int>)
    requires HeapOk(bs, lo, hi) && lo % 8 == 0
    requires forall b | b in Live(bs) :: b.Payload() in ps
    ensures RunOps(bs, seq(|ps|, i requires 0 <= i < |ps| => Release(ps[i]))) == Initial(lo, hi)
    decreases |ps|
  {
    var ops := seq(|ps|, i requires 0 <= i < |ps| => Release(ps[i]));
    if ps == [] {
      Within(bs, lo, hi, 0);
      assert Live(bs) == {};
      InitialOk(lo, hi);
      Unique(bs, Initial(lo, hi), lo, hi);
    } else {
      FreeOk(bs, lo, hi, ps[0]);
      assert ops[1..] == seq(|ps[1..]|, i requires 0 <= i < |ps[1..]| => Release(ps[1..][i]));
      FreeEverything(Free(bs, ps[0]), lo, hi, ps[1..]);
    }
  }

  /** The payloads of two live blocks never overlap, lie in the heap, and are 8-aligned. */
  lemma PayloadsApart(bs: seq<Block>, lo: int, hi: int, b: Block, c: Block, x: int)
    requires HeapOk(bs, lo, hi) && b in Live(bs) && c in Live(bs)
    requires b.Payload() <= x < b.End() && c.Payload() <= x < c.End()
    ensures b == c && lo <= x < hi && b.Payload() % 8 == 0
  {
    Disjoint(bs, lo, hi, b, c);
    StartsAt(bs, lo, hi, b);
    var j :| 0 <= j < |bs| && bs[j] == b;
    Within(bs, lo, hi, j);
  }

  /** A live block stays where it is, with the size it has, until it is freed itself. */
  lemma {:induction false} LiveStays(bs: seq<Block>, lo: int, hi: int, ops: seq<Op>, b: Block)
    requires HeapOk(bs, lo, hi) && b in Live(bs)
    requires Release(b.Payload()) !in ops
    ensures b in Live(RunOps(bs, ops))
    decreases |ops|
  {
    if ops != [] {
      match ops[0] {
        case Alloc(n) =>
          MallocOk(bs, lo, hi, n);
          RoundedFits(n);
          var i := FindFree(bs, Rounded(n));
          if n != 0 && i < |bs| { TakeOk(bs, lo, hi, i, Rounded(n)); }
        case Release(p) => FreeOk(bs, lo, hi, p);
      }
      LiveStays(Apply(bs, ops[0]), lo, hi, ops[1..], b);
    }
  }

  // ------------------------------------------------------------------
  // The first-fit decision
  // ------------------------------------------------------------------

  /** `g` is cut from the front of `f`, the lowest-addressed free block that is large enough; little is wasted. */
  ghost predicate Grants(bs: seq<Block>, size: int, f: Block, g: Block) {
    && f in bs && f.free && f.size >= size
    && (forall b | b in bs && b.free && b.size >= size :: f.addr <= b.addr)
    && !g.free && g.addr == f.addr && g.size <= f.size
    && size <= g.size < size + HEADER + MIN_BLOCK_SIZE
    && g.size == if f.size >= size + HEADER + MIN_BLOCK_SIZE then size else f.size
  }

  /** `malloc` grants the lowest free block that fits, and fails exactly when none does. */
  lemma GrantsLowest(bs: seq<Block>, lo: int, hi: int, n: int) returns (f: Block, g: Block)
    requires HeapOk(bs, lo, hi) && n > 0
    ensures Malloc(bs, n).1.None? <==> forall b | b in bs && b.free :: b.size < Rounded(n)
    ensures Malloc(bs, n).1.None? ==> Malloc(bs, n).0 == bs
    ensures Malloc(bs, n).1.Some? ==>
              && Grants(bs, Rounded(n), f, g) && Malloc(bs, n).1.value == g.Payload()
              && Live(Malloc(bs, n).0) == Live(bs) + {g} && g !in Live(bs)
  {
    RoundedFits(n);
    var i := FindFree(bs, Rounded(n));
    if i == |bs| {
      forall b | b in bs && b.free ensures b.size < Rounded(n) { var j :| 0 <= j < |bs| && bs[j] == b; }
      f, g := bs[0], bs[0];
    } else {
      TakeOk(bs, lo, hi, i, Rounded(n));
      f, g := bs[i], Taken(bs[i], Rounded(n));
      forall b | b in bs && b.free && b.size >= Rounded(n) ensures bs[i].addr <= b.addr {
        var j :| 0 <= j < |bs| && bs[j] == b;
        if i < j { Ordered(bs, lo, hi, i, j); }
      }
      if g in Live(bs) { Disjoint(bs, lo, hi, f, g); }
    }
  }

  /** Rounding up covers the request exactly when the 64-bit addition does not wrap; otherwise it gives the smallest size. */
  lemma RoundingWraps(n: int)
    requires 0 < n < WORD
    ensures Rounded(n) >= n <==> n <= WORD - 8
    ensures n <= WORD - 8 ==> Rounded(n) < n + MIN_BLOCK_SIZE
    ensures n > WORD - 8 ==> Rounded(n) == MIN_BLOCK_SIZE
  {
    if n <= WORD - 8 {
      assert (n + 7) % WORD == n + 7;
    } else {
      assert (n + 7) % WORD == n + 7 - WORD;
    }
  }

  /** A request for nothing gets nothing. */
  lemma NothingForZero(bs: seq<Block>)
    ensures Malloc(bs, 0).1.None? && Malloc(bs, 0).0 == bs
  {
  }

  /** Below that it is the least multiple of 8 that covers the request and the smallest size. */
  lemma RoundedLeast(n: int)
    requires 0 < n <= WORD - 8
    ensures Rounded(n) % 8 == 0 && Rounded(n) >= n && Rounded(n) >= 16
    ensures forall r | r % 8 == 0 && r >= n && r >= 16 :: Rounded(n) <= r
  {
    assert (n + 7) % WORD == n + 7;
  }

  /** So a request within 7 bytes of 2^64 succeeds as soon as any block is free, with a block of fewer than 64 bytes. */
  lemma HugeRequestGranted(bs: seq<Block>, lo: int, hi: int, n: int) returns (g: Block)
    requires HeapOk(bs, lo, hi) && WORD - 8 < n < WORD
    ensures Malloc(bs, n).1.None? <==> forall b | b in bs && b.free :: b.size < MIN_BLOCK_SIZE
    ensures Malloc(bs, n).1.Some? ==>
              && Live(Malloc(bs, n).0) == Live(bs) + {g} && g !in Live(bs)
              && Malloc(bs, n).1.value == g.Payload() && MIN_BLOCK_SIZE <= g.size < 64
  {
    RoundingWraps(n);
    var f;
    f, g := GrantsLowest(bs, lo, hi, n);
  }
}
