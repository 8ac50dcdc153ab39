/**
 * Memory as the first-fit allocator sees it: block headers are records at
 * addresses, linked by their `next` addresses, and payload bytes live beside
 * them.  Writing a header destroys the bytes it covers, and writing bytes
 * destroys any header they cover, so that keeping headers and payloads apart is
 * something to prove.
 */
module HeapMemory {
  import opened HeapModel

  const BLOCK_MAGIC := 0xDEADBEEF
  const FREE_MAGIC := 0xFEEDFACE
  const NULL := 0

  datatype Header = Header(size: int, isFree: bool, next: int, magic: int)

  /** The address of the `i`-th block, or NULL past the end. */
  ghost function AddrOf(bs: seq<Block>, i: nat): int {
    if i < |bs| then bs[i].addr else NULL
  }

  ghost function HeaderOf(bs: seq<Block>, i: nat): Header
    requires i < |bs|
  {
    Header(bs[i].size, bs[i].free, AddrOf(bs, i + 1), if bs[i].free then FREE_MAGIC else BLOCK_MAGIC)
  }

  ghost predicate HeaderAt(hdr: map<int, Header>, bs: seq<Block>, i: nat) {
    i < |bs| && bs[i].addr in hdr && hdr[bs[i].addr] == HeaderOf(bs, i)
  }

  /** The headers in memory, followed from the first block, are exactly `bs`. */
  ghost predicate Chain(hdr: map<int, Header>, bs: seq<Block>) {
    forall i {:trigger HeaderAt(hdr, bs, i)} | 0 <= i < |bs| :: HeaderAt(hdr, bs, i)
  }

  /** Only the header of a live block looks like one. */
  ghost predicate NoForgery(hdr: map<int, Header>, bs: seq<Block>) {
    forall a | a in hdr && hdr[a].magic == BLOCK_MAGIC && !hdr[a].isFree ::
      exists i | 0 <= i < |bs| :: bs[i].addr == a && !bs[i].free
  }

  /** Is `x` a byte of the payload of a live block? */
  ghost predicate LiveByte(bs: seq<Block>, x: int) {
    exists b | b in bs :: !b.free && b.Payload() <= x < b.End()
  }

  /** Is `x` a byte of a payload, live or free? */
  ghost predicate PayloadByte(bs: seq<Block>, x: int) {
    exists b | b in bs :: b.Payload() <= x < b.End()
  }

  ghost predicate SameByte(d: map<int, int>, e: map<int, int>, x: int) {
    (x in d <==> x in e) && (x in d ==> d[x] == e[x])
  }

  /** Every byte that is live in `bs` holds the same in both memories. */
  ghost predicate LiveBytesKept(bs: seq<Block>, d: map<int, int>, e: map<int, int>) {
    forall x {:trigger SameByte(d, e, x)} | LiveByte(bs, x) :: SameByte(d, e, x)
  }

  /** Memory after the header `h` is written at `a`: headers it overlaps are gone. */
  function Put(hdr: map<int, Header>, a: int, h: Header): map<int, Header> {
    (map x | x in hdr && (x + HEADER <= a || a + HEADER <= x) :: hdr[x])[a := h]
  }

  function Zeros(p: int, n: int): (m: map<int, int>)
    ensures forall x :: x in m <==> p <= x < p + n
    ensures forall x | x in m :: m[x] == 0
    decreases if n < 0 then 0 else n
  {
    if n <= 0 then map[] else Zeros(p, n - 1)[p + n - 1 := 0]
  }

  /** No byte of a free block, header included, belongs to a live payload. */
  lemma FreeInterior(bs: seq<Block>, lo: int, hi: int, i: nat)
    requires Tiles(bs, lo, hi) && i < |bs| && bs[i].free
    ensures forall x | bs[i].addr <= x < bs[i].End() :: !LiveByte(bs, x)
  {
    forall x | bs[i].addr <= x < bs[i].End() ensures !LiveByte(bs, x) {
      forall b | b in bs && !b.free ensures !(b.Payload() <= x < b.End()) { Disjoint(bs, lo, hi, b, bs[i]); }
    }
  }

  /** Writing the two headers of a split relinks the chain. */
  lemma SplitChain(hdr: map<int, Header>, bs: seq<Block>, lo: int, hi: int, i: nat, size: int)
    requires Tiles(bs, lo, hi) && Chain(hdr, bs) && NoForgery(hdr, bs)
    requires i < |bs| && bs[i].free && 0 <= size && bs[i].size - size >= HEADER + MIN_BLOCK_SIZE
    ensures var r := SplitAt(bs, i, size);
            var hdr' := Put(Put(hdr, r[i + 1].addr, HeaderOf(r, i + 1)), r[i].addr, HeaderOf(r, i));
            Chain(hdr', r) && NoForgery(hdr', r)
  {
    var r := SplitAt(bs, i, size);
    var hdr' := Put(Put(hdr, r[i + 1].addr, HeaderOf(r, i + 1)), r[i].addr, HeaderOf(r, i));
    forall j | 0 <= j < |r| ensures HeaderAt(hdr', r, j) { SplitHeader(hdr, bs, lo, hi, i, size, j); }
    forall x | x in hdr' && hdr'[x].magic == BLOCK_MAGIC && !hdr'[x].isFree
      ensures exists j | 0 <= j < |r| :: r[j].addr == x && !r[j].free
    {
      var k :| 0 <= k < |bs| && bs[k].addr == x && !bs[k].free;
      assert r[if k < i then k else k + 1] == bs[k];
    }
  }

  lemma SplitHeader(hdr: map<int, Header>, bs: seq<Block>, lo: int, hi: int, i: nat, size: int, j: nat)
    requires Tiles(bs, lo, hi) && Chain(hdr, bs)
    requires i < |bs| && 0 <= size && bs[i].size - size >= HEADER + MIN_BLOCK_SIZE && j <= |bs|
    ensures var r := SplitAt(bs, i, size);
            HeaderAt(Put(Put(hdr, r[i + 1].addr, HeaderOf(r, i + 1)), r[i].addr, HeaderOf(r, i)), r, j)
  {
    var r := SplitAt(bs, i, size);
    assert r[i].addr == bs[i].addr && bs[i].addr < r[i + 1].addr < bs[i].End();
    if j < i {
      Ordered(bs, lo, hi, j, i);
      assert HeaderAt(hdr, bs, j);
      assert r[j] == bs[j] && r[j + 1].addr == bs[j + 1].addr;
    } else if j > i + 1 {
      Ordered(bs, lo, hi, i, j - 1);
      assert HeaderAt(hdr, bs, j - 1);
      assert r[j] == bs[j - 1] && AddrOf(r, j + 1) == AddrOf(bs, j);
    }
  }

  lemma MarkChain(hdr: map<int, Header>, bs: seq<Block>, lo: int, hi: int, i: nat, free: bool)
    requires Tiles(bs, lo, hi) && Chain(hdr, bs) && NoForgery(hdr, bs) && i < |bs|
    ensures var r := bs[i := bs[i].(free := free)];
            var hdr' := Put(hdr, bs[i].addr, HeaderOf(r, i));
            Tiles(r, lo, hi) && Chain(hdr', r) && NoForgery(hdr', r)
  {
    var r := bs[i := bs[i].(free := free)];
    var hdr' := Put(hdr, bs[i].addr, HeaderOf(r, i));
    assert forall j | 0 <= j < |bs| :: r[j].addr == bs[j].addr && r[j].size == bs[j].size;
    forall j | 0 <= j < |r| ensures HeaderAt(hdr', r, j) {
      if j != i {
        if j < i { Ordered(bs, lo, hi, j, i); } else { Ordered(bs, lo, hi, i, j); }
        assert HeaderAt(hdr, bs, j);
      }
    }
    forall x | x in hdr' && hdr'[x].magic == BLOCK_MAGIC && !hdr'[x].isFree
      ensures exists j | 0 <= j < |r| :: r[j].addr == x && !r[j].free
    {
      if x == bs[i].addr {
        assert r[i].addr == x;
      } else {
        var k :| 0 <= k < |bs| && bs[k].addr == x && !bs[k].free;
        assert r[k] == bs[k];
      }
    }
  }

  /** Is `x` in the payload of the live block with payload address `p`? */
  ghost predicate Owns(bs: seq<Block>, p: int, x: int) {
    var i := LiveAt(bs, p);
    i < |bs| && p <= x < bs[i].End()
  }

  /** What `Clear` removes is never a header in use. */
  lemma ClearChain(hdr: map<int, Header>, bs: seq<Block>, lo: int, hi: int, i: nat)
    requires Tiles(bs, lo, hi) && Chain(hdr, bs) && NoForgery(hdr, bs) && i < |bs|
    ensures var rest := map a | a in hdr && (a + HEADER <= bs[i].Payload() || bs[i].End() <= a) :: hdr[a];
            Chain(rest, bs) && NoForgery(rest, bs)
  {
    var rest := map a | a in hdr && (a + HEADER <= bs[i].Payload() || bs[i].End() <= a) :: hdr[a];
    forall j | 0 <= j < |bs| ensures HeaderAt(rest, bs, j) {
      assert HeaderAt(hdr, bs, j);
      Disjoint(bs, lo, hi, bs[i], bs[j]);
    }
  }

  lemma StoreChain(hdr: map<int, Header>, bs: seq<Block>, lo: int, hi: int, x: int)
    requires Tiles(bs, lo, hi) && Chain(hdr, bs) && NoForgery(hdr, bs) && LiveByte(bs, x)
    ensures var rest := map a | a in hdr && !(a <= x < a + HEADER) :: hdr[a];
            Chain(rest, bs) && NoForgery(rest, bs)
  {
    var rest := map a | a in hdr && !(a <= x < a + HEADER) :: hdr[a];
    var b :| b in bs && !b.free && b.Payload() <= x < b.End();
    forall j | 0 <= j < |bs| ensures HeaderAt(rest, bs, j) {
      assert HeaderAt(hdr, bs, j);
      Disjoint(bs, lo, hi, b, bs[j]);
    }
  }

  /** A header that passes the checks of `first_fit_free` is that of a live block... */
  lemma FoundLive(hdr: map<int, Header>, bs: seq<Block>, p: int)
    requires NoForgery(hdr, bs) && p - HEADER in hdr && hdr[p - HEADER].magic == BLOCK_MAGIC && !hdr[p - HEADER].isFree
    ensures LiveAt(bs, p) < |bs|
  {
    var i :| 0 <= i < |bs| && bs[i].addr == p - HEADER && !bs[i].free;
    assert bs[i].Payload() == p;
  }

  /** ...and every live block passes them. */
  lemma LiveFound(hdr: map<int, Header>, bs: seq<Block>, lo: int, hi: int, p: int)
    requires Tiles(bs, lo, hi) && Chain(hdr, bs)
    ensures LiveAt(bs, p) < |bs| ==>
              var a := p - HEADER;
              a in hdr && hdr[a].magic == BLOCK_MAGIC && !hdr[a].isFree && lo <= a < hi
  {
    var i := LiveAt(bs, p);
    if i < |bs| {
      Within(bs, lo, hi, i);
      assert HeaderAt(hdr, bs, i);
    }
  }

  /** Bytes that were live before a block is marked free are still payload, and only its own bytes are its own. */
  lemma ReleasedByte(bs: seq<Block>, lo: int, hi: int, i: nat, x: int)
    requires Tiles(bs, lo, hi) && i < |bs| && !bs[i].free && LiveByte(bs, x)
    ensures PayloadByte(bs[i := bs[i].(free := true)], x)
    ensures !(bs[i].addr <= x < bs[i].Payload())
  {
    var j :| 0 <= j < |bs| && !bs[j].free && bs[j].Payload() <= x < bs[j].End();
    var f := bs[i := bs[i].(free := true)];
    assert f[j].Payload() <= x < f[j].End();
    Disjoint(bs, lo, hi, bs[i], bs[j]);
  }

  /** Taking a free block adds one live block. */
  lemma OneMore(bs: seq<Block>, lo: int, hi: int, i: nat, size: int)
    requires HeapOk(bs, lo, hi) && i < |bs| && bs[i].free && 0 <= size <= bs[i].size && size % 8 == 0
    ensures Coalesced(TakeAt(bs, i, size)) && |Live(TakeAt(bs, i, size))| == |Live(bs)| + 1
  {
    TakeOk(bs, lo, hi, i, size);
    var t := Taken(bs[i], size);
    if t in Live(bs) { Disjoint(bs, lo, hi, t, bs[i]); }
  }

  /** Freeing a live block removes one. */
  lemma OneLess(bs: seq<Block>, lo: int, hi: int, i: nat)
    requires HeapOk(bs, lo, hi) && i < |bs| && !bs[i].free
    ensures |Live(HeapModel.Free(bs, bs[i].Payload()))| == |Live(bs)| - 1
  {
    FreeOk(bs, lo, hi, bs[i].Payload());
    forall b | b in Live(bs) && b.Payload() == bs[i].Payload() ensures b == bs[i] { Disjoint(bs, lo, hi, b, bs[i]); }
    assert Live(HeapModel.Free(bs, bs[i].Payload())) == Live(bs) - {bs[i]};
  }

  ghost function Merged(bs: seq<Block>, k: nat): seq<Block>
    requires k + 1 < |bs|
  {
    bs[..k] + [bs[k].(size := bs[k].size + HEADER + bs[k + 1].size)] + bs[k + 2..]
  }

  lemma MergeTiles(bs: seq<Block>, lo: int, hi: int, k: nat)
    requires Tiles(bs, lo, hi) && Aligned(bs) && k + 1 < |bs|
    ensures Tiles(Merged(bs, k), lo, hi) && Aligned(Merged(bs, k))
  {
    var r := Merged(bs, k);
    assert bs[k + 1].addr == bs[k].End();
    assert forall j | 0 <= j < k :: r[j] == bs[j];
    assert forall j | k < j < |r| :: r[j] == bs[j + 1];
    forall j | 0 <= j < |r| - 1 ensures r[j + 1].addr == r[j].End() {
      if j < k { assert bs[j + 1].addr == bs[j].End(); } else { assert bs[j + 2].addr == bs[j + 1].End(); }
    }
  }

  lemma MergeList(bs: seq<Block>, lo: int, hi: int, k: nat)
    requires Tiles(bs, lo, hi) && k + 1 < |bs| && bs[k].free && bs[k + 1].free
    ensures var r := Merged(bs, k); r[..k] + Coalesce(r[k..]) == bs[..k] + Coalesce(bs[k..])
  {
    var r := Merged(bs, k);
    assert bs[k + 1].addr == bs[k].End();
    assert r[k..] == [r[k]] + bs[k..][2..] && r[..k] == bs[..k];
  }

  /** Merging loses no payload byte, and the header it rewrites holds none. */
  lemma MergeBytes(bs: seq<Block>, lo: int, hi: int, k: nat)
    requires Tiles(bs, lo, hi) && k + 1 < |bs|
    ensures forall x | PayloadByte(bs, x) :: PayloadByte(Merged(bs, k), x) && !(bs[k].addr <= x < bs[k].addr + HEADER)
  {
    var r := Merged(bs, k);
    forall x | PayloadByte(bs, x) ensures PayloadByte(r, x) && !(bs[k].addr <= x < bs[k].addr + HEADER) {
      var i :| 0 <= i < |bs| && bs[i].Payload() <= x < bs[i].End();
      Disjoint(bs, lo, hi, bs[i], bs[k]);
      assert bs[k + 1].addr == bs[k].End();
      var j := if i <= k then i else i - 1;
      assert r[j].Payload() <= x < r[j].End();
    }
  }

  lemma LastStep(hdr: map<int, Header>, bs: seq<Block>, lo: int, hi: int, k: nat)
    requires Tiles(bs, lo, hi) && lo > 0 && Chain(hdr, bs) && k < |bs| && bs[k].addr in hdr && hdr[bs[k].addr].next == NULL
    ensures bs[..k] + Coalesce(bs[k..]) == bs
  {
    assert HeaderAt(hdr, bs, k);
    if k + 1 < |bs| { Within(bs, lo, hi, k + 1); }
  }

  lemma WalkStep(bs: seq<Block>, lo: int, hi: int, k: nat)
    requires Tiles(bs, lo, hi) && k + 1 < |bs| && !(bs[k].free && bs[k + 1].free)
    ensures bs[..k + 1] + Coalesce(bs[k + 1..]) == bs[..k] + Coalesce(bs[k..])
  {
    assert bs[k..][1..] == bs[k + 1..];
    assert bs[..k + 1] == bs[..k] + [bs[k]];
  }

  lemma MergeChain(hdr: map<int, Header>, bs: seq<Block>, lo: int, hi: int, k: nat)
    requires Tiles(bs, lo, hi) && Chain(hdr, bs) && NoForgery(hdr, bs) && k + 1 < |bs| && bs[k].free && bs[k + 1].free
    ensures var r := Merged(bs, k);
            var hdr' := Put(hdr, bs[k].addr, HeaderOf(r, k));
            Chain(hdr', r) && NoForgery(hdr', r)
  {
    var r := Merged(bs, k);
    var hdr' := Put(hdr, bs[k].addr, HeaderOf(r, k));
    assert forall j | 0 <= j < k :: r[j] == bs[j];
    assert forall j | k < j < |r| :: r[j] == bs[j + 1];
    forall j | 0 <= j < |r| ensures HeaderAt(hdr', r, j) {
      if j < k {
        Ordered(bs, lo, hi, j, k);
        assert HeaderAt(hdr, bs, j) && r[j + 1].addr == bs[j + 1].addr;
      } else if j > k {
        Ordered(bs, lo, hi, k, j + 1);
        assert HeaderAt(hdr, bs, j + 1) && AddrOf(r, j + 1) == AddrOf(bs, j + 2);
      }
    }
    forall x | x in hdr' && hdr'[x].magic == BLOCK_MAGIC && !hdr'[x].isFree
      ensures exists j | 0 <= j < |r| :: r[j].addr == x && !r[j].free
    {
      var i :| 0 <= i < |bs| && bs[i].addr == x && !bs[i].free;
      assert r[if i < k then i else i - 1] == bs[i];
    }
  }
}
