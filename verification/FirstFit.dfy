/** The first-fit allocator over memory, with its search, split and merge loops in place. */
module FirstFit {
  import opened HeapAccounts
  import opened HeapMemory
  import opened HeapModel
  import opened Options

  class Heap {
    var hdr: map<int, Header>
    var data: map<int, int>
    var heapStart: int
    var heapEnd: int
    var totalHeapSize: int
    var initialized: bool
    var totalAllocations: int
    var totalFrees: int
    var currentAllocatedBlocks: int
    ghost var blocks: seq<Block>

    ghost predicate Linked()
      reads this
    {
      && heapStart > 0 && heapStart % 8 == 0 && totalHeapSize == heapEnd - heapStart
      && Tiles(blocks, heapStart, heapEnd) && Aligned(blocks)
      && Chain(hdr, blocks) && NoForgery(hdr, blocks)
    }

    ghost predicate Valid()
      reads this
    {
      initialized ==> Linked() && Coalesced(blocks) && Counted()
    }

    /** The counters agree with the blocks. */
    ghost predicate Counted()
      reads this`blocks, this`totalAllocations, this`totalFrees, this`currentAllocatedBlocks
    {
      currentAllocatedBlocks == |Live(blocks)| == totalAllocations - totalFrees
    }

    /** Memory at boot: no header has been written yet. */
    constructor ()
      ensures !initialized && hdr == map[]
    {
      initialized := false;
      hdr, data := map[], map[];
      heapStart, heapEnd, totalHeapSize := NULL, NULL, 0;
      totalAllocations, totalFrees, currentAllocatedBlocks := 0, 0, 0;
      blocks := [];
    }

    method WriteHeader(a: int, h: Header)
      modifies this`hdr, this`data
      ensures hdr == Put(old(hdr), a, h)
      ensures forall x | !(a <= x < a + HEADER) :: SameByte(data, old(data), x)
    {
      hdr := Put(hdr, a, h);
      data := map x | x in data && !(a <= x < a + HEADER) :: data[x];
    }

    /** `memset(p, 0, n)` */
    method Clear(p: int, n: int)
      modifies this`hdr, this`data
      ensures hdr == map a | a in old(hdr) && (a + HEADER <= p || p + n <= a) :: old(hdr)[a]
      ensures forall x | p <= x < p + n :: x in data && data[x] == 0
      ensures forall x | !(p <= x < p + n) :: SameByte(data, old(data), x)
    {
      hdr := map a | a in hdr && (a + HEADER <= p || p + n <= a) :: hdr[a];
      data := data + Zeros(p, n);
    }

    method Init(startAddr: int, totalSize: int)
      requires startAddr >= 0 && 0 <= totalSize < WORD
      modifies this
      ensures startAddr == NULL || totalSize < HEADER ==> unchanged(this)
      ensures startAddr != NULL && totalSize >= HEADER ==>
                var lo := (startAddr + 7) / 8 * 8;
                var hi := startAddr + totalSize;
                && initialized && heapStart == lo && heapEnd == hi
                && totalAllocations == 0 && totalFrees == 0 && currentAllocatedBlocks == 0
                && (lo + HEADER <= hi ==> blocks == [Block(lo, hi - lo - HEADER, true)])
                && (old(hdr) == map[] ==> (Valid() <==> lo + HEADER <= hi))
    {
      if startAddr == NULL || totalSize < HEADER {
        return;
      }
      var alignedStart := (startAddr + 7) / 8 * 8;
      var adjustedSize := totalSize - (alignedStart - startAddr);
      heapStart := alignedStart;
      heapEnd := alignedStart + adjustedSize;
      totalHeapSize := adjustedSize;
      WriteHeader(heapStart, Header((adjustedSize - HEADER) % WORD, true, NULL, FREE_MAGIC));
      initialized := true;
      totalAllocations, totalFrees, currentAllocatedBlocks := 0, 0, 0;
      blocks := [Block(heapStart, (adjustedSize - HEADER) % WORD, true)];
    }

    method FindFreeBlock(size: int) returns (current: int, ghost i: nat)
      requires Linked()
      ensures i == FindFree(blocks, size) && current == AddrOf(blocks, i)
    {
      current, i := heapStart, 0;
      assert blocks[0..] == blocks;
      while current != NULL
        invariant 0 <= i <= |blocks| && current == AddrOf(blocks, i)
        invariant FindFree(blocks, size) == i + FindFree(blocks[i..], size)
        decreases |blocks| - i
      {
        assert HeaderAt(hdr, blocks, i);
        if hdr[current].isFree && hdr[current].size >= size {
          return;
        }
        current := hdr[current].next;
        assert blocks[i..][1..] == blocks[i + 1..];
        i := i + 1;
        if i < |blocks| { Within(blocks, heapStart, heapEnd, i); }
      }
      if i < |blocks| { Within(blocks, heapStart, heapEnd, i); }
    }

    /** `split_block`: the free block at `a` keeps `size` bytes; the rest becomes a new free block, if it is worth one. */
    method SplitBlock(a: int, size: int, ghost i: nat)
      requires Linked() && i < |blocks| && blocks[i].addr == a && blocks[i].free
      requires 0 <= size <= blocks[i].size && size % 8 == 0
      modifies this`hdr, this`data, this`blocks
      ensures Linked() && i < |blocks| && blocks[i].free
      ensures blocks == SplitAt(old(blocks), i, size)
      ensures LiveBytesKept(old(blocks), data, old(data))
    {
      assert HeaderAt(hdr, blocks, i);
      var h := hdr[a];
      var remaining := h.size - size;
      if remaining < HEADER + MIN_BLOCK_SIZE {
        return;
      }
      var newBlock := a + HEADER + size;
      SplitLinks(blocks, heapStart, heapEnd, i, size);
      SplitChain(hdr, blocks, heapStart, heapEnd, i, size);
      FreeInterior(blocks, heapStart, heapEnd, i);
      WriteHeader(newBlock, Header(remaining - HEADER, true, h.next, FREE_MAGIC));
      ghost var d := data;
      WriteHeader(a, Header(size, h.isFree, newBlock, h.magic));
      forall x | LiveByte(old(blocks), x) ensures SameByte(data, old(data), x) {
        assert SameByte(data, d, x) && SameByte(d, old(data), x);
      }
      blocks := SplitAt(blocks, i, size);
    }

    /** Marks the block at `a` as taken or as free. */
    method Mark(a: int, free: bool, ghost i: nat)
      requires Linked() && i < |blocks| && blocks[i].addr == a
      modifies this`hdr, this`data, this`blocks
      ensures Linked() && blocks == old(blocks)[i := old(blocks)[i].(free := free)]
      ensures forall x | !(a <= x < a + HEADER) :: SameByte(data, old(data), x)
    {
      assert HeaderAt(hdr, blocks, i);
      MarkChain(hdr, blocks, heapStart, heapEnd, i, free);
      var h := hdr[a];
      WriteHeader(a, h.(isFree := free, magic := if free then FREE_MAGIC else BLOCK_MAGIC));
      blocks := blocks[i := blocks[i].(free := free)];
    }

    /** `first_fit_malloc` */
    method Malloc(n: int) returns (p: int)
      requires Valid() && 0 <= n < WORD
      modifies this`hdr, this`data, this`blocks, this`totalAllocations, this`currentAllocatedBlocks
      ensures Valid()
      ensures !initialized ==> p == NULL && unchanged(this)
      ensures initialized ==>
                var (bs, r) := HeapModel.Malloc(old(blocks), n);
                && blocks == bs && p == (if r.Some? then r.value else NULL)
                && totalAllocations == old(totalAllocations) + (if r.Some? then 1 else 0)
                && LiveBytesKept(old(blocks), data, old(data))
    {
      if !initialized || n == 0 {
        return NULL;
      }
      var size := (n + 7) % WORD / 8 * 8;
      if size < MIN_BLOCK_SIZE {
        size := MIN_BLOCK_SIZE;
      }
      RoundedFits(n);
      var block, i := FindFreeBlock(size);
      if block == NULL {
        if i < |blocks| { Within(blocks, heapStart, heapEnd, i); }
        return NULL;
      }
      Grant(block, size, i);
      return block + HEADER;
    }

    method Grant(block: int, size: int, ghost i: nat)
      requires initialized && Valid() && i < |blocks| && blocks[i].addr == block && blocks[i].free
      requires 0 <= size <= blocks[i].size && size % 8 == 0
      modifies this`hdr, this`data, this`blocks, this`totalAllocations, this`currentAllocatedBlocks
      ensures Valid() && blocks == TakeAt(old(blocks), i, size)
      ensures totalAllocations == old(totalAllocations) + 1
      ensures LiveBytesKept(old(blocks), data, old(data))
    {
      OneMore(blocks, heapStart, heapEnd, i, size);
      Take(block, size, i);
      totalAllocations := totalAllocations + 1;
      currentAllocatedBlocks := currentAllocatedBlocks + 1;
    }

    /** Splitting and marking the chosen block. */
    method Take(block: int, size: int, ghost i: nat)
      requires Linked() && i < |blocks| && blocks[i].addr == block && blocks[i].free
      requires 0 <= size <= blocks[i].size && size % 8 == 0
      modifies this`hdr, this`data, this`blocks
      ensures Linked() && blocks == TakeAt(old(blocks), i, size)
      ensures LiveBytesKept(old(blocks), data, old(data))
    {
      FreeInterior(blocks, heapStart, heapEnd, i);
      SplitBlock(block, size, i);
      ghost var d := data;
      Mark(block, false, i);
      forall x | LiveByte(old(blocks), x) ensures SameByte(data, old(data), x) {
        assert SameByte(data, d, x) && SameByte(d, old(data), x);
      }
    }

    /** `first_fit_free`: a header that is not in memory does not carry the magic number. */
    method Free(ptr: int)
      requires Valid()
      modifies this`hdr, this`data, this`blocks, this`totalFrees, this`currentAllocatedBlocks
      ensures Valid()
      ensures !initialized || ptr == NULL ==> unchanged(this)
      ensures initialized && ptr != NULL ==>
                && blocks == HeapModel.Free(old(blocks), ptr)
                && totalFrees == old(totalFrees) + (if LiveAt(old(blocks), ptr) < |old(blocks)| then 1 else 0)
                && (forall x | LiveByte(old(blocks), x) ::
                      if Owns(old(blocks), ptr, x) then x in data && data[x] == 0 else SameByte(data, old(data), x))
    {
      if !initialized || ptr == NULL {
        return;
      }
      var block := ptr - HEADER;
      ghost var i := LiveAt(blocks, ptr);
      LiveFound(hdr, blocks, heapStart, heapEnd, ptr);
      if block !in hdr || hdr[block].magic != BLOCK_MAGIC || hdr[block].isFree
         || block < heapStart || block >= heapEnd {
        return;
      }
      FoundLive(hdr, blocks, ptr);
      OneLess(blocks, heapStart, heapEnd, i);
      FreeOk(blocks, heapStart, heapEnd, ptr);
      totalFrees := totalFrees + 1;
      currentAllocatedBlocks := currentAllocatedBlocks - 1;
      Release(ptr, i);
    }

    /** Marking the block free, clearing its payload and merging it with its neighbours. */
    method Release(ptr: int, ghost i: nat)
      requires Linked() && i == LiveAt(blocks, ptr) < |blocks|
      modifies this`hdr, this`data, this`blocks
      ensures Linked() && blocks == HeapModel.Free(old(blocks), ptr)
      ensures forall x | LiveByte(old(blocks), x) ::
                if Owns(old(blocks), ptr, x) then x in data && data[x] == 0 else SameByte(data, old(data), x)
    {
      ghost var bs := blocks;
      Scrub(ptr, i);
      ghost var d := data;
      CoalesceBlocks();
      forall x | LiveByte(bs, x)
        ensures if Owns(bs, ptr, x) then x in data && data[x] == 0 else SameByte(data, old(data), x)
      {
        ReleasedByte(bs, heapStart, heapEnd, i, x);
        assert SameByte(data, d, x);
        if !Owns(bs, ptr, x) { assert SameByte(d, old(data), x); }
      }
    }

    method Scrub(ptr: int, ghost i: nat)
      requires Linked() && i == LiveAt(blocks, ptr) < |blocks|
      modifies this`hdr, this`data, this`blocks
      ensures Linked() && blocks == old(blocks)[i := old(blocks)[i].(free := true)]
      ensures forall x | Owns(old(blocks), ptr, x) :: x in data && data[x] == 0
      ensures forall x | !Owns(old(blocks), ptr, x) && !(ptr - HEADER <= x < ptr) :: SameByte(data, old(data), x)
    {
      Mark(ptr - HEADER, true, i);
      assert HeaderAt(hdr, blocks, i);
      ghost var d := data;
      ClearChain(hdr, blocks, heapStart, heapEnd, i);
      Clear(ptr, hdr[ptr - HEADER].size);
      forall x | !Owns(old(blocks), ptr, x) && !(ptr - HEADER <= x < ptr) ensures SameByte(data, old(data), x) {
        assert SameByte(data, d, x) && SameByte(d, old(data), x);
      }
    }

    /** `first_fit_get_info` */
    method GetInfo() returns (info: Info)
      requires initialized && Valid()
      ensures info.totalMemory == totalHeapSize == info.usedMemory + info.freeMemory
      ensures info.freeMemory == FreeBytes(blocks) && info.freeBlocks == FreeCount(blocks)
      ensures info.allocatedBlocks == currentAllocatedBlocks
      ensures info.allocatedBlocks + info.freeBlocks == |blocks|
    {
      var used, free, taken, freeBlocks := 0, 0, 0, 0;
      var current := heapStart;
      ghost var i: nat := 0;
      assert blocks[0..] == blocks;
      while current != NULL
        invariant i <= |blocks| && current == AddrOf(blocks, i)
        invariant free + FreeBytes(blocks[i..]) == FreeBytes(blocks)
        invariant used + UsedBytes(blocks[i..]) == UsedBytes(blocks)
        invariant freeBlocks + FreeCount(blocks[i..]) == FreeCount(blocks)
        invariant freeBlocks + taken == i
        decreases |blocks| - i
      {
        assert HeaderAt(hdr, blocks, i);
        if hdr[current].isFree {
          free := free + hdr[current].size;
          freeBlocks := freeBlocks + 1;
        } else {
          used := used + hdr[current].size;
          taken := taken + 1;
        }
        used := used + HEADER;
        current := hdr[current].next;
        assert blocks[i..][1..] == blocks[i + 1..];
        i := i + 1;
        if i < |blocks| { Within(blocks, heapStart, heapEnd, i); }
      }
      if i < |blocks| { Within(blocks, heapStart, heapEnd, i); }
      Accounts(blocks, heapStart, heapEnd);
      LiveCounted(blocks, heapStart, heapEnd);
      info := Info(totalHeapSize, used, free, taken, freeBlocks);
    }

    /** `first_fit_collect_stats` */
    method CollectStats() returns (stats: Stats)
      requires initialized && Valid()
      ensures stats.heapTotal == totalHeapSize == stats.usedBytes + stats.freeBytes
      ensures stats.freeBytes == FreeBytes(blocks) && stats.largestFree == Largest(blocks)
      ensures stats.freeBlocks == |FreeList(blocks)| == |stats.freelist| + stats.truncated
      ensures stats.freelist <= FreeList(blocks) && |stats.freelist| <= MM_MAX_SIMPLE_BLOCKS
      ensures stats.truncated > 0 ==> |stats.freelist| == MM_MAX_SIMPLE_BLOCKS
    {
      var s := Stats(0, 0, 0, 0, 0, [], 0);
      var current := heapStart;
      ghost var i: nat := 0;
      GatherStart(blocks);
      while current != NULL
        invariant i <= |blocks| && current == AddrOf(blocks, i)
        invariant Gathered(s, blocks, i)
        decreases |blocks| - i
      {
        assert HeaderAt(hdr, blocks, i);
        GatherStep(s, blocks, i);
        if hdr[current].isFree {
          s := Collected(s, current, hdr[current].size);
        }
        current := hdr[current].next;
        i := i + 1;
        if i < |blocks| { Within(blocks, heapStart, heapEnd, i); }
      }
      if i < |blocks| { Within(blocks, heapStart, heapEnd, i); }
      GatherEnd(s, blocks);
      Accounts(blocks, heapStart, heapEnd);
      stats := Clamped(s, totalHeapSize);
    }

    /** A program writes a byte of a block it holds. */
    method Store(x: int, v: int)
      requires initialized && Valid() && LiveByte(blocks, x)
      modifies this`hdr, this`data
      ensures Valid() && data == old(data)[x := v]
    {
      StoreChain(hdr, blocks, heapStart, heapEnd, x);
      hdr := map a | a in hdr && !(a <= x < a + HEADER) :: hdr[a];
      data := data[x := v];
    }

    /** `coalesce_blocks` */
    method CoalesceBlocks()
      requires Linked()
      modifies this`hdr, this`data, this`blocks
      ensures Linked() && blocks == Coalesce(old(blocks))
      ensures forall x | PayloadByte(old(blocks), x) :: SameByte(data, old(data), x)
    {
      var current := heapStart;
      ghost var k: nat := 0;
      assert blocks[0..] == blocks && HeaderAt(hdr, blocks, 0);
      while current != NULL && hdr[current].next != NULL
        invariant Linked() && k < |blocks| && current == AddrOf(blocks, k) && current in hdr
        invariant blocks[..k] + Coalesce(blocks[k..]) == Coalesce(old(blocks))
        invariant forall x | PayloadByte(old(blocks), x) :: PayloadByte(blocks, x) && SameByte(data, old(data), x)
        decreases |blocks| - k
      {
        ghost var (bs, d) := (blocks, data);
        current, k := CoalesceStep(current, k);
        forall x | PayloadByte(old(blocks), x) ensures SameByte(data, old(data), x) {
          assert PayloadByte(bs, x) && SameByte(data, d, x) && SameByte(d, old(data), x);
        }
      }
      Within(blocks, heapStart, heapEnd, k);
      LastStep(hdr, blocks, heapStart, heapEnd, k);
    }

    /** One turn: merge with the next block, or move on to it. */
    method CoalesceStep(current: int, ghost k: nat) returns (next: int, ghost k': nat)
      requires Linked() && k < |blocks| && current == AddrOf(blocks, k) && current in hdr && hdr[current].next != NULL
      modifies this`hdr, this`data, this`blocks
      ensures Linked() && k' < |blocks| && |blocks| - k' < |old(blocks)| - k && next == AddrOf(blocks, k') && next in hdr
      ensures blocks[..k'] + Coalesce(blocks[k'..]) == old(blocks)[..k] + Coalesce(old(blocks)[k..])
      ensures forall x | PayloadByte(old(blocks), x) :: PayloadByte(blocks, x) && SameByte(data, old(data), x)
    {
      assert HeaderAt(hdr, blocks, k) && HeaderAt(hdr, blocks, k + 1);
      var h := hdr[current];
      if h.isFree && hdr[h.next].isFree {
        var currentEnd := current + HEADER + h.size;
        if currentEnd == h.next {
          Merge(current, k);
          return current, k;
        }
      }
      WalkStep(blocks, heapStart, heapEnd, k);
      return h.next, k + 1;
    }

    method Merge(current: int, ghost k: nat)
      requires Linked() && k + 1 < |blocks| && current == blocks[k].addr
      requires blocks[k].free && blocks[k + 1].free
      modifies this`hdr, this`data, this`blocks
      ensures Linked() && |blocks| == |old(blocks)| - 1 && blocks[k].addr == current && current in hdr
      ensures blocks[..k] + Coalesce(blocks[k..]) == old(blocks)[..k] + Coalesce(old(blocks)[k..])
      ensures forall x | PayloadByte(old(blocks), x) :: PayloadByte(blocks, x) && SameByte(data, old(data), x)
    {
      assert HeaderAt(hdr, blocks, k) && HeaderAt(hdr, blocks, k + 1);
      MergeTiles(blocks, heapStart, heapEnd, k);
      MergeList(blocks, heapStart, heapEnd, k);
      MergeBytes(blocks, heapStart, heapEnd, k);
      MergeChain(hdr, blocks, heapStart, heapEnd, k);
      var h := hdr[current];
      var nextBlock := hdr[h.next];
      WriteHeader(current, h.(size := h.size + HEADER + nextBlock.size, next := nextBlock.next));
      blocks := Merged(blocks, k);
    }
  }
}
