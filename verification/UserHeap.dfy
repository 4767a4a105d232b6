/** The allocator of user programs: `malloc` and `free` over a heap that ends at the process break. */
module UserHeap {
  import opened Prelude
  import opened Words
  import opened Bytes
  import opened PageTables
  import opened Machines
  import opened Vmm
  import opened Brk
  import opened BlockList
  import opened Allocations
  import opened HeapSteps
  import opened Heaps

  const HEAP_MAX_SIZE: nat := 0xFFF_FFFF_FFFF

  // What holds after `n` allocations: no two free blocks are neighbours, and the headers account for
  // all but at most a header's worth of bytes per allocation.
  ghost predicate Tidy(bs: seq<Block>, size: nat, n: nat) {
    NoAdjacentFree(bs) && Accounts(bs, size, n)
  }

  ghost predicate Accounts(bs: seq<Block>, size: nat, n: nat) {
    Weight(bs) <= size <= Weight(bs) + HEADER * n
  }

  // Growth has just appended a block of exactly the wanted size and nothing before it fits.
  ghost predicate JustGrown(bs: seq<Block>, size: nat) {
    bs != [] && NoAdjacentFree(bs[..|bs| - 1]) && NoFit(bs, |bs| - 1, size) && bs[|bs| - 1].free && bs[|bs| - 1].size == size
  }

  lemma GrownRetry(bs: seq<Block>, limit: nat, size: nat)
    requires NoAdjacentFree(bs) && NoFit(bs, |bs|, size)
    ensures JustGrown(AppendAt(bs, limit, size), size) && !NoFit(AppendAt(bs, limit, size), |bs| + 1, size)
  {
    var l := AppendAt(bs, limit, size);
    assert l[..|l| - 1] == bs;
    assert Fits(l[|bs|], size);
  }

  // Taking the new block whole leaves no free neighbours.
  lemma RetryApart(bs: seq<Block>, i: nat, size: nat)
    requires JustGrown(bs, size) && i < |bs| && Fits(bs[i], size)
    ensures i == |bs| - 1 && NoAdjacentFree(TakeAt(bs, i, size))
  {
    var l := TakeAt(bs, i, size);
    forall j | 0 <= j < |l| - 1 ensures !(l[j].free && l[j + 1].free) {
      if j + 1 < i {
        assert !(bs[..|bs| - 1][j].free && bs[..|bs| - 1][j + 1].free);
      }
    }
  }

  // The heap ends at the break of its process, and all of it is mapped.
  ghost predicate AtBreak(m: Machine, p: Process, h: Heap)
    reads m, p, h
  {
    && World(m) && p.cr3 in m.spaces.roots && HeapMapped(m, p)
    && h.Valid() && h.base == USER_HEAP_BASE && p.heapMax == h.base + h.heapSize
  }

  // `mapped` is what the frames hold that the heap grows by. Null only when nothing fits and the heap
  // has its maximal size or the break would wrap around.
  method Malloc(m: Machine, p: Process, h: Heap, size: Word, mapped: seq<Byte>, ghost n: nat) returns (ptr: Word)
    requires AtBreak(m, p, h) && Accounts(h.list.bs, h.heapSize, n)
    requires NoAdjacentFree(h.list.bs) || JustGrown(h.list.bs, size)
    requires size + HEADER < 0x1_0000_0000_0000_0000 && |mapped| == size + HEADER
    requires NoFit(h.list.bs, |h.list.bs|, size) && h.heapSize < HEAP_MAX_SIZE && p.heapMax + size + HEADER < 0x1_0000_0000_0000_0000 ==>
      p.heapMax + size + HEADER <= USER_END && m.Remaining() >= BreakFrames(p.heapMax, p.heapMax + size + HEADER)
    modifies m`frames, m`head, m`book, m`fillEntry, m`fillOffset, m`lazyBytes, p`heapMax, h
    ensures AtBreak(m, p, h)
    ensures ptr != 0 ==> Tidy(h.list.bs, h.heapSize, n + 1)
    ensures ptr == 0 ==> Tidy(h.list.bs, h.heapSize, n) && h.list == old(h.list) && h.ram == old(h.ram)
    ensures ptr == 0 <==> (NoFit(old(h.list.bs), |old(h.list.bs)|, size) &&
      (old(h.heapSize) >= HEAP_MAX_SIZE || old(p.heapMax) + size + HEADER >= 0x1_0000_0000_0000_0000))
    ensures ptr != 0 ==> ptr >= h.base + HEADER && var b := Block(ptr - h.base - HEADER, size, false);
      Gained(old(h.ram), old(h.list.bs), h.ram, h.list.bs, b) && Payload(h.ram, b) == Zeros(size)
    ensures !NoFit(old(h.list.bs), |old(h.list.bs)|, size) ==> LowestFit(h.base, old(h.list.bs), ptr, size)
    ensures p.heapMax == old(p.heapMax) + (if ptr != 0 && NoFit(old(h.list.bs), |old(h.list.bs)|, size) then size + HEADER else 0)
    decreases if NoFit(h.list.bs, |h.list.bs|, size) then 1 else 0
  {
    hide World; hide HeapMapped; hide Machine.Remaining; hide HeapOk; hide TakeAt; hide AppendAt; hide Weight; hide Kept; hide NoneBut; hide Payload; hide Zeros; hide NoAdjacentFree; hide JustGrown; hide BreakFrames; hide Translate; hide LowestFit;
    ghost var bs := h.list.bs;
    var node;
    ghost var i;
    node, i := h.FindFit(size);
    if node != 0 {
      if NoAdjacentFree(bs) { TakeApart(bs, i, size); } else { RetryApart(bs, i, size); }
      BlocksThere(h.base, h.ram, bs);
      HeapLayout(h);
      FirstIsLowest(h.base, bs, |h.ram.bytes|, i, size);
      ptr := h.Take(node, size, i);
      return;
    }
    NeverBoth(bs, size);
    if h.heapSize < HEAP_MAX_SIZE {
      var grown := SysSbrk(m, p, size + HEADER);
      if grown != PROTO_OK {
        return 0;
      }
      ghost var ram := h.ram;
      GrownRetry(bs, h.heapSize, size);
      h.Grow(mapped);
      ghost var ram1, bs1 := h.ram, h.list.bs;
      ptr := Malloc(m, p, h, size, mapped, n);
      GainedAfterGrowth(ram, bs, ram1, bs1, h.ram, h.list.bs, Block(ptr - h.base - HEADER, size, false));
      return;
    }
    return 0;
  }

  lemma NeverBoth(bs: seq<Block>, size: nat)
    requires NoFit(bs, |bs|, size) && (NoAdjacentFree(bs) || JustGrown(bs, size))
    ensures NoAdjacentFree(bs)
  {
    assert JustGrown(bs, size) ==> Fits(bs[|bs| - 1], size);
  }

  lemma GainedAfterGrowth(r0: Ram, b0: seq<Block>, r1: Ram, b1: seq<Block>, r2: Ram, b2: seq<Block>, b: Block)
    requires Same(r0, b0, r1, b1) && Gained(r1, b1, r2, b2, b)
    ensures Gained(r0, b0, r2, b2, b)
  {
    hide Payload;
  }

  // Null and a double free are refused; otherwise exactly this allocation goes.
  method Free(h: Heap, ptr: Word, ghost n: nat) returns (res: int)
    requires h.Valid() && Tidy(h.list.bs, h.heapSize, n) && (ptr == 0 || Known(h.base, h.list.bs, ptr))
    modifies h`ram, h`list
    ensures h.Valid() && Tidy(h.list.bs, h.heapSize, n) && h.heapSize == old(h.heapSize)
    ensures res == PROTO_ERR_INVALID_ARGUMENT <==> ptr == 0
    ensures res == PROTO_OK || res == PROTO_ERR_UNKNOWN || res == PROTO_ERR_INVALID_ARGUMENT
    ensures res == PROTO_OK <==> exists b :: Holds(h.base, old(h.list.bs), ptr, b)
    ensures forall b :: Holds(h.base, old(h.list.bs), ptr, b) ==> Lost(old(h.ram), old(h.list.bs), h.ram, h.list.bs, b)
    ensures res != PROTO_OK ==> h.list == old(h.list) && h.ram == old(h.ram)
  {
    hide HeapOk; hide Read; hide ReleaseAt; hide Weight; hide NoAdjacentFree; hide Lost;
    BlocksThere(h.base, h.ram, h.list.bs);
    if ptr == 0 {
      return PROTO_ERR_INVALID_ARGUMENT;
    }
    ghost var bs, i := h.list.bs, IndexOf(h.base, h.list.bs, ptr);
    HeapLayout(h);
    forall b | Holds(h.base, bs, ptr, b) ensures b == bs[i] {
      OneAt(h.base, bs, |h.ram.bytes|, b, bs[i]);
    }
    HeadersOf(h.base, h.ram, bs, i);
    var node := ptr - HEADER;
    if Read(h.ram, node - h.base).flags == H_FREE {
      return PROTO_ERR_UNKNOWN;
    }
    assert Holds(h.base, bs, ptr, bs[i]);
    ReleaseApart(bs, i);
    h.Release(node, i);
    return PROTO_OK;
  }

  lemma HeapLayout(h: Heap)
    requires h.Valid()
    ensures Layout(h.list.bs, |h.ram.bytes|)
  {
  }

  ghost predicate Live(base: nat, bs: seq<Block>, ptr: nat) {
    exists b :: Holds(base, bs, ptr, b)
  }

  predicate InTail(ptrs: seq<Word>, k: nat, ptr: nat) {
    exists j :: k <= j < |ptrs| && ptrs[j] == ptr
  }

  // The pointers from place `k` on are exactly the live ones.
  ghost predicate Listed(base: nat, bs: seq<Block>, ptrs: seq<Word>, k: nat) {
    forall p: nat :: InTail(ptrs, k, p) <==> Live(base, bs, p)
  }

  // Freeing everything, in whatever order, leaves one free block over the whole heap, short of it by
  // a header and at most 32 bytes for each of the `n` allocations ever made.
  method FreeAll(h: Heap, ptrs: seq<Word>, ghost n: nat)
    requires h.Valid() && Tidy(h.list.bs, h.heapSize, n)
    requires (forall i, j :: 0 <= i < j < |ptrs| ==> ptrs[i] != ptrs[j]) && Listed(h.base, h.list.bs, ptrs, 0)
    modifies h`ram, h`list
    ensures h.Valid() && h.heapSize == old(h.heapSize)
    ensures |h.list.bs| == 1 && h.list.bs[0].free && h.list.bs[0].at == 0
    ensures h.heapSize - HEADER - 32 * n <= h.list.bs[0].size <= h.heapSize - HEADER
  {
    hide HeapOk; hide Weight; hide NoAdjacentFree; hide Listed;
    for k := 0 to |ptrs|
      invariant h.Valid() && Tidy(h.list.bs, h.heapSize, n) && h.heapSize == old(h.heapSize)
      invariant Listed(h.base, h.list.bs, ptrs, k)
    {
      ghost var bs, ram := h.list.bs, h.ram;
      ghost var b := ListedHolds(h.base, bs, ptrs, k);
      HoldsKnown(h.base, bs, ptrs[k], b);
      var _ := Free(h, ptrs[k], n);
      LayoutOf(h.base, ram, bs);
      ListedStep(h.base, ram, bs, h.ram, h.list.bs, ptrs, k, b);
    }
    HeapLayout(h);
    NoneListed(h.base, h.list.bs, ptrs);
    AllFree(h.list.bs, |h.ram.bytes|);
  }

  lemma ListedHolds(base: nat, bs: seq<Block>, ptrs: seq<Word>, k: nat) returns (b: Block)
    requires Listed(base, bs, ptrs, k) && k < |ptrs|
    ensures Holds(base, bs, ptrs[k], b)
  {
    assert InTail(ptrs, k, ptrs[k]);
    b :| Holds(base, bs, ptrs[k], b);
  }

  lemma NoneListed(base: nat, bs: seq<Block>, ptrs: seq<Word>)
    requires Listed(base, bs, ptrs, |ptrs|)
    ensures forall b :: b in bs ==> b.free
  {
    forall b | b in bs ensures b.free {
      assert b.free || Holds(base, bs, base + b.at + HEADER, b);
      assert !InTail(ptrs, |ptrs|, base + b.at + HEADER);
    }
  }

  lemma TailStep(ptrs: seq<Word>, k: nat, p: nat)
    requires k < |ptrs| && (forall i, j :: 0 <= i < j < |ptrs| ==> ptrs[i] != ptrs[j])
    ensures InTail(ptrs, k + 1, p) <==> InTail(ptrs, k, p) && p != ptrs[k]
  {
  }

  lemma LiveStep(base: nat, ram: Ram, bs: seq<Block>, ram': Ram, bs': seq<Block>, b: Block, ptr: nat, p: nat)
    requires Holds(base, bs, ptr, b) && Lost(ram, bs, ram', bs', b) && Layout(bs, |ram.bytes|)
    ensures Live(base, bs', p) <==> Live(base, bs, p) && p != ptr
  {
    hide Payload; hide Layout;
    if Live(base, bs', p) {
      var c :| Holds(base, bs', p, c);
      assert Holds(base, bs, p, c);
      if p == ptr { OneAt(base, bs, |ram.bytes|, b, c); }
    }
    if Live(base, bs, p) && p != ptr {
      var c :| Holds(base, bs, p, c);
      assert Holds(base, bs', p, c);
    }
  }

  lemma ListedStep(base: nat, ram: Ram, bs: seq<Block>, ram': Ram, bs': seq<Block>, ptrs: seq<Word>, k: nat, b: Block)
    requires Listed(base, bs, ptrs, k) && k < |ptrs| && (forall i, j :: 0 <= i < j < |ptrs| ==> ptrs[i] != ptrs[j])
    requires Holds(base, bs, ptrs[k], b) && Lost(ram, bs, ram', bs', b) && Layout(bs, |ram.bytes|)
    ensures Listed(base, bs', ptrs, k + 1)
  {
    hide InTail; hide Live; hide Lost; hide Layout; hide Holds;
    forall p: nat ensures InTail(ptrs, k + 1, p) <==> Live(base, bs', p) {
      TailStep(ptrs, k, p);
      LiveStep(base, ram, bs, ram', bs', b, ptrs[k], p);
    }
  }
}
