/** The kernel's allocator: `k_alloc`, `k_free` and `k_realloc`. */
module KernelHeap {
  import opened Prelude
  import opened Words
  import opened Bytes
  import opened BlockList
  import opened Allocations
  import opened HeapSteps
  import opened Heaps

  const HEAP_MAX_SIZE: nat := 0x1000_0000_0000

  // ----- the blocks after each call -----

  // The first block that fits is taken.
  ghost predicate Took(base: nat, bs: seq<Block>, bs': seq<Block>, size: nat, ptr: nat) {
    exists i :: 0 <= i < |bs| && NoFit(bs, i, size) && bs[i].free && bs[i].size >= size &&
      ptr == base + bs[i].at + HEADER && bs' == TakeAt(bs, i, size)
  }

  // Nothing fits; below its limit the heap has grown by a block for the next call.
  ghost predicate GrewOnly(bs: seq<Block>, limit: nat, bs': seq<Block>, limit': nat, size: nat) {
    NoFit(bs, |bs|, size) &&
    if limit < HEAP_MAX_SIZE then bs' == AppendAt(bs, limit, size) && limit' == limit + size + HEADER else bs' == bs && limit' == limit
  }

  ghost predicate AllocStep(base: nat, bs: seq<Block>, limit: nat, bs': seq<Block>, limit': nat, size: nat, ptr: nat) {
    if ptr == 0 then GrewOnly(bs, limit, bs', limit', size) else Took(base, bs, bs', size, ptr) && limit' == limit
  }

  // The live block behind `ptr` is freed and joined with its free neighbours.
  ghost predicate FreeStep(base: nat, bs: seq<Block>, bs': seq<Block>, ptr: nat) {
    exists i :: 0 <= i < |bs| && !bs[i].free && ptr == base + bs[i].at + HEADER && bs' == ReleaseAt(bs, i)
  }

  // The live block behind `ptr` is cut if that leaves more than a header, and else keeps its size.
  ghost predicate CutStep(base: nat, bs: seq<Block>, bs': seq<Block>, ptr: nat, size: nat) {
    exists i :: 0 <= i < |bs| && !bs[i].free && ptr == base + bs[i].at + HEADER &&
      bs[i].size >= size && bs' == if bs[i].size > size + HEADER then ShrinkAt(bs, i, size) else bs
  }

  // Another block is taken, then the old one is freed.
  ghost predicate MoveStep(base: nat, bs: seq<Block>, bs': seq<Block>, ptr: nat, size: nat, res: nat) {
    exists bs1 :: Took(base, bs, bs1, size, res) && FreeStep(base, bs1, bs', ptr)
  }

  ghost predicate ReallocStep(base: nat, bs: seq<Block>, limit: nat, bs': seq<Block>, limit': nat, ptr: nat, size: nat, res: nat) {
    if ptr == 0 then AllocStep(base, bs, limit, bs', limit', size, res)
    else if size == 0 then res == 0 && FreeStep(base, bs, bs', ptr) && limit' == limit
    else if res == 0 then GrewOnly(bs, limit, bs', limit', size)
    else limit' == limit && if res == ptr then CutStep(base, bs, bs', ptr, size) else MoveStep(base, bs, bs', ptr, size, res)
  }

  // `mapped` is what the frames hold that the heap grows by, if it grows. Without a fitting block the
  // result is null even though the heap has grown: only a later call finds the new block.
  method KAlloc(h: Heap, size: Word, mapped: seq<Byte>) returns (ptr: Word)
    requires h.Valid() && |mapped| == size + HEADER && Grows(h.base, h.ram, mapped)
    modifies h
    ensures h.Valid() && (ptr == 0 <==> NoFit(old(h.list.bs), |old(h.list.bs)|, size))
    ensures ptr != 0 ==> h.heapSize == old(h.heapSize) && LowestFit(h.base, old(h.list.bs), ptr, size) && ptr >= h.base + HEADER
    ensures ptr != 0 ==> var b := Block(ptr - h.base - HEADER, size, false);
      Gained(old(h.ram), old(h.list.bs), h.ram, h.list.bs, b) && Payload(h.ram, b) == Zeros(size)
    ensures ptr != 0 ==> Weight(old(h.list.bs)) - HEADER <= Weight(h.list.bs) <= Weight(old(h.list.bs))
    ensures ptr == 0 ==> Same(old(h.ram), old(h.list.bs), h.ram, h.list.bs)
    ensures AllocStep(h.base, old(h.list.bs), old(h.heapSize), h.list.bs, h.heapSize, size, ptr)
  {
    hide HeapOk; hide TakeAt; hide AppendAt; hide Weight; hide Kept; hide NoneBut; hide Payload; hide Zeros; hide LowestFit;
    var node;
    ghost var i;
    node, i := h.FindFit(size);
    if node != 0 {
      LayoutOf(h.base, h.ram, h.list.bs);
      FirstIsLowest(h.base, h.list.bs, |h.ram.bytes|, i, size);
      BlocksThere(h.base, h.ram, h.list.bs);
      ptr := h.Take(node, size, i);
      return;
    }
    if h.heapSize < HEAP_MAX_SIZE {
      h.Grow(mapped);
    } else {
      SelfKept(h.base, h.ram, h.list.bs);
    }
    return 0;
  }

  // Null and a block that is free already are left alone.
  method KFree(h: Heap, ptr: Word)
    requires h.Valid() && (ptr == 0 || Known(h.base, h.list.bs, ptr))
    modifies h`ram, h`list
    ensures h.Valid() && h.heapSize == old(h.heapSize)
    ensures (forall b :: !Holds(h.base, old(h.list.bs), ptr, b)) ==> h.list == old(h.list) && h.ram == old(h.ram)
    ensures forall b :: Holds(h.base, old(h.list.bs), ptr, b) ==> Lost(old(h.ram), old(h.list.bs), h.ram, h.list.bs, b)
    ensures forall b :: Holds(h.base, old(h.list.bs), ptr, b) ==>
      FreeStep(h.base, old(h.list.bs), h.list.bs, ptr) && Known(h.base, old(h.list.bs), ptr) && h.list.bs == ReleaseAt(old(h.list.bs), IndexOf(h.base, old(h.list.bs), ptr))
    ensures NoAdjacentFree(old(h.list.bs)) ==> NoAdjacentFree(h.list.bs)
    ensures Weight(h.list.bs) == Weight(old(h.list.bs))
  {
    hide HeapOk; hide Read; hide ReleaseAt; hide Weight; hide NoAdjacentFree; hide Lost;
    BlocksThere(h.base, h.ram, h.list.bs);
    if ptr == 0 {
      return;
    }
    ghost var bs, i := h.list.bs, IndexOf(h.base, h.list.bs, ptr);
    LayoutOf(h.base, h.ram, bs);
    forall b | Holds(h.base, bs, ptr, b) ensures b == bs[i] {
      OneAt(h.base, bs, |h.ram.bytes|, b, bs[i]);
    }
    HeadersOf(h.base, h.ram, bs, i);
    var node := ptr - HEADER;
    if Read(h.ram, node - h.base).flags == H_FREE {
      return;
    }
    assert Holds(h.base, bs, ptr, bs[i]);
    if NoAdjacentFree(bs) { ReleaseApart(bs, i); }
    h.Release(node, i);
  }

  // The allocation `b` moved or changed size: `b'` starts with its first bytes, nothing else changed.
  ghost predicate Resized(ram: Ram, bs: seq<Block>, ram': Ram, bs': seq<Block>, b: Block, b': Block, n: nat) {
    && b in bs && b' in bs' && !b'.free && Kept(ram, bs, ram', bs', {b}) && NoneBut(bs, bs', {b'}) && (b == b' || (b !in bs' && b' !in bs))
    && End(b) <= |ram.bytes| && End(b') <= |ram'.bytes| && n <= b.size && n <= b'.size
    && Payload(ram', b')[..n] == Payload(ram, b)[..n]
  }

  function ShrinkAt(bs: seq<Block>, i: nat, size: nat): seq<Block>
    requires i < |bs| && bs[i].size > size + HEADER
  {
    JoinAt(SplitAt(bs, i, size), i + 1)
  }

  // What is split off a live block does not stay beside a free block.
  lemma ShrinkApart(bs: seq<Block>, i: nat, size: nat)
    requires i < |bs| && !bs[i].free && bs[i].size > size + HEADER && NoAdjacentFree(bs)
    ensures NoAdjacentFree(ShrinkAt(bs, i, size))
  {
    hide SplitAt; hide MergeAt;
    var cut := SplitAt(bs, i, size);
    SplitIndex(bs, i, size, i + 1);
    if i + 2 < |cut| { SplitIndex(bs, i, size, i + 2); }
    var l := ShrinkAt(bs, i, size);
    forall j | 0 <= j < |l| - 1 ensures !(l[j].free && l[j + 1].free) {
      CutIndex(bs, i, size, j);
      CutIndex(bs, i, size, j + 1);
      if j < i { assert !(bs[j].free && bs[j + 1].free); }
      if j > i + 1 { assert !(bs[|bs| - |l| + j].free && bs[|bs| - |l| + j + 1].free); }
      if j == i + 1 && |l| == |bs| { assert !(bs[i + 1].free && bs[i + 1 + 1].free); }
    }
  }

  // The blocks after the cut: the head, the rest, and those behind it that were not joined.
  lemma CutIndex(bs: seq<Block>, i: nat, size: nat, j: nat)
    requires i < |bs| && bs[i].size > size + HEADER && j < |ShrinkAt(bs, i, size)|
    ensures var l := ShrinkAt(bs, i, size);
      |l| == (if i + 1 < |bs| && bs[i + 1].free then |bs| else |bs| + 1) &&
      l[j].free == if j < i then bs[j].free else if j == i then false else if j == i + 1 then true else bs[|bs| - |l| + j].free
  {
    hide SplitAt; hide MergeAt;
    var cut := SplitAt(bs, i, size);
    SplitIndex(bs, i, size, i + 1);
    if i + 2 < |cut| { SplitIndex(bs, i, size, i + 2); }
    if i + 2 < |cut| && cut[i + 2].free {
      MergeIndex(cut, i + 1, j);
      SplitIndex(bs, i, size, if j <= i + 1 then j else j + 1);
    } else {
      SplitIndex(bs, i, size, j);
    }
  }

  // Cuts a live block to `size` bytes; what is split off is joined with a free block behind it.
  method Shrink(h: Heap, node: Word, size: Word, ghost i: nat)
    requires h.Valid() && i < |h.list.bs| && node == h.base + h.list.bs[i].at && !h.list.bs[i].free
    requires h.list.bs[i].size > size + HEADER
    modifies h`ram, h`list
    ensures h.Valid()
    ensures Resized(old(h.ram), old(h.list.bs), h.ram, h.list.bs, old(h.list.bs[i]), Block(old(h.list.bs[i].at), size, false), size)
    ensures h.list.bs == ShrinkAt(old(h.list.bs), i, size) && Weight(h.list.bs) == Weight(old(h.list.bs))
  {
    hide HeapOk; hide Read; hide SplitAt; hide SplitRam; hide MergeAt; hide MergeRam; hide Weight; hide Payload;
    ghost var bs, ram0 := h.list.bs, h.ram;
    ghost var b' := Block(bs[i].at, size, false);
    SplitOk(h.base, ram0, bs, i, size);
    SplitKeeps(h.base, ram0, bs, i, size);
    SplitPrefix(h.base, ram0, bs, i, size);
    SplitWeight(bs, i, size);
    CutGone(h.base, ram0, bs, i, size);
    h.Split(node, size, i);
    ghost var cut, ram1 := h.list.bs, h.ram;
    SplitIndex(bs, i, size, i);
    SplitIndex(bs, i, size, i + 1);
    RestIs(bs[i], size);
    BlocksThere(h.base, ram1, cut);
    HeadersInside(h.base, ram1, cut);
    HeadersOf(h.base, ram1, cut, i + 1);
    if i + 2 < |cut| { HeadersOf(h.base, ram1, cut, i + 2); }
    var rest := node + HEADER + size;
    var next := Read(h.ram, rest - h.base).next;
    if next != 0 && Read(h.ram, next - h.base).flags == H_FREE {
      JoinOk(h.base, ram1, cut, i + 1);
      h.Join(rest, i + 1);
      KeptThen(ram0, bs, ram1, cut, h.ram, h.list.bs, {bs[i]}, {});
      StillGone(bs, cut, h.list.bs, b', bs[i]);
      KeepsIt(ram1, cut, h.ram, h.list.bs, b');
    }
  }

  lemma CutGone(base: nat, ram: Ram, bs: seq<Block>, i: nat, size: nat)
    requires HeapOk(base, ram, bs) && i < |bs| && !bs[i].free && bs[i].size > size + HEADER
    ensures bs[i] !in SplitAt(bs, i, size) && Block(bs[i].at, size, false) !in bs
  {
    hide Represents; hide SplitAt;
    forall j | 0 <= j < |bs| ensures bs[j] != Block(bs[i].at, size, false) {
      if j != i { BlocksClear(bs, |ram.bytes|, i, j); }
    }
    forall j | 0 <= j < |bs| + 1 ensures SplitAt(bs, i, size)[j] != bs[i] {
      SplitIndex(bs, i, size, j);
      if j < i { BlocksClear(bs, |ram.bytes|, i, j); }
      if j > i + 1 { BlocksClear(bs, |ram.bytes|, i, j - 1); }
    }
  }

  lemma StillGone(bs: seq<Block>, cut: seq<Block>, bs': seq<Block>, b': Block, b: Block)
    requires NoneBut(bs, cut, {b'}) && NoneBut(cut, bs', {}) && b !in cut && !b.free
    ensures NoneBut(bs, bs', {b'}) && b !in bs'
  {
  }

  lemma KeepsIt(ram: Ram, bs: seq<Block>, ram': Ram, bs': seq<Block>, b: Block)
    requires Kept(ram, bs, ram', bs', {}) && b in bs && !b.free
    ensures b in bs' && End(b) <= |ram.bytes| && End(b) <= |ram'.bytes| && Payload(ram', b) == Payload(ram, b)
  {
  }

  // The block behind `res` is what became of `b`: at least `size` bytes, starting with the bytes that
  // `b` had as far as both reach.
  ghost predicate Reallocated(base: nat, ram: Ram, bs: seq<Block>, ram': Ram, bs': seq<Block>, b: Block, res: nat, size: nat) {
    exists b' :: Holds(base, bs', res, b') && b'.size >= size && Resized(ram, bs, ram', bs', b, b', Min(b.size, size))
  }

  // Allocate, copy, free; null when nothing fits.
  method Move(h: Heap, ptr: Word, size: Word, mapped: seq<Byte>, ghost b: Block) returns (res: Word)
    requires h.Valid() && |mapped| == size + HEADER && Grows(h.base, h.ram, mapped)
    requires ptr != 0 && Holds(h.base, h.list.bs, ptr, b) && size > b.size
    modifies h
    ensures h.Valid() && (res == 0 <==> NoFit(old(h.list.bs), |old(h.list.bs)|, size))
    ensures res == 0 ==> Same(old(h.ram), old(h.list.bs), h.ram, h.list.bs)
    ensures if res == 0 then GrewOnly(old(h.list.bs), old(h.heapSize), h.list.bs, h.heapSize, size)
            else h.heapSize == old(h.heapSize) && res != ptr && MoveStep(h.base, old(h.list.bs), h.list.bs, ptr, size, res)
    ensures res != 0 ==> Reallocated(h.base, old(h.ram), old(h.list.bs), h.ram, h.list.bs, b, res, size)
  {
    hide HeapOk; hide Read; hide Weight; hide NoAdjacentFree; hide Kept; hide NoneBut; hide LowestFit; hide Payload; hide AppendAt; hide Zeros; hide NoFit; hide Took; hide FreeStep; hide GrewOnly; hide ReleaseAt; hide Lost;
    ghost var bs, ram0 := h.list.bs, h.ram;
    HeadersInside(h.base, h.ram, bs);
    ghost var i :| 0 <= i < |bs| && bs[i] == b;
    HeadersOf(h.base, h.ram, bs, i);
    var node := ptr - HEADER;
    var was := Read(h.ram, node - h.base).size;
    res := KAlloc(h, size, mapped);
    if res == 0 {
      return 0;
    }
    ghost var b' := Block(res - h.base - HEADER, size, false);
    ghost var bs1, ram1 := h.list.bs, h.ram;
    GainedKeeps(ram0, bs, ram1, bs1, b', b);
    LayoutOf(h.base, ram1, bs1);
    assert res != ptr by { if res == ptr { OneAt(h.base, bs1, |ram1.bytes|, b, b'); } }
    PayloadIs(ram1, b);
    h.Fill(res, h.ram.bytes[ptr - h.base..ptr - h.base + was], b');
    ghost var ram2 := h.ram;
    HoldsKnown(h.base, bs1, ptr, b);
    KFree(h, ptr);
    Moves(ram0, bs, ram1, bs1, ram2, h.ram, h.list.bs, b, b');
    assert Holds(h.base, h.list.bs, res, b');
  }

  // Null in place of a pointer allocates and size 0 frees. The first min(old, new) bytes are kept,
  // wherever the block ends up; without room for a larger block the old one stays as it is.
  method KRealloc(h: Heap, ptr: Word, size: Word, mapped: seq<Byte>, ghost b: Block) returns (res: Word)
    requires h.Valid() && |mapped| == size + HEADER && Grows(h.base, h.ram, mapped)
    requires ptr == 0 || Holds(h.base, h.list.bs, ptr, b)
    modifies h
    ensures h.Valid()
    ensures ptr == 0 && res != 0 ==> res >= h.base + HEADER && Gained(old(h.ram), old(h.list.bs), h.ram, h.list.bs, Block(res - h.base - HEADER, size, false)) &&
                                      Payload(h.ram, Block(res - h.base - HEADER, size, false)) == Zeros(size)
    ensures ReallocStep(h.base, old(h.list.bs), old(h.heapSize), h.list.bs, h.heapSize, ptr, size, res)
    ensures ptr != 0 && size == 0 ==> Lost(old(h.ram), old(h.list.bs), h.ram, h.list.bs, b)
    ensures ptr != 0 && res != 0 ==> Reallocated(h.base, old(h.ram), old(h.list.bs), h.ram, h.list.bs, b, res, size)
    ensures ptr != 0 && size != 0 && size <= b.size ==> res == ptr && Weight(h.list.bs) == Weight(old(h.list.bs))
    ensures ptr != 0 && size != 0 && size <= b.size && NoAdjacentFree(old(h.list.bs)) ==> NoAdjacentFree(h.list.bs)
    ensures res == 0 && (ptr == 0 || size != 0) ==> Same(old(h.ram), old(h.list.bs), h.ram, h.list.bs)
    ensures res == 0 <==> (if ptr == 0 || size > b.size then NoFit(old(h.list.bs), |old(h.list.bs)|, size) else size == 0)
  {
    hide HeapOk; hide Read; hide Weight; hide NoAdjacentFree; hide Kept; hide NoneBut; hide LowestFit; hide Payload; hide AppendAt; hide Zeros; hide NoFit; hide ShrinkAt;
    BlocksThere(h.base, h.ram, h.list.bs);
    if ptr == 0 {
      res := KAlloc(h, size, mapped);
      return;
    }
    ghost var bs, ram0 := h.list.bs, h.ram;
    if size == 0 {
      HoldsKnown(h.base, bs, ptr, b);
      KFree(h, ptr);
      return 0;
    }
    ghost var i :| 0 <= i < |bs| && bs[i] == b;
    HeadersOf(h.base, h.ram, bs, i);
    var node := ptr - HEADER;
    var was := Read(h.ram, node - h.base).size;
    if was >= size {
      if was - size > HEADER {
        if NoAdjacentFree(bs) { ShrinkApart(bs, i, size); }
        Shrink(h, node, size, i);
        assert Holds(h.base, h.list.bs, ptr, Block(b.at, size, false));
      } else {
        SelfKept(h.base, h.ram, bs);
        HeadersInside(h.base, h.ram, bs);
        KeptLess(ram0, bs, ram0, bs, b);
      }
      return ptr;
    }
    res := Move(h, ptr, size, mapped, b);
  }

  lemma PayloadIs(ram: Ram, b: Block)
    requires End(b) <= |ram.bytes|
    ensures Payload(ram, b) == ram.bytes[b.at + HEADER..b.at + HEADER + b.size]
  {
  }

  lemma KeptLess(ram: Ram, bs: seq<Block>, ram': Ram, bs': seq<Block>, b: Block)
    requires Same(ram, bs, ram', bs')
    ensures Kept(ram, bs, ram', bs', {b}) && NoneBut(bs, bs', {b})
  {
  }

  lemma GainedKeeps(ram: Ram, bs: seq<Block>, ram': Ram, bs': seq<Block>, b': Block, b: Block)
    requires Gained(ram, bs, ram', bs', b') && b in bs && !b.free
    ensures b in bs' && b != b' && End(b) <= |ram.bytes| && End(b) <= |ram'.bytes| && Payload(ram', b) == Payload(ram, b)
  {
  }

  // Allocate, copy, free.
  lemma Moves(r0: Ram, b0: seq<Block>, r1: Ram, b1: seq<Block>, r2: Ram, r3: Ram, b3: seq<Block>, b: Block, b': Block)
    requires Gained(r0, b0, r1, b1, b') && b in b0 && !b.free && b.size <= b'.size
    requires Kept(r1, b1, r2, b1, {b'}) && Lost(r2, b1, r3, b3, b)
    requires End(b) <= |r1.bytes| && End(b') <= |r2.bytes| && Payload(r2, b')[..b.size] == Payload(r1, b)
    ensures Resized(r0, b0, r3, b3, b, b', b.size)
  {
    hide Payload;
  }

  // ----- the heap as a map from pointers to contents -----

  // The live pointers are the keys; each maps to the bytes of its allocation.
  ghost predicate Shows(base: nat, ram: Ram, bs: seq<Block>, view: map<nat, seq<Byte>>) {
    && (forall p :: p in view ==> exists b :: Holds(base, bs, p, b))
    && (forall p, b :: Holds(base, bs, p, b) ==> p in view && End(b) <= |ram.bytes| && view[p] == Payload(ram, b))
  }

  lemma GainedShows(base: nat, ram: Ram, bs: seq<Block>, ram': Ram, bs': seq<Block>, b: Block, view: map<nat, seq<Byte>>)
    requires Shows(base, ram, bs, view) && Gained(ram, bs, ram', bs', b) && Layout(bs', |ram'.bytes|)
    ensures base + b.at + HEADER !in view
    ensures Shows(base, ram', bs', view[base + b.at + HEADER := Payload(ram', b)])
  {
    hide Payload; hide Layout;
    var q := base + b.at + HEADER;
    var view' := view[q := Payload(ram', b)];
    forall p: nat, c: Block | Holds(base, bs', p, c) ensures p in view' && End(c) <= |ram'.bytes| && view'[p] == Payload(ram', c) {
      if p == q {
        OneAt(base, bs', |ram'.bytes|, b, c);
      } else {
        assert Holds(base, bs, p, c);
      }
    }
    forall p | p in view ensures exists c :: Holds(base, bs', p, c) {
      var c :| Holds(base, bs, p, c);
      assert Holds(base, bs', p, c);
    }
    assert Holds(base, bs', q, b);
    forall c | Holds(base, bs, q, c) ensures false {
      Elsewhere(bs', |ram'.bytes|, b, c);
    }
  }

  lemma Elsewhere(bs: seq<Block>, limit: nat, b: Block, c: Block)
    requires Layout(bs, limit) && b in bs && c in bs && b != c
    ensures b.at != c.at
  {
    var i :| 0 <= i < |bs| && bs[i] == b;
    var j :| 0 <= j < |bs| && bs[j] == c;
    BlocksClear(bs, limit, i, j);
  }

  lemma LostShows(base: nat, ram: Ram, bs: seq<Block>, ram': Ram, bs': seq<Block>, b: Block, view: map<nat, seq<Byte>>)
    requires Shows(base, ram, bs, view) && Lost(ram, bs, ram', bs', b) && !b.free && Layout(bs, |ram.bytes|)
    ensures base + b.at + HEADER in view
    ensures Shows(base, ram', bs', view - {base + b.at + HEADER})
  {
    hide Payload; hide Layout;
    var q := base + b.at + HEADER;
    assert Holds(base, bs, q, b);
    var view' := view - {q};
    forall p: nat, c: Block | Holds(base, bs', p, c) ensures p in view' && End(c) <= |ram'.bytes| && view'[p] == Payload(ram', c) {
      Elsewhere(bs, |ram.bytes|, b, c);
      assert Holds(base, bs, p, c);
    }
    forall p | p in view' ensures exists c :: Holds(base, bs', p, c) {
      var c :| Holds(base, bs, p, c);
      assert Holds(base, bs', p, c);
    }
  }

  // A block that is resized where it lies or moved: its pointer changes, its contents go along.
  lemma ResizedShows(base: nat, ram: Ram, bs: seq<Block>, ram': Ram, bs': seq<Block>, b: Block, b': Block, n: nat, view: map<nat, seq<Byte>>)
    requires Shows(base, ram, bs, view) && Resized(ram, bs, ram', bs', b, b', n) && !b.free
    requires Layout(bs, |ram.bytes|) && Layout(bs', |ram'.bytes|)
    ensures base + b.at + HEADER in view && view[base + b.at + HEADER] == Payload(ram, b)
    ensures b'.at == b.at || base + b'.at + HEADER !in view
    ensures End(b') <= |ram'.bytes| && Shows(base, ram', bs', (view - {base + b.at + HEADER})[base + b'.at + HEADER := Payload(ram', b')])
  {
    hide Payload; hide Layout;
    var p, p' := base + b.at + HEADER, base + b'.at + HEADER;
    assert Holds(base, bs, p, b) && Holds(base, bs', p', b');
    var view' := (view - {p})[p' := Payload(ram', b')];
    forall q: nat, c: Block | Holds(base, bs', q, c) ensures q in view' && End(c) <= |ram'.bytes| && view'[q] == Payload(ram', c) {
      if c != b' {
        Elsewhere(bs', |ram'.bytes|, b', c);
        assert Holds(base, bs, q, c);
        if c != b { Elsewhere(bs, |ram.bytes|, b, c); }
      }
    }
    forall q | q in view' ensures exists c :: Holds(base, bs', q, c) {
      if q != p' {
        var c :| Holds(base, bs, q, c);
        assert Holds(base, bs', q, c);
      }
    }
    if p' in view && p' != p {
      var c :| Holds(base, bs, p', c);
      OneAt(base, bs', |ram'.bytes|, c, b');
      assert false;
    }
  }

  // A store into the allocation `b`.
  lemma FilledShows(base: nat, ram: Ram, bs: seq<Block>, ram': Ram, b: Block, view: map<nat, seq<Byte>>)
    requires Shows(base, ram, bs, view) && Kept(ram, bs, ram', bs, {b}) && b in bs && !b.free && Layout(bs, |ram.bytes|)
    requires End(b) <= |ram.bytes| && End(b) <= |ram'.bytes|
    ensures base + b.at + HEADER in view && view[base + b.at + HEADER] == Payload(ram, b)
    ensures Shows(base, ram', bs, view[base + b.at + HEADER := Payload(ram', b)])
  {
    hide Payload; hide Layout;
    var q := base + b.at + HEADER;
    var view' := view[q := Payload(ram', b)];
    assert Holds(base, bs, q, b);
    forall p: nat, c: Block | Holds(base, bs, p, c) ensures p in view' && End(c) <= |ram'.bytes| && view'[p] == Payload(ram', c) {
      if c != b { Elsewhere(bs, |ram.bytes|, b, c); }
    }
  }
}
