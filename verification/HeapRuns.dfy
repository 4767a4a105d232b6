/** Programs over the kernel's allocator: whatever they call, the heap shows exactly what is allocated, with
    the bytes that were stored. */
module HeapRuns {
  import opened Prelude
  import opened Words
  import opened Bytes
  import opened BlockList
  import opened Allocations
  import opened Heaps
  import opened KernelHeap

  // A variable of the program: a pointer and how many bytes it asked for; null holds nothing.
  datatype Slot = Slot(ptr: Word, size: nat)

  // `mapped` is what the frames hold that the heap grows by, if it grows. A store that does not fit its
  // variable is left out.
  datatype Call =
    | Alloc(slot: nat, size: Word, mapped: seq<Byte>)
    | Free(slot: nat)
    | Realloc(slot: nat, size: Word, mapped: seq<Byte>)
    | Store(slot: nat, data: seq<Byte>)

  // The heap's blocks and its size.
  datatype Memory = Memory(blocks: seq<Block>, size: nat)

  // The variables, the contents of every allocation by its pointer, the program's or not, and the heap.
  datatype State = State(slots: seq<Slot>, view: map<nat, seq<Byte>>, memory: Memory)

  function Growth(c: Call): nat { if c.Alloc? || c.Realloc? then |c.mapped| else 0 }

  function MostGrowth(cs: seq<Call>): nat {
    if cs == [] then 0 else MostGrowth(cs[..|cs| - 1]) + Growth(cs[|cs| - 1])
  }

  predicate CallOk(c: Call, slots: nat) {
    c.slot < slots && (c.Alloc? || c.Realloc? ==> |c.mapped| == c.size + HEADER)
  }

  // ----- what the calls mean -----

  // Null and nothing new, or a new allocation of zeros.
  ghost predicate Allocated(size: nat, s': Slot, view: map<nat, seq<Byte>>, view': map<nat, seq<Byte>>) {
    if s'.ptr == 0 then s'.size == 0 && view' == view
    else s'.size == size && s'.ptr !in view && view' == view[s'.ptr := Zeros(size)]
  }

  // The first min(old, new) bytes are found at the new pointer.
  ghost predicate Moved(size: nat, s: Slot, s': Slot, view: map<nat, seq<Byte>>, view': map<nat, seq<Byte>>)
    requires s.ptr in view
  {
    && s'.ptr != 0 && s'.size == size && s'.ptr in view' && (s'.ptr == s.ptr || s'.ptr !in view)
    && view' == (view - {s.ptr})[s'.ptr := view'[s'.ptr]] && size <= |view'[s'.ptr]|
    && view'[s'.ptr][..Min(|view[s.ptr]|, size)] == view[s.ptr][..Min(|view[s.ptr]|, size)]
  }

  // A variable that is not null has a live pointer, with at least the bytes it asked for.
  ghost predicate SlotOk(s: Slot, view: map<nat, seq<Byte>>) {
    s.ptr != 0 ==> s.ptr in view && s.size <= |view[s.ptr]|
  }

  // What a call makes of its variable and of the allocations.
  ghost predicate Handled(c: Call, s: Slot, s': Slot, view: map<nat, seq<Byte>>, view': map<nat, seq<Byte>>)
    requires SlotOk(s, view)
  {
    match c
    case Alloc(_, size, _) => Allocated(size, s', view, view')
    case Free(_) => s' == Slot(0, 0) && view' == view - {s.ptr}
    case Realloc(_, size, _) =>
      if s.ptr == 0 then Allocated(size, s', view, view')
      else if size == 0 then s' == Slot(0, 0) && view' == view - {s.ptr}
      else (s' == s && view' == view) || Moved(size, s, s', view, view')
    case Store(_, data) =>
      s' == s && view' == if s.ptr != 0 && |data| <= s.size then view[s.ptr := data + view[s.ptr][|data|..]] else view
  }

  // What a call makes of the blocks. It says which calls get null: those for which nothing fits.
  ghost predicate Arranged(base: nat, c: Call, s: Slot, s': Slot, m: Memory, m': Memory) {
    match c
    case Alloc(_, size, _) => AllocStep(base, m.blocks, m.size, m'.blocks, m'.size, size, s'.ptr)
    case Free(_) => m'.size == m.size && if s.ptr == 0 then m'.blocks == m.blocks else FreeStep(base, m.blocks, m'.blocks, s.ptr)
    case Realloc(_, size, _) =>
      exists res: nat :: ReallocStep(base, m.blocks, m.size, m'.blocks, m'.size, s.ptr, size, res) &&
        s'.ptr == if res == 0 && size != 0 && s.ptr != 0 then s.ptr else res
    case Store(_, _) => m' == m
  }

  // The variables hold different live pointers.
  ghost predicate Held(st: State) {
    && (forall i :: 0 <= i < |st.slots| ==> SlotOk(st.slots[i], st.view))
    && (forall i, j :: 0 <= i < j < |st.slots| && st.slots[i].ptr != 0 ==> st.slots[i].ptr != st.slots[j].ptr)
  }

  // Allocations that are none of the program's.
  ghost predicate Untouched(st: State, others: map<nat, seq<Byte>>) {
    && 0 !in others
    && (forall p :: p in others ==> p in st.view && st.view[p] == others[p])
    && (forall i :: 0 <= i < |st.slots| ==> st.slots[i].ptr !in others)
  }

  ghost predicate Called(base: nat, c: Call, st: State, st': State) {
    && Held(st) && c.slot < |st.slots| == |st'.slots| && st'.slots == st.slots[c.slot := st'.slots[c.slot]]
    && Handled(c, st.slots[c.slot], st'.slots[c.slot], st.view, st'.view)
    && Arranged(base, c, st.slots[c.slot], st'.slots[c.slot], st.memory, st'.memory)
  }

  // A call changes the pointer of its variable only, and only to one that was not live before.
  lemma HandledFrame(c: Call, s: Slot, s': Slot, view: map<nat, seq<Byte>>, view': map<nat, seq<Byte>>)
    requires SlotOk(s, view) && Handled(c, s, s', view, view')
    ensures SlotOk(s', view') && (s'.ptr == 0 || s'.ptr == s.ptr || s'.ptr !in view)
    ensures forall p :: p in view && p != s.ptr ==> p in view' && view'[p] == view[p]
  {
  }

  lemma HeldKeeps(base: nat, c: Call, st: State, st': State, others: map<nat, seq<Byte>>)
    requires Called(base, c, st, st') && Untouched(st, others)
    ensures Held(st') && Untouched(st', others)
  {
    hide Handled; hide Arranged;
    var k := c.slot;
    HandledFrame(c, st.slots[k], st'.slots[k], st.view, st'.view);
    forall i | 0 <= i < |st'.slots| ensures SlotOk(st'.slots[i], st'.view) {
      if i != k { assert SlotOk(st.slots[i], st.view); }
    }
  }

  // ----- the heap under the map -----

  ghost predicate Showing(h: Heap, view: map<nat, seq<Byte>>)
    reads h
  {
    h.Valid() && Shows(h.base, h.ram, h.list.bs, view)
  }

  lemma BlockBehind(base: nat, ram: Ram, bs: seq<Block>, view: map<nat, seq<Byte>>, p: nat) returns (b: Block)
    requires Shows(base, ram, bs, view) && p in view
    ensures Holds(base, bs, p, b) && b in bs && !b.free && p == base + b.at + HEADER > 0
    ensures End(b) <= |ram.bytes| && view[p] == Payload(ram, b) && |view[p]| == b.size
  {
    b :| Holds(base, bs, p, b);
  }

  lemma NotNull(base: nat, ram: Ram, bs: seq<Block>, view: map<nat, seq<Byte>>)
    requires Shows(base, ram, bs, view)
    ensures 0 !in view
  {
  }

  // A heap that is all free shows no allocation.
  lemma FreshShows(h: Heap, size: nat)
    requires h.Valid() && h.list.bs == [Block(0, size, true)]
    ensures Showing(h, map[])
  {
  }

  lemma SameShows(base: nat, ram: Ram, bs: seq<Block>, ram': Ram, bs': seq<Block>, view: map<nat, seq<Byte>>)
    requires Shows(base, ram, bs, view) && Same(ram, bs, ram', bs')
    ensures Shows(base, ram', bs', view)
  {
    hide Payload;
    forall p, b | Holds(base, bs', p, b) ensures p in view && End(b) <= |ram'.bytes| && view[p] == Payload(ram', b) {
      assert Holds(base, bs, p, b);
    }
    forall p | p in view ensures exists b :: Holds(base, bs', p, b) {
      var b :| Holds(base, bs, p, b);
      assert Holds(base, bs', p, b);
    }
  }

  method CallAlloc(h: Heap, size: Word, mapped: seq<Byte>, ghost view: map<nat, seq<Byte>>) returns (s: Slot, ghost view': map<nat, seq<Byte>>)
    requires Showing(h, view) && |mapped| == size + HEADER && Grows(h.base, h.ram, mapped)
    modifies h
    ensures Showing(h, view') && Allocated(size, s, view, view') && h.heapSize <= old(h.heapSize) + |mapped|
    ensures AllocStep(h.base, old(h.list.bs), old(h.heapSize), h.list.bs, h.heapSize, size, s.ptr)
  {
    hide HeapOk; hide Gained; hide Payload; hide Zeros; hide Shows; hide NoFit; hide LowestFit; hide Weight; hide AppendAt; hide Same; hide Took;
    ghost var ram, bs := h.ram, h.list.bs;
    var ptr := KAlloc(h, size, mapped);
    if ptr == 0 {
      SameShows(h.base, ram, bs, h.ram, h.list.bs, view);
      return Slot(0, 0), view;
    }
    ghost var b := Block(ptr - h.base - HEADER, size, false);
    LayoutOf(h.base, h.ram, h.list.bs);
    GainedShows(h.base, ram, bs, h.ram, h.list.bs, b, view);
    return Slot(ptr, size), view[ptr := Zeros(size)];
  }

  method CallFree(h: Heap, s: Slot, ghost view: map<nat, seq<Byte>>) returns (ghost view': map<nat, seq<Byte>>)
    requires Showing(h, view) && SlotOk(s, view)
    modifies h`ram, h`list
    ensures Showing(h, view') && view' == view - {s.ptr} && h.heapSize == old(h.heapSize)
    ensures if s.ptr == 0 then h.list.bs == old(h.list.bs) else FreeStep(h.base, old(h.list.bs), h.list.bs, s.ptr)
  {
    hide HeapOk; hide Lost; hide Payload; hide Shows; hide Weight; hide NoAdjacentFree; hide Known; hide Holds; hide FreeStep;
    ghost var ram, bs := h.ram, h.list.bs;
    NotNull(h.base, ram, bs, view);
    assert s.ptr == 0 ==> view - {s.ptr} == view;
    if s.ptr == 0 {
      return view;
    }
    ghost var b := BlockBehind(h.base, ram, bs, view, s.ptr);
    HoldsKnown(h.base, bs, s.ptr, b);
    KFree(h, s.ptr);
    LayoutOf(h.base, ram, bs);
    LostShows(h.base, ram, bs, h.ram, h.list.bs, b, view);
    return view - {s.ptr};
  }

  lemma MovedShows(base: nat, ram: Ram, bs: seq<Block>, ram': Ram, bs': seq<Block>, b: Block, s: Slot, res: Word, size: nat, view: map<nat, seq<Byte>>)
      returns (view': map<nat, seq<Byte>>)
    requires Shows(base, ram, bs, view) && Holds(base, bs, s.ptr, b) && s.ptr in view && view[s.ptr] == Payload(ram, b) && res != 0
    requires Reallocated(base, ram, bs, ram', bs', b, res, size) && Layout(bs, |ram.bytes|) && Layout(bs', |ram'.bytes|)
    ensures Shows(base, ram', bs', view') && Moved(size, s, Slot(res, size), view, view')
  {
    hide Shows; hide Layout;
    var b' :| Holds(base, bs', res, b') && b'.size >= size && Resized(ram, bs, ram', bs', b, b', Min(b.size, size));
    ResizedShows(base, ram, bs, ram', bs', b, b', Min(b.size, size), view);
    view' := (view - {s.ptr})[res := Payload(ram', b')];
  }

  method CallRealloc(h: Heap, slot: nat, s: Slot, size: Word, mapped: seq<Byte>, ghost view: map<nat, seq<Byte>>) returns (s': Slot, ghost view': map<nat, seq<Byte>>)
    requires Showing(h, view) && SlotOk(s, view) && |mapped| == size + HEADER && Grows(h.base, h.ram, mapped)
    modifies h
    ensures Showing(h, view') && h.heapSize <= old(h.heapSize) + |mapped|
    ensures Handled(Realloc(slot, size, mapped), s, s', view, view')
    ensures Arranged(h.base, Realloc(slot, size, mapped), s, s', Memory(old(h.list.bs), old(h.heapSize)), Memory(h.list.bs, h.heapSize))
  {
    hide HeapOk; hide Payload; hide Shows; hide Weight; hide NoAdjacentFree; hide NoFit; hide Same; hide Reallocated; hide Moved; hide Gained; hide Lost; hide Holds; hide Zeros; hide ReallocStep;
    ghost var ram, bs, limit := h.ram, h.list.bs, h.heapSize;
    ghost var b := Block(0, 0, false);
    if s.ptr != 0 { b := BlockBehind(h.base, ram, bs, view, s.ptr); }
    LayoutOf(h.base, ram, bs);
    var res := KRealloc(h, s.ptr, size, mapped, b);
    ReallocGrows(h.base, bs, limit, h.list.bs, h.heapSize, s.ptr, size, res);
    LayoutOf(h.base, h.ram, h.list.bs);
    if s.ptr != 0 && size == 0 {
      LostShows(h.base, ram, bs, h.ram, h.list.bs, b, view);
      return Slot(0, 0), view - {s.ptr};
    }
    if res == 0 {
      SameShows(h.base, ram, bs, h.ram, h.list.bs, view);
      return if s.ptr == 0 then Slot(0, 0) else s, view;
    }
    if s.ptr == 0 {
      GainedShows(h.base, ram, bs, h.ram, h.list.bs, Block(res - h.base - HEADER, size, false), view);
      return Slot(res, size), view[res := Zeros(size)];
    }
    view' := MovedShows(h.base, ram, bs, h.ram, h.list.bs, b, s, res, size, view);
    return Slot(res, size), view';
  }

  lemma ReallocGrows(base: nat, bs: seq<Block>, limit: nat, bs': seq<Block>, limit': nat, ptr: nat, size: nat, res: nat)
    requires ReallocStep(base, bs, limit, bs', limit', ptr, size, res)
    ensures limit' <= limit + size + HEADER
  {
  }

  method CallStore(h: Heap, s: Slot, data: seq<Byte>, ghost view: map<nat, seq<Byte>>) returns (ghost view': map<nat, seq<Byte>>)
    requires Showing(h, view) && SlotOk(s, view)
    modifies h`ram
    ensures Showing(h, view') && h.list == old(h.list)
    ensures view' == if s.ptr != 0 && |data| <= s.size then view[s.ptr := data + view[s.ptr][|data|..]] else view
  {
    hide HeapOk; hide Payload; hide Shows; hide Kept;
    if s.ptr == 0 || |data| > s.size {
      return view;
    }
    ghost var ram, bs := h.ram, h.list.bs;
    ghost var b := BlockBehind(h.base, ram, bs, view, s.ptr);
    LayoutOf(h.base, ram, bs);
    h.Fill(s.ptr, data, b);
    FilledShows(h.base, ram, bs, h.ram, b, view);
    return view[s.ptr := data + view[s.ptr][|data|..]];
  }

  method Handle(h: Heap, c: Call, s: Slot, ghost view: map<nat, seq<Byte>>) returns (s': Slot, ghost view': map<nat, seq<Byte>>)
    requires Showing(h, view) && SlotOk(s, view) && CallOk(c, c.slot + 1) && h.base + h.heapSize + Growth(c) < 0x1_0000_0000_0000_0000
    modifies h
    ensures Showing(h, view') && Handled(c, s, s', view, view') && h.heapSize <= old(h.heapSize) + Growth(c)
    ensures Arranged(h.base, c, s, s', Memory(old(h.list.bs), old(h.heapSize)), Memory(h.list.bs, h.heapSize))
  {
    hide HeapOk; hide Shows; hide Allocated; hide Moved;
    match c
    case Alloc(_, size, mapped) => s', view' := CallAlloc(h, size, mapped, view);
    case Free(_) =>
      view' := CallFree(h, s, view);
      s' := Slot(0, 0);
    case Realloc(slot, size, mapped) => s', view' := CallRealloc(h, slot, s, size, mapped, view);
    case Store(_, data) =>
      view' := CallStore(h, s, data, view);
      s' := s;
  }

  // The first `k` calls led from variables that are all null, and from heap `m`, through these states.
  ghost predicate Ran(base: nat, m: Memory, calls: seq<Call>, k: nat, n: nat, others: map<nat, seq<Byte>>, trace: seq<State>) {
    && k <= |calls| && |trace| == k + 1 && trace[0] == State(seq(n, _ => Slot(0, 0)), others, m)
    && (forall j :: 0 <= j < k ==> Called(base, calls[j], trace[j], trace[j + 1]))
    && Held(trace[k]) && Untouched(trace[k], others) && |trace[k].slots| == n
  }

  lemma RanStep(base: nat, m: Memory, calls: seq<Call>, k: nat, n: nat, others: map<nat, seq<Byte>>, trace: seq<State>, s: Slot, view': map<nat, seq<Byte>>, m': Memory)
    requires Ran(base, m, calls, k, n, others, trace) && k < |calls| && calls[k].slot < n
    requires SlotOk(trace[k].slots[calls[k].slot], trace[k].view) && Handled(calls[k], trace[k].slots[calls[k].slot], s, trace[k].view, view')
    requires Arranged(base, calls[k], trace[k].slots[calls[k].slot], s, trace[k].memory, m')
    ensures Ran(base, m, calls, k + 1, n, others, trace + [State(trace[k].slots[calls[k].slot := s], view', m')])
  {
    hide Handled; hide Arranged; hide Held; hide Untouched;
    var st' := State(trace[k].slots[calls[k].slot := s], view', m');
    assert Called(base, calls[k], trace[k], st');
    HeldKeeps(base, calls[k], trace[k], st', others);
  }

  // Runs a program with `n` variables, all null at first. The heap shows the allocations after every call,
  // and those that others made stay with their bytes.
  method RunCalls(h: Heap, calls: seq<Call>, n: nat, ghost others: map<nat, seq<Byte>>) returns (slots: seq<Slot>, ghost trace: seq<State>)
    requires Showing(h, others) && forall k :: 0 <= k < |calls| ==> CallOk(calls[k], n)
    requires h.base + h.heapSize + MostGrowth(calls) < 0x1_0000_0000_0000_0000
    modifies h
    ensures Ran(h.base, Memory(old(h.list.bs), old(h.heapSize)), calls, |calls|, n, others, trace)
    ensures Showing(h, trace[|calls|].view) && slots == trace[|calls|].slots && trace[|calls|].memory == Memory(h.list.bs, h.heapSize)
  {
    hide HeapOk; hide Shows; hide Handled; hide Arranged; hide Held; hide Untouched; hide Called; hide Ran; hide MostGrowth;
    slots := seq(n, _ => Slot(0, 0));
    ghost var m0 := Memory(h.list.bs, h.heapSize);
    trace := [State(slots, others, m0)];
    StartHeld(h, calls, n, others);
    ghost var view := others;
    assert calls[..|calls|] == calls && calls[..0] == [];
    for k := 0 to |calls|
      invariant |trace| == k + 1 && trace[k] == State(slots, view, Memory(h.list.bs, h.heapSize)) && |slots| == n
      invariant Showing(h, view) && Ran(h.base, m0, calls, k, n, others, trace)
      invariant h.heapSize <= old(h.heapSize) + MostGrowth(calls[..k])
    {
      var c := calls[k];
      GrowthAt(calls, k);
      SlotHeld(h.base, m0, calls, k, n, others, trace, c.slot);
      var s, view' := Handle(h, c, slots[c.slot], view);
      RanStep(h.base, m0, calls, k, n, others, trace, s, view', Memory(h.list.bs, h.heapSize));
      slots, view := slots[c.slot := s], view';
      trace := trace + [State(slots, view, Memory(h.list.bs, h.heapSize))];
    }
  }

  lemma SlotHeld(base: nat, m: Memory, calls: seq<Call>, k: nat, n: nat, others: map<nat, seq<Byte>>, trace: seq<State>, i: nat)
    requires Ran(base, m, calls, k, n, others, trace) && i < n
    ensures SlotOk(trace[k].slots[i], trace[k].view)
  {
  }

  lemma StartHeld(h: Heap, calls: seq<Call>, n: nat, others: map<nat, seq<Byte>>)
    requires Showing(h, others)
    ensures var m := Memory(h.list.bs, h.heapSize); Ran(h.base, m, calls, 0, n, others, [State(seq(n, _ => Slot(0, 0)), others, m)])
    ensures MostGrowth([]) == 0
  {
    NotNull(h.base, h.ram, h.list.bs, others);
  }

  lemma {:induction false} GrowthAt(cs: seq<Call>, k: nat)
    requires k < |cs|
    ensures MostGrowth(cs[..k + 1]) == MostGrowth(cs[..k]) + Growth(cs[k]) <= MostGrowth(cs)
    decreases |cs|
  {
    var n := |cs| - 1;
    if k < n {
      GrowthAt(cs[..n], k);
      assert cs[..n][..k] == cs[..k] && cs[..n][..k + 1] == cs[..k + 1];
    } else {
      assert cs[..k + 1] == cs;
    }
  }
}
