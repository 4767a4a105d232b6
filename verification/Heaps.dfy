/** The heap as an object: what the kernel's allocator and the user library's allocator both do,
    store by store, through the pointers in the headers. */
module Heaps {
  import opened Words
  import opened Bytes
  import opened BlockList
  import opened Allocations
  import opened HeapSteps

  datatype Blocks = Blocks(bs: seq<Block>)

  function Zeros(n: nat): (bs: seq<Byte>)
    ensures |bs| == n && forall i :: 0 <= i < n ==> bs[i] == 0
  {
    seq(n, _ => 0)
  }

  predicate Fits(b: Block, size: nat) { b.free && b.size >= size }

  ghost predicate NoFit(bs: seq<Block>, n: nat, size: nat)
    requires n <= |bs|
  {
    forall j :: 0 <= j < n ==> !Fits(bs[j], size)
  }

  // The lowest block that fits is the one behind `ptr`.
  ghost predicate LowestFit(base: nat, bs: seq<Block>, ptr: nat, size: nat) {
    forall b :: b in bs && Fits(b, size) ==> ptr <= base + b.at + HEADER
  }

  lemma FirstIsLowest(base: nat, bs: seq<Block>, limit: nat, i: nat, size: nat)
    requires Layout(bs, limit) && i < |bs| && NoFit(bs, i, size)
    ensures LowestFit(base, bs, base + bs[i].at + HEADER, size)
  {
    forall b | b in bs && Fits(b, size) ensures bs[i].at <= b.at {
      var j :| 0 <= j < |bs| && bs[j] == b;
      if i < j { Ascending(bs, limit, i, j); }
    }
  }

  // The allocation behind a pointer.
  ghost predicate Holds(base: nat, bs: seq<Block>, ptr: nat, b: Block) {
    b in bs && !b.free && ptr == base + b.at + HEADER
  }

  // A pointer to the payload of some block, allocated or not.
  ghost predicate Known(base: nat, bs: seq<Block>, ptr: nat) {
    exists i :: 0 <= i < |bs| && ptr == base + bs[i].at + HEADER
  }

  lemma HoldsKnown(base: nat, bs: seq<Block>, ptr: nat, b: Block)
    requires Holds(base, bs, ptr, b)
    ensures Known(base, bs, ptr)
  {
    var j :| 0 <= j < |bs| && bs[j] == b;
  }

  ghost function IndexOf(base: nat, bs: seq<Block>, ptr: nat): (i: nat)
    requires Known(base, bs, ptr)
    ensures i < |bs| && ptr == base + bs[i].at + HEADER
  {
    var i :| 0 <= i < |bs| && ptr == base + bs[i].at + HEADER;
    i
  }

  lemma LayoutOf(base: nat, ram: Ram, bs: seq<Block>)
    requires HeapOk(base, ram, bs)
    ensures Layout(bs, |ram.bytes|)
  {
  }

  lemma OneAt(base: nat, bs: seq<Block>, limit: nat, b: Block, c: Block)
    requires Layout(bs, limit) && b in bs && c in bs && b.at == c.at
    ensures b == c
  {
    var i :| 0 <= i < |bs| && bs[i] == b;
    var j :| 0 <= j < |bs| && bs[j] == c;
    if i != j { BlocksClear(bs, limit, i, j); }
  }

  // Exactly the allocation `b` came into being; all others are there with the same bytes.
  ghost predicate Gained(ram: Ram, bs: seq<Block>, ram': Ram, bs': seq<Block>, b: Block) {
    && b !in bs && b in bs' && !b.free && End(b) <= |ram'.bytes|
    && Kept(ram, bs, ram', bs', {}) && NoneBut(bs, bs', {b})
  }

  // Exactly the allocation `b` went; all others are there with the same bytes.
  ghost predicate Lost(ram: Ram, bs: seq<Block>, ram': Ram, bs': seq<Block>, b: Block) {
    b in bs && b !in bs' && Kept(ram, bs, ram', bs', {b}) && NoneBut(bs, bs', {})
  }

  // The allocations and their bytes are the same.
  ghost predicate Same(ram: Ram, bs: seq<Block>, ram': Ram, bs': seq<Block>) {
    Kept(ram, bs, ram', bs', {}) && NoneBut(bs, bs', {})
  }

  class Heap {
    const base: Word
    var ram: Ram
    var heapSize: nat
    ghost var list: Blocks

    ghost predicate Valid()
      reads this
    {
      HeapOk(base, ram, list.bs) && heapSize == |ram.bytes|
    }

    // One free block in freshly mapped memory.
    constructor (start: Word, mapped: seq<Byte>)
      requires start > 0 && |mapped| >= HEADER && start + |mapped| < 0x1_0000_0000_0000_0000
      ensures Valid() && base == start && heapSize == |mapped|
      ensures list.bs == [Block(0, |mapped| - HEADER, true)]
    {
      var h := Header(|mapped| - HEADER, H_FREE, 0, 0);
      WriteSame(Ram(mapped), 0, h);
      base := start;
      heapSize := |mapped|;
      ram := Write(Ram(mapped), 0, h);
      list := Blocks([Block(0, |mapped| - HEADER, true)]);
    }

    // First fit: the lowest free block that is large enough, or null when there is none.
    method FindFit(size: Word) returns (node: Word, ghost i: nat)
      requires Valid()
      ensures node == 0 ==> i == |list.bs| && NoFit(list.bs, |list.bs|, size)
      ensures node != 0 ==> i < |list.bs| && node == base + list.bs[i].at && Fits(list.bs[i], size) && NoFit(list.bs, i, size)
    {
      hide HeapOk; hide Read;
      BlocksThere(base, ram, list.bs);
      node, i := base, 0;
      while node != 0
        invariant i <= |list.bs| && node == Pointer(base, list.bs, i) && NoFit(list.bs, i, size)
        decreases |list.bs| - i
      {
        HeadersOf(base, ram, list.bs, i);
        var h := Read(ram, node - base);
        if h.size >= size && h.flags == H_FREE {
          return;
        }
        node := h.next;
        i := i + 1;
      }
    }

    method FindLast() returns (last: Word)
      requires Valid()
      ensures last == base + list.bs[|list.bs| - 1].at
    {
      hide HeapOk; hide Read;
      BlocksThere(base, ram, list.bs);
      last := base;
      ghost var i := 0;
      HeadersOf(base, ram, list.bs, 0);
      while Read(ram, last - base).next != 0
        invariant i < |list.bs| && last == base + list.bs[i].at && Represents(base, ram, list.bs, i)
        decreases |list.bs| - i
      {
        last := Read(ram, last - base).next;
        i := i + 1;
        HeadersOf(base, ram, list.bs, i);
      }
    }

    // Cuts the block at `node` to `size` bytes, taken; the rest becomes a free block.
    method Split(node: Word, size: Word, ghost i: nat)
      requires Valid() && i < |list.bs| && node == base + list.bs[i].at && list.bs[i].size > size + HEADER
      modifies this`ram, this`list
      ensures Valid() && ram == SplitRam(base, old(ram), old(list.bs), i, size) && list.bs == SplitAt(old(list.bs), i, size)
    {
      hide HeapOk; hide Read; hide Write; hide SplitAt;
      BlocksThere(base, ram, list.bs);
      SplitOk(base, ram, list.bs, i, size);
      SplitRead(base, ram, list.bs, i, size, i);
      HeadersOf(base, ram, list.bs, i);
      HeadersInside(base, ram, list.bs);
      ghost var bs := list.bs;
      var at := node - base;
      var h := Read(ram, at);
      var rest := at + HEADER + size;
      ram := Write(ram, rest, Header(h.size - size - HEADER, H_FREE, node, h.next));
      if h.next != 0 {
        var k := h.next - base;
        ram := Write(ram, k, Read(ram, k).(prev := base + rest));
      }
      ram := Write(ram, at, Header(size, 0, Read(ram, at).prev, base + rest));
      list := Blocks(SplitAt(bs, i, size));
    }

    // Joins the block at `node` with the one behind it.
    method Join(node: Word, ghost i: nat)
      requires Valid() && i + 1 < |list.bs| && node == base + list.bs[i].at
      modifies this`ram, this`list
      ensures Valid() && ram == MergeRam(base, old(ram), old(list.bs), i) && list.bs == MergeAt(old(list.bs), i)
    {
      hide HeapOk; hide Read; hide Write; hide MergeAt;
      BlocksThere(base, ram, list.bs);
      MergeOk(base, ram, list.bs, i);
      MergeRead(base, ram, list.bs, i, i);
      HeadersOf(base, ram, list.bs, i);
      HeadersOf(base, ram, list.bs, i + 1);
      HeadersInside(base, ram, list.bs);
      ghost var bs := list.bs;
      var at := node - base;
      var h := Read(ram, at);
      var behind := Read(ram, h.next - base);
      ram := Write(ram, at, h.(size := h.size + HEADER + behind.size, next := behind.next));
      if behind.next != 0 {
        var k := behind.next - base;
        ram := Write(ram, k, Read(ram, k).(prev := node));
      }
      list := Blocks(MergeAt(bs, i));
    }

    // A store by the holder of a block, from the start of its payload.
    method Fill(ptr: Word, data: seq<Byte>, ghost b: Block)
      requires Valid() && Holds(base, list.bs, ptr, b) && |data| <= b.size
      modifies this`ram
      ensures Valid() && Kept(old(ram), list.bs, ram, list.bs, {b}) && End(b) <= |ram.bytes| == |old(ram).bytes|
      ensures Payload(ram, b) == data + Payload(old(ram), b)[|data|..]
    {
      hide HeapOk; hide Payload; hide Filled; hide Kept;
      FillOk(base, ram, list.bs, b, data);
      ram := Filled(ram, Block(ptr - base - HEADER, |data|, false), data);
      FilledSize(old(ram), b, data);
    }

    // Takes the free block at `node` and clears its payload.
    method Take(node: Word, size: Word, ghost i: nat) returns (ptr: Word)
      requires Valid() && i < |list.bs| && node == base + list.bs[i].at && Fits(list.bs[i], size)
      modifies this`ram, this`list
      ensures Valid() && ptr == node + HEADER && list.bs == TakeAt(old(list.bs), i, size)
      ensures var b := Block(node - base, size, false);
        && Gained(old(ram), old(list.bs), ram, list.bs, b) && Payload(ram, b) == Zeros(size)
      ensures Weight(old(list.bs)) - HEADER <= Weight(list.bs) <= Weight(old(list.bs))
    {
      hide HeapOk; hide Read; hide Write; hide SplitAt; hide SplitRam; hide MarkRam; hide Payload; hide Weight; hide Kept; hide NoneBut; hide Zeros;
      ghost var bs, ram0, b := list.bs, ram, Block(node - base, size, false);
      HeadersInside(base, ram, list.bs);
      TakeOk(base, ram, list.bs, i, size);
      HeadersOf(base, ram, list.bs, i);
      var at := node - base;
      var h := Read(ram, at);
      if h.size - size > HEADER {
        Split(node, size, i);
      } else {
        MarkIs(base, ram, list.bs, i, size, false);
        ram := Write(ram, at, h.(size := size, flags := 0));
        list := Blocks(MarkAt(bs, i, size, false));
      }
      ghost var ram1 := ram;
      ptr := node + HEADER;
      Fill(ptr, Zeros(size), b);
      KeptThen(ram0, bs, ram1, list.bs, ram, list.bs, {}, {b});
      NothingLeft(Payload(ram1, b), size);
    }

    // Maps more memory behind the heap and appends it as a free block.
    method Grow(mapped: seq<Byte>)
      requires Valid() && Grows(base, ram, mapped)
      modifies this
      ensures Valid() && heapSize == old(heapSize) + |mapped|
      ensures list.bs == AppendAt(old(list.bs), old(heapSize), |mapped| - HEADER)
      ensures Same(old(ram), old(list.bs), ram, list.bs) && Weight(list.bs) == Weight(old(list.bs)) + |mapped|
    {
      hide HeapOk; hide Read; hide Write; hide AppendAt; hide Weight; hide Kept; hide NoneBut; hide Extended;
      ghost var bs := list.bs;
      AppendOk(base, ram, bs, mapped);
      AppendKeeps(base, ram, bs, mapped);
      BlocksThere(base, ram, bs);
      HeadersInside(base, ram, bs);
      AppendRead(base, ram, bs, mapped, |bs| - 1);
      var last := FindLast();
      var end := heapSize;
      ram := Extended(ram, mapped);
      ram := Write(ram, end, Header(|mapped| - HEADER, H_FREE, last, 0));
      ram := Write(ram, last - base, Read(ram, last - base).(next := base + end));
      heapSize := heapSize + |mapped|;
      list := Blocks(AppendAt(bs, end, |mapped| - HEADER));
    }

    // Frees the block at `node` and joins it with its free neighbours.
    method Release(node: Word, ghost i: nat)
      requires Valid() && i < |list.bs| && node == base + list.bs[i].at && !list.bs[i].free
      modifies this`ram, this`list
      ensures Valid() && list.bs == ReleaseAt(old(list.bs), i) && Weight(list.bs) == Weight(old(list.bs))
      ensures Lost(old(ram), old(list.bs), ram, list.bs, old(list.bs[i])) && heapSize == old(heapSize)
    {
      hide HeapOk; hide Read; hide Write; hide MergeAt; hide MergeRam; hide MarkAt; hide MarkRam; hide Weight; hide Kept; hide NoneBut;
      ghost var bs, ram0 := list.bs, ram;
      BlocksThere(base, ram, bs);
      ReleaseOk(base, ram, bs, i);
      FreedOk(base, ram, bs, i);
      HeadersOf(base, ram, bs, i);
      MarkOk(base, ram, bs, i, bs[i].size, true);
      MarkIs(base, ram, bs, i, bs[i].size, true);
      var at := node - base;
      ram := Write(ram, at, Read(ram, at).(flags := H_FREE));
      list := Blocks(MarkAt(bs, i, bs[i].size, true));
      ghost var marked, ram1 := list.bs, ram;
      MarkIndex(bs, i, bs[i].size, true, i);
      HeadersOf(base, ram, marked, i);
      var next := Read(ram, at).next;
      if i + 1 < |marked| { HeadersOf(base, ram, marked, i + 1); }
      if next != 0 && Read(ram, next - base).flags == H_FREE {
        Join(node, i);
      }
      assert list.bs == JoinAt(marked, i) && ram == JoinRam(base, ram1, marked, i);
      HeadersOf(base, ram, list.bs, i);
      JoinStart(marked, i);
      if i > 0 { HeadersOf(base, ram, list.bs, i - 1); }
      var prev := Read(ram, at).prev;
      if prev != 0 && Read(ram, prev - base).flags == H_FREE {
        Join(prev, i - 1);
      }
    }
  }

  lemma JoinStart(bs: seq<Block>, i: nat)
    requires i < |bs|
    ensures i < |JoinAt(bs, i)| && JoinAt(bs, i)[i].at == bs[i].at
  {
  }

  lemma BlocksThere(base: nat, ram: Ram, bs: seq<Block>)
    requires HeapOk(base, ram, bs)
    ensures bs != [] && bs[0].at == 0 && base > 0
  {
  }

  lemma MarkIs(base: nat, ram: Ram, bs: seq<Block>, i: nat, size: nat, free: bool)
    requires HeapOk(base, ram, bs) && i < |bs| && size <= bs[i].size
    ensures bs[i].at + HEADER <= |ram.bytes| && size < 0x1_0000_0000_0000_0000
    ensures MarkRam(base, ram, bs, i, size, free) ==
            Write(ram, bs[i].at, Read(ram, bs[i].at).(size := size, flags := if free then H_FREE else 0))
    ensures Read(ram, bs[i].at).size == bs[i].size
  {
    HeadersOf(base, ram, bs, i);
    hide Read; hide Write;
    HeadersInside(base, ram, bs);
  }

  lemma FilledSize(ram: Ram, b: Block, data: seq<Byte>)
    requires |data| <= b.size && End(b) <= |ram.bytes|
    ensures Filled(ram, b, data) == Filled(ram, Block(b.at, |data|, false), data)
  {
  }

  lemma NothingLeft(bs: seq<Byte>, size: nat)
    requires |bs| == size
    ensures bs[size..] == [] && Zeros(size) + bs[size..] == Zeros(size)
  {
  }
}
