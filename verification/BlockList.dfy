/** A heap as it lies in memory: 32-byte headers between payloads, linked both ways in address order.
    The kernel's heap and the user library's heap have the same headers and the same list. */
module BlockList {
  import opened Words
  import opened Bytes

  // ----- memory and headers -----

  // The heap's memory; byte `k` lies at address `base + k`.
  datatype Ram = Ram(bytes: seq<Byte>)

  const HEADER: nat := 32
  const H_FREE: Word := 1

  // HeapItem: size, flags, prev, next
  datatype Header = Header(size: Word, flags: Word, prev: Word, next: Word)

  function Load(ram: Ram, k: nat): Word
    requires k + 8 <= |ram.bytes|
  {
    PackWord(ram.bytes[k..k + 8])
  }

  function Read(ram: Ram, k: nat): Header
    requires k + HEADER <= |ram.bytes|
  {
    Header(Load(ram, k), Load(ram, k + 8), Load(ram, k + 16), Load(ram, k + 24))
  }

  function Encoded(h: Header): (bs: seq<Byte>)
    ensures |bs| == HEADER
  {
    UnpackWord(h.size) + UnpackWord(h.flags) + UnpackWord(h.prev) + UnpackWord(h.next)
  }

  // The memory after the header at `k` is overwritten. Storing one field is writing the header with
  // the other fields as they are.
  function Write(ram: Ram, k: nat, h: Header): (r: Ram)
    requires k + HEADER <= |ram.bytes|
    ensures |r.bytes| == |ram.bytes|
  {
    Ram(ram.bytes[..k] + Encoded(h) + ram.bytes[k + HEADER..])
  }

  lemma WriteSame(ram: Ram, k: nat, h: Header)
    requires k + HEADER <= |ram.bytes|
    ensures Read(Write(ram, k, h), k) == h
  {
    var bs := Write(ram, k, h).bytes;
    assert bs[k..k + 8] == UnpackWord(h.size);
    assert bs[k + 8..k + 16] == UnpackWord(h.flags);
    assert bs[k + 16..k + 24] == UnpackWord(h.prev);
    assert bs[k + 24..k + 32] == UnpackWord(h.next);
    PackUnpack(h.size); PackUnpack(h.flags); PackUnpack(h.prev); PackUnpack(h.next);
  }

  lemma WriteBytes(ram: Ram, k: nat, h: Header, lo: nat, hi: nat)
    requires k + HEADER <= |ram.bytes| && lo <= hi <= |ram.bytes| && (hi <= k || k + HEADER <= lo)
    ensures Write(ram, k, h).bytes[lo..hi] == ram.bytes[lo..hi]
  {
    hide UnpackWord;
  }

  lemma SameHeader(ram: Ram, ram': Ram, k: nat)
    requires k + HEADER <= |ram.bytes| && k + HEADER <= |ram'.bytes|
    requires ram'.bytes[k..k + HEADER] == ram.bytes[k..k + HEADER]
    ensures Read(ram', k) == Read(ram, k)
  {
    hide PackWord;
    var a, b := ram.bytes[k..k + HEADER], ram'.bytes[k..k + HEADER];
    assert ram.bytes[k..k + 8] == a[0..8] && ram'.bytes[k..k + 8] == b[0..8];
    assert ram.bytes[k + 8..k + 16] == a[8..16] && ram'.bytes[k + 8..k + 16] == b[8..16];
    assert ram.bytes[k + 16..k + 24] == a[16..24] && ram'.bytes[k + 16..k + 24] == b[16..24];
    assert ram.bytes[k + 24..k + 32] == a[24..32] && ram'.bytes[k + 24..k + 32] == b[24..32];
  }

  lemma WriteOther(ram: Ram, k: nat, h: Header, k': nat)
    requires k + HEADER <= |ram.bytes| && k' + HEADER <= |ram.bytes| && (k + HEADER <= k' || k' + HEADER <= k)
    ensures Read(Write(ram, k, h), k') == Read(ram, k')
  {
    hide Encoded; hide Read;
    WriteBytes(ram, k, h, k', k' + HEADER);
    SameHeader(ram, Write(ram, k, h), k');
  }

  // ----- the list of blocks -----

  // The header at offset `at` with the payload of `size` bytes behind it.
  datatype Block = Block(at: nat, size: nat, free: bool)

  function End(b: Block): nat { b.at + HEADER + b.size }

  // Blocks in strictly ascending address order, disjoint, all inside the first `limit` bytes.
  ghost predicate Layout(bs: seq<Block>, limit: nat) {
    && bs != [] && bs[0].at == 0
    && (forall i :: 0 <= i < |bs| - 1 ==> End(bs[i]) <= bs[i + 1].at)
    && End(bs[|bs| - 1]) <= limit
  }

  lemma {:induction false} Ascending(bs: seq<Block>, limit: nat, i: nat, j: nat)
    requires Layout(bs, limit) && i < j < |bs|
    ensures End(bs[i]) <= bs[j].at
    decreases j - i
  {
    if i + 1 < j {
      Ascending(bs, limit, i, j - 1);
    }
  }

  lemma {:induction false} Inside(bs: seq<Block>, limit: nat, i: nat)
    requires Layout(bs, limit) && i < |bs|
    ensures End(bs[i]) <= limit
  {
    if i < |bs| - 1 {
      Ascending(bs, limit, i, |bs| - 1);
    }
  }

  // Header addresses as pointers; null before the first block and behind the last.
  function Pointer(base: nat, bs: seq<Block>, i: int): nat {
    if 0 <= i < |bs| then base + bs[i].at else 0
  }

  // What the header of block `i` holds.
  ghost predicate Represents(base: nat, ram: Ram, bs: seq<Block>, i: nat)
    requires i < |bs|
  {
    bs[i].at + HEADER <= |ram.bytes| &&
    var h := Read(ram, bs[i].at);
    && h.size == bs[i].size && h.flags == (if bs[i].free then H_FREE else 0)
    && h.prev == Pointer(base, bs, i - 1) && h.next == Pointer(base, bs, i + 1)
  }

  ghost predicate HeapOk(base: nat, ram: Ram, bs: seq<Block>) {
    && base > 0 && base + |ram.bytes| < 0x1_0000_0000_0000_0000
    && Layout(bs, |ram.bytes|)
    && forall i :: 0 <= i < |bs| ==> Represents(base, ram, bs, i)
  }

  // The bytes that the holder of a block may use.
  function Payload(ram: Ram, b: Block): (p: seq<Byte>)
    requires End(b) <= |ram.bytes|
    ensures |p| == b.size
  {
    ram.bytes[b.at + HEADER..End(b)]
  }

  predicate Clear(a: nat, b: nat) { a + HEADER <= b || b + HEADER <= a }

  lemma ReadTwo(ram: Ram, a: nat, ha: Header, b: nat, hb: Header, k: nat)
    requires a + HEADER <= |ram.bytes| && b + HEADER <= |ram.bytes| && k + HEADER <= |ram.bytes| && Clear(a, b)
    requires k == a || k == b || (Clear(k, a) && Clear(k, b))
    ensures Read(Write(Write(ram, a, ha), b, hb), k) == if k == a then ha else if k == b then hb else Read(ram, k)
  {
    hide Read; hide Write;
    var r1 := Write(ram, a, ha);
    if k == b { WriteSame(r1, b, hb); } else { WriteOther(r1, b, hb, k); }
    if k == a { WriteSame(ram, a, ha); } else if k != b { WriteOther(ram, a, ha, k); }
  }

  lemma ReadThree(ram: Ram, a: nat, ha: Header, b: nat, hb: Header, c: nat, hc: Header, k: nat)
    requires a + HEADER <= |ram.bytes| && b + HEADER <= |ram.bytes| && c + HEADER <= |ram.bytes| && k + HEADER <= |ram.bytes|
    requires Clear(a, b) && Clear(a, c) && Clear(b, c)
    requires k == a || k == b || k == c || (Clear(k, a) && Clear(k, b) && Clear(k, c))
    ensures Read(Write(Write(Write(ram, a, ha), b, hb), c, hc), k) ==
            if k == a then ha else if k == b then hb else if k == c then hc else Read(ram, k)
  {
    hide Read; hide Write;
    var r2 := Write(Write(ram, a, ha), b, hb);
    if k == c { WriteSame(r2, c, hc); } else { WriteOther(r2, c, hc, k); ReadTwo(ram, a, ha, b, hb, k); }
  }

  // ----- splitting a block -----

  // Block `i` cut to `size` bytes and taken, with the rest as a free block behind it.
  function SplitAt(bs: seq<Block>, i: nat, size: nat): (l: seq<Block>)
    requires i < |bs| && bs[i].size > size + HEADER
    ensures |l| == |bs| + 1
  {
    bs[..i] + [Block(bs[i].at, size, false), Rest(bs[i], size)] + bs[i + 1..]
  }

  function Rest(b: Block, size: nat): Block
    requires b.size > size + HEADER
  {
    Block(b.at + HEADER + size, b.size - size - HEADER, true)
  }

  lemma SplitLayout(bs: seq<Block>, limit: nat, i: nat, size: nat)
    requires Layout(bs, limit) && i < |bs| && bs[i].size > size + HEADER
    ensures Layout(SplitAt(bs, i, size), limit)
  {
    var l := SplitAt(bs, i, size);
    forall j | 0 <= j < |l| - 1 ensures End(l[j]) <= l[j + 1].at {
      SplitIndex(bs, i, size, j);
      SplitIndex(bs, i, size, j + 1);
      if i + 1 < |bs| { assert End(bs[i]) <= bs[i + 1].at; }
      if j < i { assert End(bs[j]) <= bs[j + 1].at; }
      if j > i + 1 { assert End(bs[j - 1]) <= bs[j].at; }
    }
    SplitIndex(bs, i, size, 0);
    SplitIndex(bs, i, size, |l| - 1);
  }

  lemma SplitIndex(bs: seq<Block>, i: nat, size: nat, j: nat)
    requires i < |bs| && bs[i].size > size + HEADER && j <= |bs|
    ensures SplitAt(bs, i, size)[j] ==
            if j < i then bs[j] else if j == i then Block(bs[i].at, size, false)
            else if j == i + 1 then Rest(bs[i], size) else bs[j - 1]
  {
  }

  // The stores of a split: the new header, the back pointer of the next block, the cut block.
  function SplitRam(base: nat, ram: Ram, bs: seq<Block>, i: nat, size: nat): (r: Ram)
    requires HeapOk(base, ram, bs) && i < |bs| && bs[i].size > size + HEADER
    ensures |r.bytes| == |ram.bytes|
  {
    HeadersInside(base, ram, bs);
    var rest := Rest(bs[i], size);
    var was := Read(ram, bs[i].at);
    var r1 := Write(ram, rest.at, Header(rest.size, H_FREE, base + bs[i].at, was.next));
    var r2 := if i + 1 < |bs| then Write(r1, bs[i + 1].at, Read(r1, bs[i + 1].at).(prev := base + rest.at)) else r1;
    Write(r2, bs[i].at, Header(size, 0, Read(r2, bs[i].at).prev, base + rest.at))
  }

  lemma HeadersInside(base: nat, ram: Ram, bs: seq<Block>)
    requires HeapOk(base, ram, bs)
    ensures forall i :: 0 <= i < |bs| ==> End(bs[i]) <= |ram.bytes| && base + End(bs[i]) < 0x1_0000_0000_0000_0000
  {
    forall i | 0 <= i < |bs| ensures End(bs[i]) <= |ram.bytes| {
      Inside(bs, |ram.bytes|, i);
    }
  }

  lemma BlocksClear(bs: seq<Block>, limit: nat, i: nat, j: nat)
    requires Layout(bs, limit) && i < |bs| && j < |bs| && i != j
    ensures Clear(bs[i].at, bs[j].at) && (End(bs[i]) <= bs[j].at || End(bs[j]) <= bs[i].at)
  {
    if i < j { Ascending(bs, limit, i, j); } else { Ascending(bs, limit, j, i); }
  }

  lemma SplitRead(base: nat, ram: Ram, bs: seq<Block>, i: nat, size: nat, j: nat)
    requires HeapOk(base, ram, bs) && i < |bs| && bs[i].size > size + HEADER && j < |bs|
    ensures End(bs[j]) <= |ram.bytes| && End(Rest(bs[i], size)) <= |ram.bytes|
    ensures base + End(Rest(bs[i], size)) <= 0x1_0000_0000_0000_0000
    ensures var r, rest := SplitRam(base, ram, bs, i, size), Rest(bs[i], size);
      && Read(r, rest.at) == Header(rest.size, H_FREE, base + bs[i].at, Read(ram, bs[i].at).next)
      && Read(r, bs[j].at) ==
           if j == i then Header(size, 0, Read(ram, bs[i].at).prev, base + rest.at)
           else if j == i + 1 then Read(ram, bs[j].at).(prev := base + rest.at)
           else Read(ram, bs[j].at)
  {
    hide Read; hide Write; hide Represents;
    HeadersInside(base, ram, bs);
    var limit, rest, was := |ram.bytes|, Rest(bs[i], size), Read(ram, bs[i].at);
    if j != i { BlocksClear(bs, limit, i, j); }
    var h1 := Header(rest.size, H_FREE, base + bs[i].at, was.next);
    WriteOther(ram, rest.at, h1, bs[i].at);
    if i + 1 < |bs| {
      BlocksClear(bs, limit, i, i + 1);
      if j != i + 1 { BlocksClear(bs, limit, i + 1, j); }
      WriteOther(ram, rest.at, h1, bs[i + 1].at);
      var h2 := Read(ram, bs[i + 1].at).(prev := base + rest.at);
      ReadTwo(ram, rest.at, h1, bs[i + 1].at, h2, bs[i].at);
      var h3 := Header(size, 0, was.prev, base + rest.at);
      ReadThree(ram, rest.at, h1, bs[i + 1].at, h2, bs[i].at, h3, rest.at);
      ReadThree(ram, rest.at, h1, bs[i + 1].at, h2, bs[i].at, h3, bs[j].at);
    } else {
      var h3 := Header(size, 0, was.prev, base + rest.at);
      ReadTwo(ram, rest.at, h1, bs[i].at, h3, rest.at);
      ReadTwo(ram, rest.at, h1, bs[i].at, h3, bs[j].at);
    }
  }

  lemma SplitRepresents(base: nat, ram: Ram, bs: seq<Block>, i: nat, size: nat, j: nat)
    requires HeapOk(base, ram, bs) && i < |bs| && bs[i].size > size + HEADER && j <= |bs|
    ensures Represents(base, SplitRam(base, ram, bs, i, size), SplitAt(bs, i, size), j)
  {
    hide Read; hide Write; hide SplitRam; hide SplitAt; hide HeapOk; hide Rest;
    var k := if j <= i then j else j - 1;
    SplitIndex(bs, i, size, j);
    SplitRead(base, ram, bs, i, size, k);
    SplitPointer(base, bs, i, size, j - 1);
    SplitPointer(base, bs, i, size, j + 1);
    RestIs(bs[i], size);
    HeadersOf(base, ram, bs, k);
    HeadersOf(base, ram, bs, i);
  }

  lemma RestIs(b: Block, size: nat)
    requires b.size > size + HEADER
    ensures Rest(b, size) == Block(b.at + HEADER + size, b.size - size - HEADER, true)
  {
  }

  lemma HeadersOf(base: nat, ram: Ram, bs: seq<Block>, i: nat)
    requires HeapOk(base, ram, bs) && i < |bs|
    ensures Represents(base, ram, bs, i)
  {
  }

  lemma SplitPointer(base: nat, bs: seq<Block>, i: nat, size: nat, j: int)
    requires i < |bs| && bs[i].size > size + HEADER
    ensures Pointer(base, SplitAt(bs, i, size), j) ==
            if j <= i then Pointer(base, bs, j) else if j == i + 1 then base + Rest(bs[i], size).at else Pointer(base, bs, j - 1)
  {
  }

  lemma SplitOk(base: nat, ram: Ram, bs: seq<Block>, i: nat, size: nat)
    requires HeapOk(base, ram, bs) && i < |bs| && bs[i].size > size + HEADER
    ensures HeapOk(base, SplitRam(base, ram, bs, i, size), SplitAt(bs, i, size))
  {
    hide Read; hide SplitRam; hide SplitAt; hide Represents;
    SplitLayout(bs, |ram.bytes|, i, size);
    var l := SplitAt(bs, i, size);
    SplitIndex(bs, i, size, 0);
    forall j | 0 <= j < |l| ensures Represents(base, SplitRam(base, ram, bs, i, size), l, j) {
      SplitRepresents(base, ram, bs, i, size, j);
    }
  }

  // Bytes away from the written headers are as they were; so is every other payload, and the
  // payload that remains to the cut block.
  lemma SplitBytes(base: nat, ram: Ram, bs: seq<Block>, i: nat, size: nat, lo: nat, hi: nat)
    requires HeapOk(base, ram, bs) && i < |bs| && bs[i].size > size + HEADER
    requires lo <= hi <= |ram.bytes|
    requires hi <= bs[i].at || bs[i].at + HEADER <= lo
    requires hi <= Rest(bs[i], size).at || Rest(bs[i], size).at + HEADER <= lo
    requires i + 1 < |bs| ==> hi <= bs[i + 1].at || bs[i + 1].at + HEADER <= lo
    ensures SplitRam(base, ram, bs, i, size).bytes[lo..hi] == ram.bytes[lo..hi]
  {
    hide Read; hide Write; hide Represents;
    HeadersInside(base, ram, bs);
    var rest, was := Rest(bs[i], size), Read(ram, bs[i].at);
    var h1 := Header(rest.size, H_FREE, base + bs[i].at, was.next);
    var r1 := Write(ram, rest.at, h1);
    WriteBytes(ram, rest.at, h1, lo, hi);
    var r2 := if i + 1 < |bs| then Write(r1, bs[i + 1].at, Read(r1, bs[i + 1].at).(prev := base + rest.at)) else r1;
    if i + 1 < |bs| {
      WriteBytes(r1, bs[i + 1].at, Read(r1, bs[i + 1].at).(prev := base + rest.at), lo, hi);
    }
    WriteBytes(r2, bs[i].at, Header(size, 0, Read(r2, bs[i].at).prev, base + rest.at), lo, hi);
  }

  // ----- marking a block -----

  // Block `i` with a size no larger than before, taken or free.
  function MarkAt(bs: seq<Block>, i: nat, size: nat, free: bool): (l: seq<Block>)
    requires i < |bs| && size <= bs[i].size
    ensures |l| == |bs|
  {
    bs[i := Block(bs[i].at, size, free)]
  }

  function Flag(free: bool): Word { if free then H_FREE else 0 }

  function MarkRam(base: nat, ram: Ram, bs: seq<Block>, i: nat, size: nat, free: bool): (r: Ram)
    requires HeapOk(base, ram, bs) && i < |bs| && size <= bs[i].size
    ensures |r.bytes| == |ram.bytes|
  {
    HeadersInside(base, ram, bs);
    Write(ram, bs[i].at, Read(ram, bs[i].at).(size := size, flags := Flag(free)))
  }

  lemma MarkOk(base: nat, ram: Ram, bs: seq<Block>, i: nat, size: nat, free: bool)
    requires HeapOk(base, ram, bs) && i < |bs| && size <= bs[i].size
    ensures HeapOk(base, MarkRam(base, ram, bs, i, size, free), MarkAt(bs, i, size, free))
  {
    var l, r := MarkAt(bs, i, size, free), MarkRam(base, ram, bs, i, size, free);
    MarkLayout(bs, |ram.bytes|, i, size, free);
    hide Read; hide Write; hide Layout; hide MarkAt; hide MarkRam; hide Represents;
    forall j | 0 <= j < |bs| ensures Represents(base, r, l, j) {
      MarkRepresents(base, ram, bs, i, size, free, j);
    }
  }

  lemma MarkLayout(bs: seq<Block>, limit: nat, i: nat, size: nat, free: bool)
    requires Layout(bs, limit) && i < |bs| && size <= bs[i].size
    ensures Layout(MarkAt(bs, i, size, free), limit)
  {
    var l := MarkAt(bs, i, size, free);
    forall j | 0 <= j < |l| - 1 ensures End(l[j]) <= l[j + 1].at {
      assert End(bs[j]) <= bs[j + 1].at;
    }
  }

  lemma MarkRepresents(base: nat, ram: Ram, bs: seq<Block>, i: nat, size: nat, free: bool, j: nat)
    requires HeapOk(base, ram, bs) && i < |bs| && size <= bs[i].size && j < |bs|
    ensures Represents(base, MarkRam(base, ram, bs, i, size, free), MarkAt(bs, i, size, free), j)
  {
    hide Read; hide Write; hide Layout;
    HeadersInside(base, ram, bs);
    HeadersOf(base, ram, bs, j);
    HeadersOf(base, ram, bs, i);
    var h := Read(ram, bs[i].at).(size := size, flags := Flag(free));
    if j == i {
      WriteSame(ram, bs[i].at, h);
    } else {
      BlocksClear(bs, |ram.bytes|, i, j);
      WriteOther(ram, bs[i].at, h, bs[j].at);
    }
  }

  lemma MarkBytes(base: nat, ram: Ram, bs: seq<Block>, i: nat, size: nat, free: bool, lo: nat, hi: nat)
    requires HeapOk(base, ram, bs) && i < |bs| && size <= bs[i].size
    requires lo <= hi <= |ram.bytes| && (hi <= bs[i].at || bs[i].at + HEADER <= lo)
    ensures MarkRam(base, ram, bs, i, size, free).bytes[lo..hi] == ram.bytes[lo..hi]
  {
    hide Read; hide Write; hide Represents;
    HeadersInside(base, ram, bs);
    WriteBytes(ram, bs[i].at, Read(ram, bs[i].at).(size := size, flags := Flag(free)), lo, hi);
  }

  // ----- merging a block with the one behind it -----

  function Merged(b: Block, c: Block): Block { Block(b.at, b.size + HEADER + c.size, b.free) }

  function MergeAt(bs: seq<Block>, i: nat): (l: seq<Block>)
    requires i + 1 < |bs|
    ensures |l| == |bs| - 1
  {
    bs[..i] + [Merged(bs[i], bs[i + 1])] + bs[i + 2..]
  }

  lemma MergeIndex(bs: seq<Block>, i: nat, j: nat)
    requires i + 1 < |bs| && j < |bs| - 1
    ensures MergeAt(bs, i)[j] == if j < i then bs[j] else if j == i then Merged(bs[i], bs[i + 1]) else bs[j + 1]
  {
  }

  lemma MergeLayout(bs: seq<Block>, limit: nat, i: nat)
    requires Layout(bs, limit) && i + 1 < |bs|
    ensures Layout(MergeAt(bs, i), limit)
  {
    var l := MergeAt(bs, i);
    assert End(bs[i]) <= bs[i + 1].at;
    forall j | 0 <= j < |l| - 1 ensures End(l[j]) <= l[j + 1].at {
      MergeIndex(bs, i, j);
      MergeIndex(bs, i, j + 1);
      if j < i { assert End(bs[j]) <= bs[j + 1].at; } else { assert End(bs[j + 1]) <= bs[j + 2].at; }
    }
    MergeIndex(bs, i, 0);
    MergeIndex(bs, i, |l| - 1);
  }

  // The stores of a merge: the size and forward pointer of the block, the back pointer behind it.
  function MergeRam(base: nat, ram: Ram, bs: seq<Block>, i: nat): (r: Ram)
    requires HeapOk(base, ram, bs) && i + 1 < |bs|
    ensures |r.bytes| == |ram.bytes|
  {
    HeadersInside(base, ram, bs);
    MergeFits(bs, |ram.bytes|, i);
    var h := Read(ram, bs[i].at).(size := bs[i].size + HEADER + bs[i + 1].size, next := Read(ram, bs[i + 1].at).next);
    var r1 := Write(ram, bs[i].at, h);
    if i + 2 < |bs| then Write(r1, bs[i + 2].at, Read(r1, bs[i + 2].at).(prev := base + bs[i].at)) else r1
  }

  lemma MergeFits(bs: seq<Block>, limit: nat, i: nat)
    requires Layout(bs, limit) && i + 1 < |bs|
    ensures End(Merged(bs[i], bs[i + 1])) <= End(bs[i + 1]) <= limit
  {
    assert End(bs[i]) <= bs[i + 1].at;
    Inside(bs, limit, i + 1);
  }

  lemma MergeRead(base: nat, ram: Ram, bs: seq<Block>, i: nat, j: nat)
    requires HeapOk(base, ram, bs) && i + 1 < |bs| && j < |bs| && j != i + 1
    ensures End(bs[j]) <= |ram.bytes| && End(bs[i + 1]) <= |ram.bytes| && End(Merged(bs[i], bs[i + 1])) <= |ram.bytes|
    ensures base + bs[i].at < 0x1_0000_0000_0000_0000 && base + End(Merged(bs[i], bs[i + 1])) <= 0x1_0000_0000_0000_0000
    ensures Read(MergeRam(base, ram, bs, i), bs[j].at) ==
      if j == i then Read(ram, bs[i].at).(size := bs[i].size + HEADER + bs[i + 1].size, next := Read(ram, bs[i + 1].at).next)
      else if j == i + 2 then Read(ram, bs[j].at).(prev := base + bs[i].at)
      else Read(ram, bs[j].at)
  {
    hide Read; hide Write; hide Represents;
    HeadersInside(base, ram, bs);
    MergeFits(bs, |ram.bytes|, i);
    var h := Read(ram, bs[i].at).(size := bs[i].size + HEADER + bs[i + 1].size, next := Read(ram, bs[i + 1].at).next);
    if j != i { BlocksClear(bs, |ram.bytes|, i, j); }
    if i + 2 < |bs| {
      BlocksClear(bs, |ram.bytes|, i, i + 2);
      if j != i + 2 { BlocksClear(bs, |ram.bytes|, i + 2, j); }
      WriteOther(ram, bs[i].at, h, bs[i + 2].at);
      ReadTwo(ram, bs[i].at, h, bs[i + 2].at, Read(ram, bs[i + 2].at).(prev := base + bs[i].at), bs[j].at);
    } else if j == i {
      WriteSame(ram, bs[i].at, h);
    } else {
      WriteOther(ram, bs[i].at, h, bs[j].at);
    }
  }

  lemma MergePointer(base: nat, bs: seq<Block>, i: nat, j: int)
    requires i + 1 < |bs|
    ensures Pointer(base, MergeAt(bs, i), j) == if j <= i then Pointer(base, bs, j) else Pointer(base, bs, j + 1)
  {
  }

  lemma MergeRepresents(base: nat, ram: Ram, bs: seq<Block>, i: nat, j: nat)
    requires HeapOk(base, ram, bs) && i + 1 < |bs| && j < |bs| - 1
    ensures Represents(base, MergeRam(base, ram, bs, i), MergeAt(bs, i), j)
  {
    hide Read; hide Write; hide MergeRam; hide MergeAt; hide HeapOk;
    var k := if j <= i then j else j + 1;
    MergeIndex(bs, i, j);
    MergeRead(base, ram, bs, i, k);
    MergePointer(base, bs, i, j - 1);
    MergePointer(base, bs, i, j + 1);
    HeadersOf(base, ram, bs, k);
    HeadersOf(base, ram, bs, i + 1);
  }

  lemma MergeOk(base: nat, ram: Ram, bs: seq<Block>, i: nat)
    requires HeapOk(base, ram, bs) && i + 1 < |bs|
    ensures HeapOk(base, MergeRam(base, ram, bs, i), MergeAt(bs, i))
  {
    hide Read; hide MergeRam; hide MergeAt; hide Represents;
    MergeLayout(bs, |ram.bytes|, i);
    MergeIndex(bs, i, 0);
    forall j | 0 <= j < |bs| - 1 ensures Represents(base, MergeRam(base, ram, bs, i), MergeAt(bs, i), j) {
      MergeRepresents(base, ram, bs, i, j);
    }
  }

  lemma MergeBytes(base: nat, ram: Ram, bs: seq<Block>, i: nat, lo: nat, hi: nat)
    requires HeapOk(base, ram, bs) && i + 1 < |bs| && lo <= hi <= |ram.bytes|
    requires hi <= bs[i].at || bs[i].at + HEADER <= lo
    requires i + 2 < |bs| ==> hi <= bs[i + 2].at || bs[i + 2].at + HEADER <= lo
    ensures MergeRam(base, ram, bs, i).bytes[lo..hi] == ram.bytes[lo..hi]
  {
    hide Read; hide Write; hide Represents;
    HeadersInside(base, ram, bs);
    MergeFits(bs, |ram.bytes|, i);
    var h := Read(ram, bs[i].at).(size := bs[i].size + HEADER + bs[i + 1].size, next := Read(ram, bs[i + 1].at).next);
    var r1 := Write(ram, bs[i].at, h);
    WriteBytes(ram, bs[i].at, h, lo, hi);
    if i + 2 < |bs| {
      WriteBytes(r1, bs[i + 2].at, Read(r1, bs[i + 2].at).(prev := base + bs[i].at), lo, hi);
    }
  }

  // ----- appending a block behind a grown heap -----

  // Newly mapped bytes, whatever their frames hold, behind the old end.
  function Extended(ram: Ram, mapped: seq<Byte>): (r: Ram)
    ensures |r.bytes| == |ram.bytes| + |mapped|
  {
    Ram(ram.bytes + mapped)
  }

  ghost predicate Grows(base: nat, ram: Ram, mapped: seq<Byte>) {
    |mapped| >= HEADER && base + |ram.bytes| + |mapped| < 0x1_0000_0000_0000_0000
  }

  function AppendAt(bs: seq<Block>, limit: nat, size: nat): seq<Block> {
    bs + [Block(limit, size, true)]
  }

  // The stores of growth: the new header, then the forward pointer of the last block.
  ghost function AppendRam(base: nat, ram: Ram, bs: seq<Block>, mapped: seq<Byte>): (r: Ram)
    requires HeapOk(base, ram, bs) && Grows(base, ram, mapped)
    ensures |r.bytes| == |ram.bytes| + |mapped|
  {
    HeadersInside(base, ram, bs);
    var last, n := bs[|bs| - 1], |ram.bytes|;
    var r1 := Write(Extended(ram, mapped), n, Header(|mapped| - HEADER, H_FREE, base + last.at, 0));
    Write(r1, last.at, Read(r1, last.at).(next := base + n))
  }

  lemma ExtendedBytes(ram: Ram, mapped: seq<Byte>, lo: nat, hi: nat)
    requires lo <= hi <= |ram.bytes|
    ensures Extended(ram, mapped).bytes[lo..hi] == ram.bytes[lo..hi]
  {
  }

  lemma AppendRead(base: nat, ram: Ram, bs: seq<Block>, mapped: seq<Byte>, j: nat)
    requires HeapOk(base, ram, bs) && Grows(base, ram, mapped) && j < |bs|
    ensures End(bs[j]) <= |ram.bytes| && base + bs[j].at < 0x1_0000_0000_0000_0000
    ensures var r, n := AppendRam(base, ram, bs, mapped), |ram.bytes|;
      && Read(r, n) == Header(|mapped| - HEADER, H_FREE, base + bs[|bs| - 1].at, 0)
      && Read(r, bs[j].at) == if j == |bs| - 1 then Read(ram, bs[j].at).(next := base + n) else Read(ram, bs[j].at)
  {
    hide Read; hide Write; hide Represents; hide Extended;
    HeadersInside(base, ram, bs);
    var last, n, k := bs[|bs| - 1], |ram.bytes|, |bs| - 1;
    var ext, h1 := Extended(ram, mapped), Header(|mapped| - HEADER, H_FREE, base + last.at, 0);
    if j != k { BlocksClear(bs, n, j, k); }
    ExtendedBytes(ram, mapped, last.at, last.at + HEADER);
    SameHeader(ram, ext, last.at);
    ExtendedBytes(ram, mapped, bs[j].at, bs[j].at + HEADER);
    SameHeader(ram, ext, bs[j].at);
    WriteOther(ext, n, h1, last.at);
    var h2 := Read(ram, last.at).(next := base + n);
    ReadTwo(ext, n, h1, last.at, h2, n);
    ReadTwo(ext, n, h1, last.at, h2, bs[j].at);
  }

  lemma AppendRepresents(base: nat, ram: Ram, bs: seq<Block>, mapped: seq<Byte>, j: nat)
    requires HeapOk(base, ram, bs) && Grows(base, ram, mapped) && j <= |bs|
    ensures Represents(base, AppendRam(base, ram, bs, mapped), AppendAt(bs, |ram.bytes|, |mapped| - HEADER), j)
  {
    hide Read; hide Write; hide AppendRam;
    var k := if j < |bs| then j else |bs| - 1;
    AppendRead(base, ram, bs, mapped, k);
    HeadersOf(base, ram, bs, k);
  }

  lemma AppendOk(base: nat, ram: Ram, bs: seq<Block>, mapped: seq<Byte>)
    requires HeapOk(base, ram, bs) && Grows(base, ram, mapped)
    ensures HeapOk(base, AppendRam(base, ram, bs, mapped), AppendAt(bs, |ram.bytes|, |mapped| - HEADER))
  {
    hide Read; hide AppendRam; hide Represents;
    var l := AppendAt(bs, |ram.bytes|, |mapped| - HEADER);
    forall i | 0 <= i < |l| - 1 ensures End(l[i]) <= l[i + 1].at {
      if i < |bs| - 1 { assert End(bs[i]) <= bs[i + 1].at; }
    }
    forall j | 0 <= j < |l| ensures Represents(base, AppendRam(base, ram, bs, mapped), l, j) {
      AppendRepresents(base, ram, bs, mapped, j);
    }
  }

  lemma AppendBytes(base: nat, ram: Ram, bs: seq<Block>, mapped: seq<Byte>, lo: nat, hi: nat)
    requires HeapOk(base, ram, bs) && Grows(base, ram, mapped)
    requires lo <= hi <= |ram.bytes| && (hi <= bs[|bs| - 1].at || bs[|bs| - 1].at + HEADER <= lo)
    ensures AppendRam(base, ram, bs, mapped).bytes[lo..hi] == ram.bytes[lo..hi]
  {
    hide Read; hide Write; hide Represents; hide Extended;
    HeadersInside(base, ram, bs);
    var last, n := bs[|bs| - 1], |ram.bytes|;
    var r1 := Write(Extended(ram, mapped), n, Header(|mapped| - HEADER, H_FREE, base + last.at, 0));
    ExtendedBytes(ram, mapped, lo, hi);
    WriteBytes(Extended(ram, mapped), n, Header(|mapped| - HEADER, H_FREE, base + last.at, 0), lo, hi);
    WriteBytes(r1, last.at, Read(r1, last.at).(next := base + n), lo, hi);
  }
}
