/** The three things a heap does to its blocks, as functions of memory and list: take a free block,
    overwrite a payload, release a block. */
module HeapSteps {
  import opened Bytes
  import opened BlockList
  import opened Allocations

  // ----- taking a free block for `size` bytes -----

  // The rest is split off unless it has no room for more than a header.
  function TakeAt(bs: seq<Block>, i: nat, size: nat): seq<Block>
    requires i < |bs| && size <= bs[i].size
  {
    if bs[i].size - size > HEADER then SplitAt(bs, i, size) else MarkAt(bs, i, size, false)
  }

  ghost function TakeRam(base: nat, ram: Ram, bs: seq<Block>, i: nat, size: nat): (r: Ram)
    requires HeapOk(base, ram, bs) && i < |bs| && size <= bs[i].size
    ensures |r.bytes| == |ram.bytes|
  {
    if bs[i].size - size > HEADER then SplitRam(base, ram, bs, i, size) else MarkRam(base, ram, bs, i, size, false)
  }

  // Headers and pointers stay right, no allocation is lost or changed, exactly one is added, and
  // at most a header's worth of bytes drops out of the list.
  lemma TakeOk(base: nat, ram: Ram, bs: seq<Block>, i: nat, size: nat)
    requires HeapOk(base, ram, bs) && i < |bs| && size <= bs[i].size && bs[i].free
    ensures var b, l, r := Block(bs[i].at, size, false), TakeAt(bs, i, size), TakeRam(base, ram, bs, i, size);
      && HeapOk(base, r, l) && Kept(ram, bs, r, l, {}) && NoneBut(bs, l, {b})
      && b in l && b !in bs && End(b) <= |ram.bytes| && Weight(bs) - HEADER <= Weight(l) <= Weight(bs)
  {
    hide HeapOk; hide SplitAt; hide SplitRam; hide MarkAt; hide MarkRam; hide Payload; hide Weight; hide NoneBut;
    var l, r := TakeAt(bs, i, size), TakeRam(base, ram, bs, i, size);
    NewBlock(base, ram, bs, i, size);
    if bs[i].size - size > HEADER {
      SplitOk(base, ram, bs, i, size);
      SplitKeeps(base, ram, bs, i, size);
      SplitWeight(bs, i, size);
      SplitPrefix(base, ram, bs, i, size);
    } else {
      MarkOk(base, ram, bs, i, size, false);
      MarkKeeps(base, ram, bs, i, size, false);
      MarkWeight(bs, i, size, false);
    }
  }

  lemma NewBlock(base: nat, ram: Ram, bs: seq<Block>, i: nat, size: nat)
    requires HeapOk(base, ram, bs) && i < |bs| && bs[i].free
    ensures Block(bs[i].at, size, false) !in bs
  {
    hide Represents;
    forall j | 0 <= j < |bs| ensures bs[j] != Block(bs[i].at, size, false) {
      if j != i { BlocksClear(bs, |ram.bytes|, i, j); }
    }
  }

  lemma TakeApart(bs: seq<Block>, i: nat, size: nat)
    requires i < |bs| && size <= bs[i].size && bs[i].free && NoAdjacentFree(bs)
    ensures NoAdjacentFree(TakeAt(bs, i, size))
  {
    hide SplitAt;
    var l := TakeAt(bs, i, size);
    forall j | 0 <= j < |l| - 1 ensures !(l[j].free && l[j + 1].free) {
      if bs[i].size - size > HEADER {
        SplitIndex(bs, i, size, j);
        SplitIndex(bs, i, size, j + 1);
        if j > i { assert !(bs[j - 1].free && bs[j].free); }
      }
    }
  }

  // ----- overwriting a payload -----

  // Bytes stored from the start of the payload of `b`.
  function Filled(ram: Ram, b: Block, data: seq<Byte>): (r: Ram)
    requires |data| <= b.size && End(b) <= |ram.bytes|
    ensures |r.bytes| == |ram.bytes|
  {
    Ram(ram.bytes[..b.at + HEADER] + data + ram.bytes[b.at + HEADER + |data|..])
  }

  lemma FilledElsewhere(ram: Ram, b: Block, data: seq<Byte>, lo: nat, hi: nat)
    requires |data| <= b.size && End(b) <= |ram.bytes| && lo <= hi <= |ram.bytes|
    requires hi <= b.at + HEADER || End(b) <= lo
    ensures Filled(ram, b, data).bytes[lo..hi] == ram.bytes[lo..hi]
  {
  }

  // The holder of a block may store anything in it: the list and every other allocation stay.
  lemma FillOk(base: nat, ram: Ram, bs: seq<Block>, b: Block, data: seq<Byte>)
    requires HeapOk(base, ram, bs) && b in bs && |data| <= b.size
    ensures End(b) <= |ram.bytes|
    ensures HeapOk(base, Filled(ram, b, data), bs) && Kept(ram, bs, Filled(ram, b, data), bs, {b})
    ensures Payload(Filled(ram, b, data), b) == data + Payload(ram, b)[|data|..]
  {
    hide Read; hide Represents; hide Filled;
    HeadersInside(base, ram, bs);
    var i :| 0 <= i < |bs| && bs[i] == b;
    var r := Filled(ram, b, data);
    forall j | 0 <= j < |bs| ensures Represents(base, r, bs, j) {
      FillRepresents(base, ram, bs, i, data, j);
    }
    forall c | c in bs && !c.free && c != b ensures End(c) <= |ram.bytes| && Payload(r, c) == Payload(ram, c) {
      var j :| 0 <= j < |bs| && bs[j] == c;
      BlocksClear(bs, |ram.bytes|, i, j);
      FilledElsewhere(ram, b, data, c.at + HEADER, End(c));
    }
    FilledHere(ram, b, data);
  }

  lemma FilledHere(ram: Ram, b: Block, data: seq<Byte>)
    requires |data| <= b.size && End(b) <= |ram.bytes|
    ensures Payload(Filled(ram, b, data), b) == data + Payload(ram, b)[|data|..]
  {
  }

  lemma FillRepresents(base: nat, ram: Ram, bs: seq<Block>, i: nat, data: seq<Byte>, j: nat)
    requires HeapOk(base, ram, bs) && i < |bs| && |data| <= bs[i].size && j < |bs|
    ensures End(bs[i]) <= |ram.bytes| && Represents(base, Filled(ram, bs[i], data), bs, j)
  {
    hide Read; hide Filled; hide Layout;
    HeadersInside(base, ram, bs);
    HeadersOf(base, ram, bs, j);
    if i != j { BlocksClear(bs, |ram.bytes|, i, j); }
    FilledElsewhere(ram, bs[i], data, bs[j].at, bs[j].at + HEADER);
    SameHeader(ram, Filled(ram, bs[i], data), bs[j].at);
  }

  // ----- releasing a block -----

  // Joined with the block behind it if that is free.
  function JoinAt(bs: seq<Block>, i: nat): seq<Block>
    requires i < |bs|
  {
    if i + 1 < |bs| && bs[i + 1].free then MergeAt(bs, i) else bs
  }

  ghost function JoinRam(base: nat, ram: Ram, bs: seq<Block>, i: nat): (r: Ram)
    requires HeapOk(base, ram, bs) && i < |bs|
    ensures |r.bytes| == |ram.bytes|
  {
    if i + 1 < |bs| && bs[i + 1].free then MergeRam(base, ram, bs, i) else ram
  }

  // `gone` is what the joined block was.
  lemma JoinOk(base: nat, ram: Ram, bs: seq<Block>, i: nat)
    requires HeapOk(base, ram, bs) && i < |bs| && bs[i].free
    ensures HeapOk(base, JoinRam(base, ram, bs, i), JoinAt(bs, i))
    ensures Kept(ram, bs, JoinRam(base, ram, bs, i), JoinAt(bs, i), {}) && NoneBut(bs, JoinAt(bs, i), {})
    ensures Weight(JoinAt(bs, i)) == Weight(bs) && i < |JoinAt(bs, i)| && JoinAt(bs, i)[i].free
    ensures i > 0 ==> JoinAt(bs, i)[i - 1] == bs[i - 1]
  {
    hide HeapOk; hide MergeAt; hide MergeRam; hide Payload; hide Weight;
    if i + 1 < |bs| && bs[i + 1].free {
      MergeOk(base, ram, bs, i);
      MergeKeeps(base, ram, bs, i);
      MergeWeight(bs, i);
      MergeIndex(bs, i, i);
      if i > 0 { MergeIndex(bs, i, i - 1); }
    } else {
      SelfKept(base, ram, bs);
    }
  }

  lemma SelfKept(base: nat, ram: Ram, bs: seq<Block>)
    requires HeapOk(base, ram, bs)
    ensures Kept(ram, bs, ram, bs, {}) && NoneBut(bs, bs, {})
  {
    hide Represents;
    HeadersInside(base, ram, bs);
  }

  // Freed, then joined forward, then with the block before it.
  function ReleaseAt(bs: seq<Block>, i: nat): seq<Block>
    requires i < |bs|
  {
    var m := JoinAt(MarkAt(bs, i, bs[i].size, true), i);
    if i > 0 && bs[i - 1].free then MergeAt(m, i - 1) else m
  }

  lemma MarkIndex(bs: seq<Block>, i: nat, size: nat, free: bool, j: nat)
    requires i < |bs| && size <= bs[i].size && j < |bs|
    ensures MarkAt(bs, i, size, free)[j] == if j == i then Block(bs[i].at, size, free) else bs[j]
  {
  }

  ghost function FreedRam(base: nat, ram: Ram, bs: seq<Block>, i: nat): (r: Ram)
    requires HeapOk(base, ram, bs) && i < |bs|
    ensures |r.bytes| == |ram.bytes|
  {
    MarkOk(base, ram, bs, i, bs[i].size, true);
    JoinRam(base, MarkRam(base, ram, bs, i, bs[i].size, true), MarkAt(bs, i, bs[i].size, true), i)
  }

  lemma FreedOk(base: nat, ram: Ram, bs: seq<Block>, i: nat)
    requires HeapOk(base, ram, bs) && i < |bs|
    ensures var m, r := JoinAt(MarkAt(bs, i, bs[i].size, true), i), FreedRam(base, ram, bs, i);
      && HeapOk(base, r, m) && Kept(ram, bs, r, m, {bs[i]}) && NoneBut(bs, m, {})
      && Weight(m) == Weight(bs) && i < |m| && m[i].free && (i > 0 ==> m[i - 1] == bs[i - 1])
  {
    hide HeapOk; hide JoinAt; hide JoinRam; hide MarkAt; hide MarkRam; hide Payload; hide Weight;
    var l, r := MarkAt(bs, i, bs[i].size, true), MarkRam(base, ram, bs, i, bs[i].size, true);
    MarkOk(base, ram, bs, i, bs[i].size, true);
    MarkKeeps(base, ram, bs, i, bs[i].size, true);
    MarkWeight(bs, i, bs[i].size, true);
    MarkIndex(bs, i, bs[i].size, true, i);
    if i > 0 { MarkIndex(bs, i, bs[i].size, true, i - 1); }
    JoinOk(base, r, l, i);
  }

  ghost function ReleaseRam(base: nat, ram: Ram, bs: seq<Block>, i: nat): (r: Ram)
    requires HeapOk(base, ram, bs) && i < |bs|
    ensures |r.bytes| == |ram.bytes|
  {
    FreedOk(base, ram, bs, i);
    var m, r := JoinAt(MarkAt(bs, i, bs[i].size, true), i), FreedRam(base, ram, bs, i);
    if i > 0 && bs[i - 1].free then MergeRam(base, r, m, i - 1) else r
  }

  // Exactly the allocation `bs[i]` goes; no bytes drop out of the list.
  lemma ReleaseOk(base: nat, ram: Ram, bs: seq<Block>, i: nat)
    requires HeapOk(base, ram, bs) && i < |bs| && !bs[i].free
    ensures var l, r := ReleaseAt(bs, i), ReleaseRam(base, ram, bs, i);
      && HeapOk(base, r, l) && Kept(ram, bs, r, l, {bs[i]}) && NoneBut(bs, l, {})
      && bs[i] !in l && Weight(l) == Weight(bs)
  {
    hide HeapOk; hide JoinAt; hide FreedRam; hide MarkAt; hide MarkRam; hide MergeAt; hide MergeRam; hide Payload; hide Weight;
    var m, r := JoinAt(MarkAt(bs, i, bs[i].size, true), i), FreedRam(base, ram, bs, i);
    FreedOk(base, ram, bs, i);
    MarkGone(base, ram, bs, i);
    if i > 0 && bs[i - 1].free {
      MergeOk(base, r, m, i - 1);
      MergeKeeps(base, r, m, i - 1);
      MergeWeight(m, i - 1);
    }
  }

  lemma MarkGone(base: nat, ram: Ram, bs: seq<Block>, i: nat)
    requires HeapOk(base, ram, bs) && i < |bs| && !bs[i].free
    ensures bs[i] !in JoinAt(MarkAt(bs, i, bs[i].size, true), i)
  {
    hide Represents; hide MergeAt; hide MarkAt;
    var l := MarkAt(bs, i, bs[i].size, true);
    forall j | 0 <= j < |bs| ensures l[j] != bs[i] {
      MarkIndex(bs, i, bs[i].size, true, j);
      if j != i { BlocksClear(bs, |ram.bytes|, i, j); }
    }
    MarkIndex(bs, i, bs[i].size, true, i);
    if i + 1 < |l| && l[i + 1].free {
      forall j | 0 <= j < |l| - 1 ensures MergeAt(l, i)[j] != bs[i] {
        MergeIndex(l, i, j);
      }
    }
  }

  // What is at place `j` once block `i` is free and joined with `k` blocks behind it.
  lemma FreedIndex(bs: seq<Block>, i: nat, k: nat, j: nat)
    requires i < |bs| && k == (if i + 1 < |bs| && bs[i + 1].free then 1 else 0) && j < |bs| - k
    ensures |JoinAt(MarkAt(bs, i, bs[i].size, true), i)| == |bs| - k
    ensures var b := JoinAt(MarkAt(bs, i, bs[i].size, true), i)[j];
      if j < i then b == bs[j] else if j == i then b.free else b == bs[j + k]
  {
    hide MergeAt; hide MarkAt;
    var a := MarkAt(bs, i, bs[i].size, true);
    MarkIndex(bs, i, bs[i].size, true, i);
    if i + 1 < |bs| { MarkIndex(bs, i, bs[i].size, true, i + 1); }
    if k == 1 { MergeIndex(a, i, j); }
    MarkIndex(bs, i, bs[i].size, true, j);
    if j > i { MarkIndex(bs, i, bs[i].size, true, j + k); }
  }

  lemma ReleaseApart(bs: seq<Block>, i: nat)
    requires i < |bs| && !bs[i].free && NoAdjacentFree(bs)
    ensures NoAdjacentFree(ReleaseAt(bs, i))
  {
    hide MergeAt; hide MarkAt; hide JoinAt;
    var k := if i + 1 < |bs| && bs[i + 1].free then 1 else 0;
    var m := JoinAt(MarkAt(bs, i, bs[i].size, true), i);
    FreedIndex(bs, i, k, 0);
    forall j | 0 <= j < |m|
      ensures j < i ==> m[j] == bs[j]
      ensures j > i ==> m[j] == bs[j + k]
    {
      FreedIndex(bs, i, k, j);
    }
    FreedIndex(bs, i, k, i);
    JoinedApart(bs, i, m, k);
    if i > 0 && bs[i - 1].free {
      var l := MergeAt(m, i - 1);
      forall j | 0 <= j < |l| - 1 ensures !(l[j].free && l[j + 1].free) {
        MergeIndex(m, i - 1, j);
        MergeIndex(m, i - 1, j + 1);
      }
    }
  }

  // After the forward join only the block before it can be a free neighbour.
  lemma JoinedApart(bs: seq<Block>, i: nat, m: seq<Block>, k: nat)
    requires i < |bs| && !bs[i].free && NoAdjacentFree(bs)
    requires k == (if i + 1 < |bs| && bs[i + 1].free then 1 else 0) && |m| == |bs| - k && m[i].free
    requires forall j :: 0 <= j < i ==> m[j] == bs[j]
    requires forall j :: i < j < |m| ==> m[j] == bs[j + k]
    ensures forall j :: 0 <= j < |m| - 1 && j + 1 != i ==> !(m[j].free && m[j + 1].free)
  {
    forall j | 0 <= j < |m| - 1 && j + 1 != i ensures !(m[j].free && m[j + 1].free) {
      if j < i {
        assert !(bs[j].free && bs[j + 1].free);
      } else {
        assert !(bs[j + k].free && bs[j + k + 1].free);
      }
    }
  }

  // ----- consequences of the layout for a heap with no free neighbours -----

  // When nothing is allocated any more, one block is left and it spans all the accounted bytes.
  lemma AllFree(bs: seq<Block>, limit: nat)
    requires Layout(bs, limit) && NoAdjacentFree(bs) && forall b :: b in bs ==> b.free
    ensures |bs| == 1 && bs[0].at == 0 && bs[0].size == Weight(bs) - HEADER
  {
    assert |bs| > 1 ==> bs[0] in bs && bs[1] in bs && bs[0 + 1].free;
    assert bs == [bs[0]];
    WeightOne(bs[0]);
  }
}
