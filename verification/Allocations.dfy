/** What the list operations mean for the holders of memory: which allocations exist and that no
    operation writes to another allocation's bytes. */
module Allocations {
  import opened Bytes
  import opened BlockList

  // Every allocation except those in `gone` is still there, with the same bytes.
  ghost predicate Kept(ram: Ram, bs: seq<Block>, ram': Ram, bs': seq<Block>, gone: set<Block>) {
    forall b :: b in bs && !b.free && b !in gone ==>
      b in bs' && End(b) <= |ram.bytes| && End(b) <= |ram'.bytes| && Payload(ram', b) == Payload(ram, b)
  }

  // Every allocation was there before or is in `added`.
  ghost predicate NoneBut(bs: seq<Block>, bs': seq<Block>, added: set<Block>) {
    forall b :: b in bs' && !b.free ==> b in bs || b in added
  }

  // No two neighbours are both free.
  ghost predicate NoAdjacentFree(bs: seq<Block>) {
    forall i :: 0 <= i < |bs| - 1 ==> !(bs[i].free && bs[i + 1].free)
  }

  // Bytes accounted for by the headers.
  function Weight(bs: seq<Block>): nat {
    if bs == [] then 0 else Weight(bs[..|bs| - 1]) + HEADER + bs[|bs| - 1].size
  }

  lemma {:induction false} WeightAppend(a: seq<Block>, b: seq<Block>)
    ensures Weight(a + b) == Weight(a) + Weight(b)
  {
    if b == [] {
      assert a + b == a;
    } else {
      WeightAppend(a, b[..|b| - 1]);
      assert (a + b)[..|a + b| - 1] == a + b[..|b| - 1];
    }
  }

  lemma WeightOne(b: Block)
    ensures Weight([b]) == HEADER + b.size
  {
    assert [b][..0] == [];
  }

  lemma WeightAround(bs: seq<Block>, i: nat, k: nat)
    requires i + k <= |bs|
    ensures Weight(bs) == Weight(bs[..i]) + Weight(bs[i..i + k]) + Weight(bs[i + k..])
  {
    assert bs == bs[..i] + bs[i..];
    assert bs[i..] == bs[i..i + k] + bs[i + k..];
    WeightAppend(bs[..i], bs[i..]);
    WeightAppend(bs[i..i + k], bs[i + k..]);
  }

  lemma SplitWeight(bs: seq<Block>, i: nat, size: nat)
    requires i < |bs| && bs[i].size > size + HEADER
    ensures Weight(SplitAt(bs, i, size)) == Weight(bs)
  {
    hide Weight;
    WeightAround(bs, i, 1);
    assert bs[i..i + 1] == [bs[i]];
    WeightOne(bs[i]);
    var l, a, b := SplitAt(bs, i, size), Block(bs[i].at, size, false), Rest(bs[i], size);
    WeightAround(l, i, 2);
    assert l[i..i + 2] == [a] + [b] && l[..i] == bs[..i] && l[i + 2..] == bs[i + 1..];
    WeightAppend([a], [b]);
    WeightOne(a); WeightOne(b);
  }

  lemma MarkWeight(bs: seq<Block>, i: nat, size: nat, free: bool)
    requires i < |bs| && size <= bs[i].size
    ensures Weight(MarkAt(bs, i, size, free)) == Weight(bs) - (bs[i].size - size)
  {
    hide Weight;
    var l, a := MarkAt(bs, i, size, free), Block(bs[i].at, size, free);
    WeightAround(bs, i, 1);
    WeightAround(l, i, 1);
    assert bs[i..i + 1] == [bs[i]] && l[i..i + 1] == [a] && l[..i] == bs[..i] && l[i + 1..] == bs[i + 1..];
    WeightOne(bs[i]); WeightOne(a);
  }

  lemma MergeParts(bs: seq<Block>, i: nat)
    requires i + 1 < |bs|
    ensures var l := MergeAt(bs, i); l[..i] == bs[..i] && l[i..i + 1] == [Merged(bs[i], bs[i + 1])] && l[i + 1..] == bs[i + 2..]
    ensures bs[i..i + 2] == [bs[i]] + [bs[i + 1]]
  {
  }

  lemma MergeWeight(bs: seq<Block>, i: nat)
    requires i + 1 < |bs|
    ensures Weight(MergeAt(bs, i)) == Weight(bs)
  {
    hide Weight; hide MergeAt;
    var l, a := MergeAt(bs, i), Merged(bs[i], bs[i + 1]);
    WeightAround(bs, i, 2);
    WeightAround(l, i, 1);
    MergeParts(bs, i);
    WeightAppend([bs[i]], [bs[i + 1]]);
    WeightOne(bs[i]); WeightOne(bs[i + 1]); WeightOne(a);
  }

  // ----- allocations through each list operation -----

  lemma SplitKeepsOne(base: nat, ram: Ram, bs: seq<Block>, i: nat, size: nat, j: nat)
    requires HeapOk(base, ram, bs) && i < |bs| && bs[i].size > size + HEADER && j < |bs| && j != i
    ensures End(bs[j]) <= |ram.bytes| && bs[j] in SplitAt(bs, i, size)
    ensures Payload(SplitRam(base, ram, bs, i, size), bs[j]) == Payload(ram, bs[j])
  {
    hide Read; hide SplitRam; hide Represents; hide SplitAt;
    HeadersInside(base, ram, bs);
    SplitIndex(bs, i, size, if j < i then j else j + 1);
    BlocksClear(bs, |ram.bytes|, i, j);
    if i + 1 < |bs| && j != i + 1 { BlocksClear(bs, |ram.bytes|, i + 1, j); }
    SplitBytes(base, ram, bs, i, size, bs[j].at + HEADER, End(bs[j]));
  }

  lemma SplitPrefix(base: nat, ram: Ram, bs: seq<Block>, i: nat, size: nat)
    requires HeapOk(base, ram, bs) && i < |bs| && bs[i].size > size + HEADER
    ensures var b := Block(bs[i].at, size, false);
      && End(b) <= |ram.bytes| && End(bs[i]) <= |ram.bytes|
      && Payload(SplitRam(base, ram, bs, i, size), b) == Payload(ram, bs[i])[..size]
  {
    hide Read; hide SplitRam; hide Represents; hide SplitAt;
    HeadersInside(base, ram, bs);
    if i + 1 < |bs| { Ascending(bs, |ram.bytes|, i, i + 1); }
    var lo := bs[i].at + HEADER;
    SplitBytes(base, ram, bs, i, size, lo, lo + size);
    assert Payload(ram, bs[i])[..size] == ram.bytes[lo..lo + size];
  }

  lemma SplitKeeps(base: nat, ram: Ram, bs: seq<Block>, i: nat, size: nat)
    requires HeapOk(base, ram, bs) && i < |bs| && bs[i].size > size + HEADER
    ensures Kept(ram, bs, SplitRam(base, ram, bs, i, size), SplitAt(bs, i, size), {bs[i]})
    ensures NoneBut(bs, SplitAt(bs, i, size), {Block(bs[i].at, size, false)})
    ensures Block(bs[i].at, size, false) in SplitAt(bs, i, size)
  {
    hide HeapOk; hide SplitRam; hide SplitAt; hide Payload;
    SplitIndex(bs, i, size, i);
    var l, r := SplitAt(bs, i, size), SplitRam(base, ram, bs, i, size);
    forall b | b in bs && !b.free && b !in {bs[i]}
      ensures b in l && End(b) <= |ram.bytes| && End(b) <= |r.bytes| && Payload(r, b) == Payload(ram, b)
    {
      var j :| 0 <= j < |bs| && bs[j] == b;
      SplitKeepsOne(base, ram, bs, i, size, j);
    }
    forall b | b in l && !b.free ensures b in bs || b in {Block(bs[i].at, size, false)} {
      var j :| 0 <= j < |l| && l[j] == b;
      SplitIndex(bs, i, size, j);
    }
  }

  lemma MarkKeeps(base: nat, ram: Ram, bs: seq<Block>, i: nat, size: nat, free: bool)
    requires HeapOk(base, ram, bs) && i < |bs| && size <= bs[i].size
    ensures Kept(ram, bs, MarkRam(base, ram, bs, i, size, free), MarkAt(bs, i, size, free), {bs[i]})
    ensures NoneBut(bs, MarkAt(bs, i, size, free), {Block(bs[i].at, size, free)})
    ensures Block(bs[i].at, size, free) in MarkAt(bs, i, size, free) && End(Block(bs[i].at, size, free)) <= |ram.bytes|
  {
    hide Read; hide MarkRam; hide Represents;
    HeadersInside(base, ram, bs);
    var l, r := MarkAt(bs, i, size, free), MarkRam(base, ram, bs, i, size, free);
    assert l[i] == Block(bs[i].at, size, free);
    forall b | b in bs && !b.free && b !in {bs[i]}
      ensures b in l && End(b) <= |ram.bytes| && End(b) <= |r.bytes| && Payload(r, b) == Payload(ram, b)
    {
      var j :| 0 <= j < |bs| && bs[j] == b;
      assert l[j] == b;
      BlocksClear(bs, |ram.bytes|, i, j);
      MarkBytes(base, ram, bs, i, size, free, b.at + HEADER, End(b));
    }
  }

  lemma MergeKeepsOne(base: nat, ram: Ram, bs: seq<Block>, i: nat, j: nat)
    requires HeapOk(base, ram, bs) && i + 1 < |bs| && j < |bs| && j != i && j != i + 1
    ensures End(bs[j]) <= |ram.bytes| && bs[j] in MergeAt(bs, i)
    ensures Payload(MergeRam(base, ram, bs, i), bs[j]) == Payload(ram, bs[j])
  {
    hide Read; hide MergeRam; hide Represents; hide MergeAt;
    HeadersInside(base, ram, bs);
    MergeIndex(bs, i, if j < i then j else j - 1);
    BlocksClear(bs, |ram.bytes|, i, j);
    if i + 2 < |bs| && j != i + 2 { BlocksClear(bs, |ram.bytes|, i + 2, j); }
    MergeBytes(base, ram, bs, i, bs[j].at + HEADER, End(bs[j]));
  }

  lemma MergeKeeps(base: nat, ram: Ram, bs: seq<Block>, i: nat)
    requires HeapOk(base, ram, bs) && i + 1 < |bs| && bs[i + 1].free
    ensures Kept(ram, bs, MergeRam(base, ram, bs, i), MergeAt(bs, i), {bs[i]})
    ensures NoneBut(bs, MergeAt(bs, i), {Merged(bs[i], bs[i + 1])})
  {
    hide HeapOk; hide MergeRam; hide MergeAt; hide Payload;
    var l, r := MergeAt(bs, i), MergeRam(base, ram, bs, i);
    forall b | b in bs && !b.free && b !in {bs[i]}
      ensures b in l && End(b) <= |ram.bytes| && End(b) <= |r.bytes| && Payload(r, b) == Payload(ram, b)
    {
      var j :| 0 <= j < |bs| && bs[j] == b;
      MergeKeepsOne(base, ram, bs, i, j);
    }
    MergeIndex(bs, i, 0);
    forall b | b in l && !b.free ensures b in bs || b in {Merged(bs[i], bs[i + 1])} {
      var j :| 0 <= j < |l| && l[j] == b;
      MergeIndex(bs, i, j);
    }
  }

  lemma AppendKeepsOne(base: nat, ram: Ram, bs: seq<Block>, mapped: seq<Byte>, j: nat)
    requires HeapOk(base, ram, bs) && Grows(base, ram, mapped) && j < |bs|
    ensures End(bs[j]) <= |ram.bytes| && Payload(AppendRam(base, ram, bs, mapped), bs[j]) == Payload(ram, bs[j])
  {
    hide Read; hide AppendRam; hide Represents;
    HeadersInside(base, ram, bs);
    if j != |bs| - 1 { BlocksClear(bs, |ram.bytes|, j, |bs| - 1); }
    AppendBytes(base, ram, bs, mapped, bs[j].at + HEADER, End(bs[j]));
  }

  lemma AppendKeeps(base: nat, ram: Ram, bs: seq<Block>, mapped: seq<Byte>)
    requires HeapOk(base, ram, bs) && Grows(base, ram, mapped)
    ensures Kept(ram, bs, AppendRam(base, ram, bs, mapped), AppendAt(bs, |ram.bytes|, |mapped| - HEADER), {})
    ensures NoneBut(bs, AppendAt(bs, |ram.bytes|, |mapped| - HEADER), {})
    ensures Weight(AppendAt(bs, |ram.bytes|, |mapped| - HEADER)) == Weight(bs) + |mapped|
  {
    hide AppendRam; hide HeapOk; hide Payload; hide Weight;
    var new_ := Block(|ram.bytes|, |mapped| - HEADER, true);
    var l, r := AppendAt(bs, |ram.bytes|, |mapped| - HEADER), AppendRam(base, ram, bs, mapped);
    forall b | b in bs && !b.free
      ensures b in l && End(b) <= |ram.bytes| && End(b) <= |r.bytes| && Payload(r, b) == Payload(ram, b)
    {
      var j :| 0 <= j < |bs| && bs[j] == b;
      AppendKeepsOne(base, ram, bs, mapped, j);
    }
    WeightAppend(bs, [new_]);
    WeightOne(new_);
  }

  lemma KeptThen(r0: Ram, b0: seq<Block>, r1: Ram, b1: seq<Block>, r2: Ram, b2: seq<Block>, gone: set<Block>, gone': set<Block>)
    requires Kept(r0, b0, r1, b1, gone) && Kept(r1, b1, r2, b2, gone')
    requires forall b :: b in gone' && b in b0 && !b.free ==> b in gone
    ensures Kept(r0, b0, r2, b2, gone)
  {
  }
}
