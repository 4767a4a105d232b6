/** Four-level page tables held in physical frames, seen as a radix tree.
    A node of the tree is named by the root's frame number and the path of entry indices that
    leads to it; paths of length 4 end at the mapped page. */
module PageTables {
  import opened Prelude
  import opened Words

  type Page = p: seq<Word> | |p| == 512 witness seq(512, _ => 0)
  datatype Mem = Mem(pages: map<nat, Page>)

  function ZeroPage(): Page { seq(512, _ => 0) }

  // Frame `f` cleared.
  function Zeroed(mem: Mem, f: nat): Mem { Mem(mem.pages[f := ZeroPage()]) }

  // The entry at index `i` of the table in frame `t`, when it is present: the frame it names.
  function Link(mem: Mem, t: nat, i: nat): Option<nat> {
    if t in mem.pages && i < 512 && Present(mem.pages[t][i]) then Some(FrameOf(mem.pages[t][i])) else None
  }

  // The frame reached from `root` along `path`.
  function Follow(mem: Mem, root: nat, path: seq<nat>): Option<nat>
    decreases |path|
  {
    if path == [] then
      Some(root)
    else
      match Follow(mem, root, path[..|path| - 1])
      case Some(t) => Link(mem, t, path[|path| - 1])
      case None => None
  }

  function Store(mem: Mem, t: nat, i: nat, w: Word): Mem
    requires t in mem.pages && i < 512
  {
    Mem(mem.pages[t := mem.pages[t][i := w]])
  }

  // ----- virtual addresses (the VirtualAddress union) -----

  const PAGES: nat := 0x10_0000_0000

  function Vpn(virt: nat): nat { virt / 4096 % PAGES }

  function PathOf(vp: nat): (p: seq<nat>)
    ensures |p| == 4 && forall k :: 0 <= k < 4 ==> p[k] < 512
  {
    [vp / 0x800_0000 % 512, vp / 0x4_0000 % 512, vp / 512 % 512, vp % 512]
  }

  // The four index fields of a virtual address: pml4, page_dir_ptr, page_dir, page_table.
  function Fields(virt: nat): seq<nat> {
    [virt / 0x80_0000_0000 % 512, virt / 0x4000_0000 % 512, virt / 0x20_0000 % 512, virt / 4096 % 512]
  }

  lemma FieldsArePath(virt: nat)
    ensures Fields(virt) == PathOf(Vpn(virt))
  {
    var v := virt / 4096;
    var w, x := v / PAGES, v % PAGES;
    assert v == w * PAGES + x;
    assert virt / 0x20_0000 == v / 512 && virt / 0x4000_0000 == v / 0x4_0000 && virt / 0x80_0000_0000 == v / 0x800_0000;
    FieldOf(w, x);
  }

  lemma FieldOf(w: nat, x: nat)
    ensures (w * PAGES + x) % 512 == x % 512
    ensures (w * PAGES + x) / 512 % 512 == x / 512 % 512
    ensures (w * PAGES + x) / 0x4_0000 % 512 == x / 0x4_0000 % 512
    ensures (w * PAGES + x) / 0x800_0000 % 512 == x / 0x800_0000 % 512
  {
    var v := w * PAGES + x;
    assert v / 512 == w * 0x800_0000 + x / 512;
    assert v / 0x4_0000 == w * 0x4_0000 + x / 0x4_0000;
    assert v / 0x800_0000 == w * 512 + x / 0x800_0000;
    SameRest(w * 0x800_0000, x);
    SameRest(w * 0x4_0000, x / 512);
    SameRest(w * 512, x / 0x4_0000);
    SameRest(w, x / 0x800_0000);
  }

  lemma SameRest(a: nat, x: nat)
    ensures (a * 512 + x) % 512 == x % 512
  {
  }

  // The frame that virtual page `vp` is mapped to.
  function Translate(mem: Mem, root: nat, vp: nat): Option<nat> {
    Follow(mem, root, PathOf(vp))
  }

  lemma PathInjective(vp: nat, vq: nat)
    requires vp < PAGES && vq < PAGES && PathOf(vp) == PathOf(vq)
    ensures vp == vq
  {
    Shifts(vp); Shifts(vq);
    TopDigit(vp); TopDigit(vq);
    assert PathOf(vp)[3] == PathOf(vq)[3] && PathOf(vp)[2] == PathOf(vq)[2];
    assert PathOf(vp)[1] == PathOf(vq)[1] && PathOf(vp)[0] == PathOf(vq)[0];
    hide PathOf;
    SameDigits(vp / 512 / 512, vq / 512 / 512);
    SameDigits(vp / 512, vq / 512);
    SameDigits(vp, vq);
  }

  lemma SameDigits(a: nat, b: nat)
    requires a / 512 == b / 512 && a % 512 == b % 512
    ensures a == b
  {
  }

  lemma TopDigit(vp: nat)
    requires vp < PAGES
    ensures vp / 0x800_0000 % 512 == vp / 0x800_0000
  {
  }

  lemma Shifts(vp: nat)
    ensures vp / 0x4_0000 == vp / 512 / 512
    ensures vp / 0x800_0000 == vp / 512 / 512 / 512
  {
  }

  // ----- when two memories have the same tree -----

  // The two memories give the same links out of every table on the way along `path`.
  ghost predicate SameLinks(mem: Mem, mem': Mem, root: nat, path: seq<nat>) {
    forall k, t :: 0 <= k < |path| && Follow(mem, root, path[..k]) == Some(t) ==>
      Link(mem, t, path[k]) == Link(mem', t, path[k])
  }

  lemma {:induction false} FollowSame(mem: Mem, mem': Mem, root: nat, path: seq<nat>)
    requires SameLinks(mem, mem', root, path)
    ensures Follow(mem', root, path) == Follow(mem, root, path)
    decreases |path|
  {
    if path != [] {
      var n := |path| - 1;
      var front := path[..n];
      forall k | 0 <= k < n ensures front[..k] == path[..k] {}
      FollowSame(mem, mem', root, front);
      assert path[..n] == front;
    }
  }

  lemma {:induction false} FollowPrefix(mem: Mem, root: nat, path: seq<nat>, k: nat)
    requires k <= |path| && Follow(mem, root, path).Some?
    ensures Follow(mem, root, path[..k]).Some?
    decreases |path|
  {
    if k == |path| {
      assert path[..k] == path;
    } else {
      var front := path[..|path| - 1];
      FollowPrefix(mem, root, front, k);
      assert front[..k] == path[..k];
    }
  }

  lemma {:induction false} FollowFrom(mem: Mem, root: nat, path: seq<nat>, rest: seq<nat>)
    requires Follow(mem, root, path).Some?
    ensures Follow(mem, root, path + rest) == Follow(mem, Follow(mem, root, path).value, rest)
    decreases |rest|
  {
    if rest == [] {
      assert path + rest == path;
    } else {
      var n := |rest| - 1;
      FollowFrom(mem, root, path, rest[..n]);
      assert (path + rest)[..|path| + n] == path + rest[..n];
    }
  }
}
