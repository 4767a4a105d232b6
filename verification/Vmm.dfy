/** Mapping pages: `_get_or_create`, `map_page` and the range operations on top of them. */
module Vmm {
  import opened Prelude
  import opened Words
  import opened PageTables
  import opened Trees
  import opened MemoryMap
  import opened Machines
  import opened FreelistPmm

  // ----- the invariant of all address spaces -----

  // A user root reads the kernel's own tables through every slot that was there at its creation.
  ghost predicate KernelAgrees(mem: Mem, sp: Spaces, kernel: nat) {
    forall r, s :: r in sp.roots && r != kernel && r in sp.slots && s in sp.slots[r] ==> Shares(mem, r, kernel, s)
  }

  ghost predicate SpacesOk(mem: Mem, sp: Spaces, kernel: nat, out: set<nat>) {
    && Tree(mem, sp.roots) && Open(mem, sp.roots) && TablesWithin(mem, sp.roots, out)
    && kernel in sp.roots && KernelAgrees(mem, sp, kernel)
  }

  ghost predicate World(m: Machine)
    reads m
  {
    m.Valid() && SpacesOk(m.frames, m.spaces, m.kernelPml4, m.book.out)
  }

  // The kernel half as the kernel sees it is the kernel half as every process sees it.
  lemma KernelHalfAgrees(mem: Mem, sp: Spaces, kernel: nat, out: set<nat>, r: nat, vp: nat)
    requires SpacesOk(mem, sp, kernel, out) && r in sp.roots && r != kernel
    requires r in sp.slots && PathOf(vp)[0] in sp.slots[r]
    ensures Translate(mem, r, vp) == Translate(mem, kernel, vp)
  {
    var q := PathOf(vp);
    assert Shares(mem, r, kernel, q[0]);
    assert q == [q[0]] + q[1..];
    FollowFrom(mem, r, [q[0]], q[1..]);
    FollowFrom(mem, kernel, [q[0]], q[1..]);
  }

  // ----- steps that only add tables -----

  // Tables were added, nothing else: no page moved, no permission was lost, no data frame written.
  ghost predicate Grown(mem: Mem, mem': Mem, roots: set<nat>, out: set<nat>) {
    Extends(mem, mem', roots) && DataKept(mem, mem', roots, out) && mem'.pages.Keys == mem.pages.Keys
  }

  lemma GrownTransitive(a: Mem, b: Mem, c: Mem, roots: set<nat>, out: set<nat>, out': set<nat>)
    requires Grown(a, b, roots, out) && Grown(b, c, roots, out') && out <= out'
    ensures Grown(a, c, roots, out)
  {
    hide PteOf; hide Shares; hide Covers; hide Extends; hide Fresh;
    ExtendsTransitive(a, b, c, roots);
  }

  lemma AllocateGrows(mem: Mem, mem': Mem, sp: Spaces, kernel: nat, out: set<nat>)
    requires SpacesOk(mem, sp, kernel, out) && Keeps(mem, mem', out)
    ensures SpacesOk(mem', sp, kernel, out) && Grown(mem, mem', sp.roots, out)
  {
    hide Tree; hide Extends; hide DataKept; hide PteOf; hide TablesWithin; hide Follow;
    UndisturbedTree(mem, mem', sp.roots, out);
    AgreesKept(mem, mem', sp, kernel);
  }

  lemma AgreesKept(mem: Mem, mem': Mem, sp: Spaces, kernel: nat)
    requires KernelAgrees(mem, sp, kernel) && kernel in sp.roots
    requires Extends(mem, mem', sp.roots)
    ensures KernelAgrees(mem', sp, kernel)
  {
    hide PteOf; hide Shares;
  }

  lemma GrowWorld(mem: Mem, sp: Spaces, kernel: nat, out: set<nat>,
                  r0: nat, p: seq<nat>, t: nat, i: nat, flags: Word, g: nat)
    requires SpacesOk(mem, sp, kernel, out) && out <= mem.pages.Keys && r0 in sp.roots && |p| <= 2
    requires Follow(mem, r0, p) == Some(t) && t in mem.pages && i < 512 && g < 0x100_0000_0000
    requires Present(mem.pages[t][i]) || (g in mem.pages && g !in out)
    ensures var mem', present := Grow(mem, t, i, flags, g), Present(mem.pages[t][i]);
      && SpacesOk(mem', sp, kernel, if present then out else out + {g})
      && Grown(mem, mem', sp.roots, out)
      && Follow(mem', r0, p + [i]) == Some(if present then FrameOf(mem.pages[t][i]) else g)
      && Grants(PteOf(mem', r0, p + [i]), flags)
  {
    hide Tree; hide Extends; hide DataKept; hide PteOf; hide Follow; hide KernelAgrees; hide Grants; hide FrameOf;
    NotATable(mem, sp, out, g);
    GrowEffect(mem, sp.roots, r0, p, t, i, flags, g);
    GrowTables(mem, sp.roots, r0, p, t, i, flags, g, out);
    GrowData(mem, sp.roots, r0, p, t, i, flags, g, out);
    AgreesKept(mem, Grow(mem, t, i, flags, g), sp, kernel);
  }

  lemma NotATable(mem: Mem, sp: Spaces, out: set<nat>, g: nat)
    requires TablesWithin(mem, sp.roots, out)
    ensures g !in out ==> Fresh(mem, sp.roots, g)
  {
    hide Follow;
  }

  // ----- writing to frames that were handed out -----

  lemma OutApart(m: Machine)
    requires m.Valid()
    ensures m.book.out <= m.frames.pages.Keys
    ensures forall f :: f in m.book.out ==> f !in m.book.free && f < 0x100_0000_0000
  {
    forall f | f in m.book.out ensures f in m.frames.pages && f !in m.book.free && f < 0x100_0000_0000 {
      OutIsMemory(m, f);
    }
  }

  lemma ThreadedElsewhere(mem: Mem, mem': Mem, head: Word, fl: seq<nat>)
    requires Threaded(mem, head, fl) && mem'.pages.Keys == mem.pages.Keys
    requires forall f :: f in fl && f in mem.pages ==> mem'.pages[f] == mem.pages[f]
    ensures Threaded(mem', head, fl)
  {
    forall i | 0 <= i < |fl| ensures fl[i] in mem'.pages && mem'.pages[fl[i]][0] == Pointer(fl, i + 1) {
      assert fl[i] in fl;
    }
  }

  // A whole frame is overwritten.
  method WriteFrame(m: Machine, f: nat, page: Page)
    requires m.Valid() && f in m.book.out
    modifies m`frames
    ensures m.Valid() && m.Remaining() == old(m.Remaining())
    ensures m.frames == Mem(old(m.frames).pages[f := page])
    ensures f in old(m.frames).pages
  {
    hide AllPages; hide Threaded; hide Accounted; hide Consumed; hide CursorOk; hide Disjoint; hide Addressable;
    OutApart(m);
    ThreadedElsewhere(m.frames, Mem(m.frames.pages[f := page]), m.head, m.book.free);
    m.frames := Mem(m.frames.pages[f := page]);
  }

  // `*entry = w`
  method WriteEntry(m: Machine, t: nat, i: nat, w: Word)
    requires m.Valid() && t in m.book.out && i < 512
    modifies m`frames
    ensures m.Valid() && m.Remaining() == old(m.Remaining())
    ensures t in old(m.frames).pages && m.frames == Store(old(m.frames), t, i, w)
  {
    hide Machine.Valid; hide Machine.Remaining;
    OutApart(m);
    WriteFrame(m, t, m.frames.pages[t][i := w]);
  }

  // A table that a root reaches was handed out, and is memory.
  lemma TableIsOut(m: Machine, r0: nat, p: seq<nat>, t: nat)
    requires World(m) && r0 in m.spaces.roots && |p| <= 3 && Follow(m.frames, r0, p) == Some(t)
    ensures t in m.book.out && t in m.frames.pages && m.book.out <= m.frames.pages.Keys
  {
    hide Follow;
    OutApart(m);
  }

  lemma WorldParts(m: Machine)
    ensures World(m) <==> m.Valid() && SpacesOk(m.frames, m.spaces, m.kernelPml4, m.book.out)
    ensures m.Valid() ==> forall f :: f in m.book.out ==> f in m.frames.pages && f < 0x100_0000_0000
  {
    if m.Valid() {
      OutApart(m);
    }
  }

  // Whether a frame is needed for the table at path `p`.
  function Lack(mem: Mem, root: nat, p: seq<nat>): nat {
    if Follow(mem, root, p).None? then 1 else 0
  }

  // How many tables the way to page `q` still lacks.
  function Missing(mem: Mem, root: nat, q: seq<nat>): nat
    requires |q| == 4
  {
    Lack(mem, root, q[..1]) + Lack(mem, root, q[..2]) + Lack(mem, root, q[..3])
  }

  lemma LackOne(mem: Mem, r0: nat, p: seq<nat>, t: nat, i: nat)
    requires Follow(mem, r0, p) == Some(t) && t in mem.pages && i < 512
    ensures Lack(mem, r0, p + [i]) == if Present(mem.pages[t][i]) then 0 else 1
  {
    assert (p + [i])[..|p|] == p;
  }

  lemma LackLess(mem: Mem, mem': Mem, roots: set<nat>, r: nat, p: seq<nat>)
    requires Extends(mem, mem', roots) && r in roots && |p| <= 3
    ensures Lack(mem', r, p) <= Lack(mem, r, p)
  {
    hide Follow; hide Extends;
    if Follow(mem, r, p).Some? { ExtendsFollow(mem, mem', roots, r, p); }
  }

  lemma MissingIs(mem: Mem, root: nat, q: seq<nat>)
    requires |q| == 4
    ensures Missing(mem, root, q) == Lack(mem, root, q[..1]) + Lack(mem, root, q[..2]) + Lack(mem, root, q[..3])
  {
  }

  lemma MissingLess(mem: Mem, mem': Mem, roots: set<nat>, r: nat, q: seq<nat>)
    requires Extends(mem, mem', roots) && r in roots && |q| == 4
    ensures Missing(mem', r, q) <= Missing(mem, r, q)
  {
    hide Extends; hide Lack;
    LackLess(mem, mem', roots, r, q[..1]);
    LackLess(mem, mem', roots, r, q[..2]);
    LackLess(mem, mem', roots, r, q[..3]);
  }

  // Granted levels are there.
  lemma NoneMissing(mem: Mem, r: nat, q: seq<nat>, flags: Word)
    requires |q| == 4 && Granted(mem, r, q, 3, flags)
    ensures Missing(mem, r, q) == 0
  {
    forall k | 1 <= k <= 3 ensures Follow(mem, r, q[..k]).Some? {
      assert Grants(PteOf(mem, r, q[..k]), flags);
      assert q[..k][..k - 1] == q[..k - 1];
    }
  }

  lemma GrantedLess(mem: Mem, r: nat, q: seq<nat>, flags: Word)
    requires |q| == 4 && Granted(mem, r, q, 4, flags)
    ensures Granted(mem, r, q, 3, flags)
  {
  }

  // `_get_or_create` for an entry whose table is at path `p` of root `r0`.
  method GetOrCreate(m: Machine, t: nat, i: nat, flags: Word, ghost r0: nat, ghost p: seq<nat>) returns (child: nat)
    requires World(m) && r0 in m.spaces.roots && |p| <= 2 && Follow(m.frames, r0, p) == Some(t) && i < 512
    requires m.Remaining() >= Lack(m.frames, r0, p + [i])
    modifies m`frames, m`head, m`book, m`fillEntry, m`fillOffset, m`lazyBytes
    ensures World(m) && m.Remaining() == old(m.Remaining()) - old(Lack(m.frames, r0, p + [i]))
    ensures old(m.book.out) <= m.book.out && Grown(old(m.frames), m.frames, m.spaces.roots, old(m.book.out))
    ensures Follow(m.frames, r0, p + [i]) == Some(child)
    ensures Grants(PteOf(m.frames, r0, p + [i]), flags)
  {
    hide *;
    WorldParts(m);
    TableIsOut(m, r0, p, t);
    LackOne(m.frames, r0, p, t, i);
    var entry := m.frames.pages[t][i];
    ghost var mem0, sp, k, out := m.frames, m.spaces, m.kernelPml4, m.book.out;
    if Present(entry) {
      child := FrameOf(entry);
      GrowWorld(mem0, sp, k, out, r0, p, t, i, flags, 0);
      GrowIsWiden(mem0, t, i, flags);
      WriteEntry(m, t, i, Widen(entry, flags));
      WorldParts(m);
    } else {
      child := FpmmAllocatePage(m);
      ghost var mem1 := m.frames;
      AllocateGrows(mem0, mem1, sp, k, out);
      WorldParts(m);
      GrownSame(mem0, mem1, sp, out, r0, p, t, i);
      GrowWorld(mem1, sp, k, out, r0, p, t, i, flags, child);
      GrowIsCreate(mem1, t, i, flags, child);
      WriteFrame(m, child, ZeroPage());
      WriteEntry(m, t, i, TableEntry(child, flags));
      GrownTransitive(mem0, mem1, m.frames, sp.roots, out, out);
      WorldParts(m);
    }
  }

  lemma GrowIsWiden(mem: Mem, t: nat, i: nat, flags: Word)
    requires t in mem.pages && i < 512 && Present(mem.pages[t][i])
    ensures Grow(mem, t, i, flags, 0) == Store(mem, t, i, Widen(mem.pages[t][i], flags))
  {
  }

  lemma GrowIsCreate(mem: Mem, t: nat, i: nat, flags: Word, g: nat)
    requires t in mem.pages && i < 512 && !Present(mem.pages[t][i]) && g < 0x100_0000_0000
    ensures Zeroed(mem, g) == Mem(mem.pages[g := ZeroPage()])
    ensures t in Zeroed(mem, g).pages
    ensures Grow(mem, t, i, flags, g) == Store(Zeroed(mem, g), t, i, TableEntry(g, flags))
  {
  }

  // Frames that allocation left alone still hold the same table at the same place.
  lemma GrownSame(mem: Mem, mem': Mem, sp: Spaces, out: set<nat>, r0: nat, p: seq<nat>, t: nat, i: nat)
    requires Grown(mem, mem', sp.roots, out) && Keeps(mem, mem', out) && t in out && t in mem.pages && i < 512
    requires r0 in sp.roots && |p| <= 3 && Follow(mem, r0, p) == Some(t)
    ensures Follow(mem', r0, p) == Some(t) && t in mem'.pages && mem'.pages[t][i] == mem.pages[t][i]
  {
    hide PteOf; hide Follow;
    ExtendsFollow(mem, mem', sp.roots, r0, p);
  }

  // ----- map_page -----

  // The entries of levels 1 to `n` on the way to page `q` grant what `flags` asks for.
  ghost predicate Granted(mem: Mem, r: nat, q: seq<nat>, n: nat, flags: Word)
    requires |q| == 4 && n <= 4
  {
    forall k :: 1 <= k <= n ==> Grants(PteOf(mem, r, q[..k]), flags)
  }

  lemma GrantedKept(mem: Mem, mem': Mem, roots: set<nat>, r: nat, q: seq<nat>, n: nat, flags: Word)
    requires |q| == 4 && n <= 3 && r in roots && Granted(mem, r, q, n, flags) && Extends(mem, mem', roots)
    requires n < 3 ==> Grants(PteOf(mem', r, q[..n + 1]), flags)
    ensures Granted(mem', r, q, if n < 3 then n + 1 else n, flags)
  {
    hide PteOf; hide Shares; hide FrameOf;
    forall k | 1 <= k <= n ensures Grants(PteOf(mem', r, q[..k]), flags) {
      assert Covers(PteOf(mem, r, q[..k]), PteOf(mem', r, q[..k]));
    }
  }

  lemma Prefixes(q: seq<nat>)
    requires |q| == 4
    ensures q[..0] == [] && q[..1] == [] + [q[0]] && q[..2] == q[..1] + [q[1]]
    ensures q[..3] == q[..2] + [q[2]] && q == q[..4] == q[..3] + [q[3]]
  {
  }

  lemma RootItself(mem: Mem, r: nat)
    ensures Follow(mem, r, []) == Some(r)
  {
  }

  lemma NothingGranted(mem: Mem, mem': Mem, r: nat, q: seq<nat>, flags: Word)
    requires |q| == 4 && Grants(PteOf(mem', r, q[..1]), flags)
    ensures Granted(mem', r, q, 1, flags)
  {
  }

  lemma ExtendsOf(mem: Mem, mem': Mem, roots: set<nat>, out: set<nat>)
    requires Grown(mem, mem', roots, out)
    ensures Extends(mem, mem', roots)
  {
  }

  // The three `_get_or_create` calls that `map_page` and `_walk_to_pt(create)` make.
  method WalkCreate(m: Machine, root: nat, q: seq<nat>, flags: Word) returns (pt: nat)
    requires World(m) && root in m.spaces.roots && |q| == 4 && m.Remaining() >= Missing(m.frames, root, q)
    requires forall k :: 0 <= k < 4 ==> q[k] < 512
    modifies m`frames, m`head, m`book, m`fillEntry, m`fillOffset, m`lazyBytes
    ensures World(m) && m.Remaining() >= old(m.Remaining()) - old(Missing(m.frames, root, q))
    ensures old(m.book.out) <= m.book.out && Grown(old(m.frames), m.frames, m.spaces.roots, old(m.book.out))
    ensures Follow(m.frames, root, q[..3]) == Some(pt)
    ensures Granted(m.frames, root, q, 3, flags)
  {
    hide *;
    ghost var mem0, out0, roots := m.frames, m.book.out, m.spaces.roots;
    Prefixes(q);
    RootItself(m.frames, root);
    MissingIs(mem0, root, q);
    var pdpt := GetOrCreate(m, root, q[0], flags, root, q[..0]);
    ghost var mem1, out1 := m.frames, m.book.out;
    NothingGranted(mem0, mem1, root, q, flags);
    ExtendsOf(mem0, mem1, roots, out0);
    LackLess(mem0, mem1, roots, root, q[..2]);
    LackLess(mem0, mem1, roots, root, q[..3]);
    var pd := GetOrCreate(m, pdpt, q[1], flags, root, q[..1]);
    ghost var mem2, out2 := m.frames, m.book.out;
    ExtendsOf(mem1, mem2, roots, out1);
    LackLess(mem1, mem2, roots, root, q[..3]);
    GrantedKept(mem1, mem2, roots, root, q, 1, flags);
    GrownTransitive(mem0, mem1, mem2, roots, out0, out1);
    pt := GetOrCreate(m, pd, q[2], flags, root, q[..2]);
    ExtendsOf(mem2, m.frames, roots, out2);
    GrantedKept(mem2, m.frames, roots, root, q, 2, flags);
    GrownTransitive(mem0, mem2, m.frames, roots, out0, out2);
  }

  // The page at path `q` of root `r0` now has entry `w`, in every space that sees it; nothing else
  // moved, no upper-level permission was lost, no data frame was written.
  ghost predicate Mapped(mem: Mem, mem': Mem, roots: set<nat>, out: set<nat>, r0: nat, q: seq<nat>, w: Word)
    requires |q| == 4
  {
    Maps(mem, mem', roots, r0, q, w) && DataKept(mem, mem', roots, out) && mem'.pages.Keys == mem.pages.Keys
  }

  lemma GrownThenMapped(a: Mem, b: Mem, c: Mem, roots: set<nat>, out: set<nat>, out': set<nat>, r0: nat, q: seq<nat>, w: Word)
    requires |q| == 4 && r0 in roots && Grown(a, b, roots, out) && Mapped(b, c, roots, out', r0, q, w) && out <= out'
    ensures Mapped(a, c, roots, out, r0, q, w)
  {
    hide PteOf; hide Shares; hide Covers; hide Extends; hide Maps; hide Fresh;
    ExtendsThenMaps(a, b, c, roots, r0, q, w);
  }

  lemma LeafWorld(mem: Mem, sp: Spaces, kernel: nat, out: set<nat>, r0: nat, q: seq<nat>, pt: nat, flags: Word, w: Word)
    requires SpacesOk(mem, sp, kernel, out) && r0 in sp.roots && |q| == 4 && q[3] < 512
    requires Follow(mem, r0, q[..3]) == Some(pt) && pt in mem.pages
    requires Granted(mem, r0, q, 3, flags) && Grants(w, flags)
    ensures var mem' := Store(mem, pt, q[3], w);
      && SpacesOk(mem', sp, kernel, out) && Mapped(mem, mem', sp.roots, out, r0, q, w)
      && Granted(mem', r0, q, 4, flags)
  {
    hide Tree; hide DataKept; hide PteOf; hide Follow; hide TablesWithin; hide Shares; hide Grants; hide Covers;
    var mem' := Store(mem, pt, q[3], w);
    Prefixes(q);
    LeafEffect(mem, sp.roots, r0, q[..3], pt, q[3], w);
    LeafTables(mem, sp.roots, r0, q[..3], pt, q[3], w, out);
    LeafData(mem, sp.roots, r0, q[..3], pt, q[3], w, out);
    forall k | 1 <= k <= 3 ensures Grants(PteOf(mem', r0, q[..k]), flags) {
      assert Covers(PteOf(mem, r0, q[..k]), PteOf(mem', r0, q[..k]));
      CoversGrants(PteOf(mem, r0, q[..k]), PteOf(mem', r0, q[..k]), flags);
    }
  }

  lemma CoversGrants(w: Word, w': Word, flags: Word)
    requires Covers(w, w') && Grants(w, flags)
    ensures Grants(w', flags)
  {
  }

  lemma LeafGrants(phys: Word, flags: Word)
    requires IsFlags(flags)
    ensures Grants(Leaf(phys, flags), flags) && Present(Leaf(phys, flags)) && FrameOf(Leaf(phys, flags)) == FrameOf(phys)
  {
    hide NoExecute; hide Leaf;
    LeafFlags(phys, flags);
  }

  // Installs one page. Its rights hold on all four levels.
  method MapPage(m: Machine, virt: Word, phys: Word, flags: Word, root: nat)
    requires World(m) && root in m.spaces.roots && IsFlags(flags)
    requires m.Remaining() >= Missing(m.frames, root, PathOf(Vpn(virt)))
    modifies m`frames, m`head, m`book, m`fillEntry, m`fillOffset, m`lazyBytes
    ensures World(m) && m.Remaining() >= old(m.Remaining()) - old(Missing(m.frames, root, PathOf(Vpn(virt))))
    ensures old(m.book.out) <= m.book.out && Missing(m.frames, root, PathOf(Vpn(virt))) == 0
    ensures Mapped(old(m.frames), m.frames, m.spaces.roots, old(m.book.out), root, PathOf(Vpn(virt)), Leaf(phys, flags))
    ensures Granted(m.frames, root, PathOf(Vpn(virt)), 4, flags)
  {
    hide *;
    var q := PathOf(Vpn(virt));
    ghost var mem0, out0, roots := m.frames, m.book.out, m.spaces.roots;
    var pt := WalkCreate(m, root, q, flags);
    ghost var mem1, out1 := m.frames, m.book.out;
    WorldParts(m);
    TableIsOut(m, root, q[..3], pt);
    LeafGrants(phys, flags);
    LeafWorld(mem1, m.spaces, m.kernelPml4, out1, root, q, pt, flags, Leaf(phys, flags));
    WriteEntry(m, pt, q[3], Leaf(phys, flags));
    GrownThenMapped(mem0, mem1, m.frames, roots, out0, out1, root, q, Leaf(phys, flags));
    GrantedLess(m.frames, root, q, flags);
    NoneMissing(m.frames, root, q, flags);
    WorldParts(m);
  }

  // ----- the first table -----

  lemma {:induction false} EmptyTable(mem: Mem, f: nat, q: seq<nat>)
    requires f in mem.pages && mem.pages[f] == ZeroPage() && q != []
    ensures Follow(mem, f, q) == None
    decreases |q|
  {
    if |q| > 1 { EmptyTable(mem, f, q[..|q| - 1]); } else { assert q[..0] == []; }
  }

  lemma FirstSpace(mem: Mem, f: nat, out: set<nat>)
    requires f in mem.pages && mem.pages[f] == ZeroPage() && f in out
    ensures SpacesOk(mem, Spaces({f}, map[]), f, out) && forall vp: nat :: Translate(mem, f, vp) == None
  {
    hide Follow; hide Shares;
    RootItself(mem, f);
    forall p | p != [] ensures Follow(mem, f, p) == None {
      EmptyTable(mem, f, p);
    }
    TranslatesNothing(mem, f);
  }

  lemma TranslatesNothing(mem: Mem, f: nat)
    requires forall p :: p != [] ==> Follow(mem, f, p) == None
    ensures forall vp: nat :: Translate(mem, f, vp) == None
  {
    hide Follow;
  }

  // The start of `vmm_init`: the kernel's top-level table, cleared. What it maps then are calls of
  // `map_page`.
  method VmmInit(m: Machine)
    requires m.Valid() && m.Remaining() >= 1 && m.spaces == Spaces({}, map[])
    modifies m
    ensures World(m) && m.spaces == Spaces({m.kernelPml4}, map[]) && m.Remaining() == old(m.Remaining()) - 1
    ensures m.book.out == old(m.book.out) + {m.kernelPml4} && m.kernelPml4 !in old(m.book.out)
    ensures forall vp: nat :: Translate(m.frames, m.kernelPml4, vp) == None
  {
    hide Machine.Valid; hide Machine.Remaining; hide SpacesOk; hide Translate;
    var f := FpmmAllocatePage(m);
    FirstSpace(m.frames, f, m.book.out);
    m.kernelPml4 := f;
    m.spaces := Spaces({f}, map[]);
  }
}
