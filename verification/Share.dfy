/** Sharing a range of pages between two address spaces, with the table pointers cached. */
module Share {
  import opened Prelude
  import opened Words
  import opened PageTables
  import opened Trees
  import opened Machines
  import opened Vmm
  import opened Ranges
  import opened Rights

  // The entries that sharing the first `k` pages from `vp0` writes: the frames that `src` has there.
  function SharedWords(mem: Mem, src: nat, vp0: nat, k: nat, flags: Word): (ws: seq<Word>)
    requires IsFlags(flags)
  {
    seq<Word>(k, (i: nat) => SharedWord(Pte(mem, src, vp0 + i), flags))
  }

  // `((uint64_t)src_e.addr << 12) | flags | F_PRESENT`
  function SharedWord(e: Word, flags: Word): (w: Word)
    requires IsFlags(flags)
    ensures Present(w) && FrameOf(w) == FrameOf(e) && Grants(w, flags)
  {
    FramePart(FrameOf(e));
    LeafFlags(FrameOf(e) * 4096, flags);
    Leaf(FrameOf(e) * 4096, flags)
  }

  lemma SharedWordsStep(mem: Mem, src: nat, vp0: nat, k: nat, flags: Word)
    requires IsFlags(flags)
    ensures SharedWords(mem, src, vp0, 0, flags) == [] && |SharedWords(mem, src, vp0, k, flags)| == k
    ensures SharedWords(mem, src, vp0, k + 1, flags) ==
            SharedWords(mem, src, vp0, k, flags) + [SharedWord(Pte(mem, src, vp0 + k), flags)]
  {
    hide Pte; hide SharedWord;
  }

  // ----- _walk_to_pt without create -----

  method WalkToPt(m: Machine, root: nat, q: seq<nat>) returns (pt: Option<nat>)
    requires World(m) && root in m.spaces.roots && |q| == 4 && forall k :: 0 <= k < 4 ==> q[k] < 512
    ensures pt == Follow(m.frames, root, q[..3])
  {
    hide *;
    Prefixes(q);
    RootItself(m.frames, root);
    OneLevel(m, root, q, 0, root);
    var pml4e := m.frames.pages[root][q[0]];
    if !Present(pml4e) { MissingTable(m.frames, root, q, 1); return None; }
    OneLevel(m, root, q, 1, FrameOf(pml4e));
    var pdpte := m.frames.pages[FrameOf(pml4e)][q[1]];
    if !Present(pdpte) { MissingTable(m.frames, root, q, 2); return None; }
    OneLevel(m, root, q, 2, FrameOf(pdpte));
    var pde := m.frames.pages[FrameOf(pdpte)][q[2]];
    if !Present(pde) { return None; }
    return Some(FrameOf(pde));
  }

  lemma MissingTable(mem: Mem, root: nat, q: seq<nat>, k: nat)
    requires |q| == 4 && k <= 3 && Follow(mem, root, q[..k]).None?
    ensures Follow(mem, root, q[..3]).None?
  {
    assert q[..3][..k] == q[..k];
    if Follow(mem, root, q[..3]).Some? {
      FollowPrefix(mem, root, q[..3], k);
    }
  }

  // ----- pages and their tables -----

  // Pages with the same page-table number have the same page table.
  lemma SamePageTable(vp: nat)
    ensures PathOf(vp)[..3] == PathOf(vp / 512 * 512)[..3] && PathOf(vp)[3] == vp % 512
  {
    var t := vp / 512;
    assert t * 512 / 512 == t;
    Shifts(vp); Shifts(t * 512);
  }

  // Page numbers are taken modulo the 36 bits that the tables index.
  lemma PathModulo(vp: nat)
    ensures PathOf(vp) == PathOf(vp % PAGES)
  {
    FieldOf(vp / PAGES, vp % PAGES);
    assert vp == vp / PAGES * PAGES + vp % PAGES;
  }

  lemma PageModulo(vp0: nat, i: nat)
    requires vp0 % PAGES + i < PAGES
    ensures (vp0 + i) % PAGES == vp0 % PAGES + i && PathOf(vp0 + i) == PathOf(vp0 % PAGES + i)
  {
    assert vp0 + i == vp0 / PAGES * PAGES + (vp0 % PAGES + i);
    WrapFree(vp0 / PAGES, vp0 % PAGES + i);
    PathModulo(vp0 + i);
  }

  // A cached table pointer is what walking afresh would give.
  ghost predicate Cached(mem: Mem, root: nat, tbl: int, pt: nat) {
    0 <= tbl < NO_TABLE ==> Follow(mem, root, PathOf(tbl * 512)[..3]) == Some(pt)
  }

  const NO_TABLE: int := 0xFFFF_FFFF_FFFF_FFFF

  lemma CachedKept(mem: Mem, mem': Mem, roots: set<nat>, root: nat, tbl: int, pt: nat)
    requires Cached(mem, root, tbl, pt) && root in roots
    requires forall r, p :: r in roots && 1 <= |p| <= 3 ==> Covers(PteOf(mem, r, p), PteOf(mem', r, p))
    ensures Cached(mem', root, tbl, pt)
  {
    if 0 <= tbl < NO_TABLE {
      hide PteOf; hide PathOf; hide FrameOf;
      TablesStay(mem, mem', roots, root, PathOf(tbl * 512)[..3]);
    }
  }

  lemma {:induction false} TablesStay(mem: Mem, mem': Mem, roots: set<nat>, r: nat, q: seq<nat>)
    requires r in roots && |q| <= 3 && Follow(mem, r, q).Some?
    requires forall r, p :: r in roots && 1 <= |p| <= 3 ==> Covers(PteOf(mem, r, p), PteOf(mem', r, p))
    ensures Follow(mem', r, q) == Follow(mem, r, q)
  {
    if q != [] {
      assert Covers(PteOf(mem, r, q), PteOf(mem', r, q));
    }
  }

  // ----- vmm_share_range -----

  // The source's page `vp` read through a cached page table.
  lemma ReadThrough(m: Machine, root: nat, vp: nat, pt: nat)
    requires World(m) && root in m.spaces.roots && Follow(m.frames, root, PathOf(vp)[..3]) == Some(pt)
    ensures pt in m.book.out && pt in m.frames.pages && m.frames.pages[pt][vp % 512] == Pte(m.frames, root, vp)
  {
    TableIsOut(m, root, PathOf(vp)[..3], pt);
    SamePageTable(vp);
  }

  lemma NoTableNoPage(mem: Mem, root: nat, vp: nat)
    requires Follow(mem, root, PathOf(vp)[..3]).None?
    ensures !Present(Pte(mem, root, vp))
  {
  }

  // Pages not yet shared still have their first entries in the source.
  lemma SourceUnread(mem0: Mem, mem: Mem, roots: set<nat>, out: set<nat>, dest: nat, vp0: nat, ws: seq<Word>, src: nat, vp: nat)
    requires Ranged(mem0, mem, roots, out, dest, vp0, ws) && src in roots && vp0 + |ws| <= vp < PAGES
    ensures Pte(mem, src, vp) == Pte(mem0, src, vp)
  {
    hide Pte; hide UpperKept; hide DataKept; hide Sees;
  }

  lemma CacheHit(mem: Mem, root: nat, tbl: int, pt: nat, vp: nat)
    requires Cached(mem, root, tbl, pt) && vp / 512 == tbl && vp < 0x10_0000_0000_0000
    ensures Follow(mem, root, PathOf(vp)[..3]) == Some(pt)
  {
    SamePageTable(vp);
  }

  lemma CacheFill(mem: Mem, root: nat, vp: nat, pt: nat)
    requires Follow(mem, root, PathOf(vp)[..3]) == Some(pt)
    ensures Cached(mem, root, vp / 512, pt)
  {
    SamePageTable(vp);
  }

  // The source half of one round: the entry of page `vp` in the source, None if it is not mapped.
  method ReadSource(m: Machine, src: nat, vp: nat, srcPt: nat, srcTbl: int)
    returns (e: Option<Word>, srcPt': nat, srcTbl': int)
    requires World(m) && src in m.spaces.roots && vp < 0x10_0000_0000_0000
    requires Cached(m.frames, src, srcTbl, srcPt)
    ensures e == if Present(Pte(m.frames, src, vp)) then Some(Pte(m.frames, src, vp)) else None
    ensures e.Some? ==> Cached(m.frames, src, srcTbl', srcPt')
  {
    hide *;
    srcPt', srcTbl' := srcPt, srcTbl;
    PathBounds(vp);
    if vp / 512 != srcTbl {
      var pt := WalkToPt(m, src, PathOf(vp));
      if pt.None? {
        NoTableNoPage(m.frames, src, vp);
        return None, 0, 0;
      }
      srcPt', srcTbl' := pt.value, vp / 512;
      CacheFill(m.frames, src, vp, srcPt');
    }
    CacheHit(m.frames, src, srcTbl', srcPt', vp);
    ReadThrough(m, src, vp, srcPt');
    var w := m.frames.pages[srcPt'][vp % 512];
    e := if Present(w) then Some(w) else None;
  }

  lemma PathBounds(vp: nat)
    ensures |PathOf(vp)| == 4 && (forall k :: 0 <= k < 4 ==> PathOf(vp)[k] < 512) && PathOf(vp)[3] == vp % 512
  {
  }

  // The cached destination table, reached through levels that already grant `flags`.
  ghost predicate CachedFor(mem: Mem, root: nat, tbl: int, pt: nat, flags: Word) {
    Cached(mem, root, tbl, pt) && (0 <= tbl < NO_TABLE ==> Granted(mem, root, PathOf(tbl * 512), 3, flags))
  }

  lemma SameUpperLevels(mem: Mem, root: nat, vp: nat, vq: nat, flags: Word)
    requires PathOf(vp)[..3] == PathOf(vq)[..3] && Granted(mem, root, PathOf(vp), 3, flags)
    ensures Granted(mem, root, PathOf(vq), 3, flags)
  {
    hide PteOf; hide Grants; hide PathOf;
    var p, q := PathOf(vp), PathOf(vq);
    forall k | 1 <= k <= 3 ensures Grants(PteOf(mem, root, q[..k]), flags) {
      assert q[..k] == q[..3][..k] && p[..k] == p[..3][..k];
    }
  }

  lemma CachedForHit(mem: Mem, root: nat, tbl: int, pt: nat, flags: Word, vp: nat)
    requires CachedFor(mem, root, tbl, pt, flags) && vp / 512 == tbl && vp < 0x10_0000_0000_0000
    ensures Follow(mem, root, PathOf(vp)[..3]) == Some(pt) && Granted(mem, root, PathOf(vp), 3, flags)
  {
    hide PteOf; hide Grants; hide PathOf; hide Follow; hide Granted;
    CacheHit(mem, root, tbl, pt, vp);
    SamePageTable(vp);
    SameUpperLevels(mem, root, vp / 512 * 512, vp, flags);
  }

  lemma CachedForFill(mem: Mem, root: nat, vp: nat, pt: nat, flags: Word)
    requires Follow(mem, root, PathOf(vp)[..3]) == Some(pt) && Granted(mem, root, PathOf(vp), 3, flags)
    ensures CachedFor(mem, root, vp / 512, pt, flags)
  {
    hide PteOf; hide Grants; hide PathOf; hide Follow; hide Granted;
    CacheFill(mem, root, vp, pt);
    SamePageTable(vp);
    SameUpperLevels(mem, root, vp, vp / 512 * 512, flags);
  }

  // Caches of either space survive the writing of one page.
  lemma CachesKept(mem: Mem, mem': Mem, roots: set<nat>, src: nat, srcTbl: int, srcPt: nat,
                   dest: nat, dstTbl: int, dstPt: nat, flags: Word)
    requires UpperKept(mem, mem', roots) && src in roots && dest in roots
    requires Cached(mem, src, srcTbl, srcPt) && CachedFor(mem, dest, dstTbl, dstPt, flags)
    ensures Cached(mem', src, srcTbl, srcPt) && CachedFor(mem', dest, dstTbl, dstPt, flags)
  {
    hide PteOf; hide PathOf; hide Cached; hide Shares; hide Grants;
    CachedKept(mem, mem', roots, src, srcTbl, srcPt);
    CachedKept(mem, mem', roots, dest, dstTbl, dstPt);
    if 0 <= dstTbl < NO_TABLE {
      UpperGranted(mem, mem', roots, dest, PathOf(dstTbl * 512), flags);
    }
  }

  lemma UpperGranted(mem: Mem, mem': Mem, roots: set<nat>, r: nat, q: seq<nat>, flags: Word)
    requires |q| == 4 && r in roots && UpperKept(mem, mem', roots) && Granted(mem, r, q, 3, flags)
    ensures Granted(mem', r, q, 3, flags)
  {
    hide PteOf; hide Shares; hide Grants; hide Covers;
    forall k | 1 <= k <= 3 ensures Grants(PteOf(mem', r, q[..k]), flags) {
      assert Covers(PteOf(mem, r, q[..k]), PteOf(mem', r, q[..k]));
      CoversGrants(PteOf(mem, r, q[..k]), PteOf(mem', r, q[..k]), flags);
    }
  }

  lemma MappedUpper(mem: Mem, mem': Mem, roots: set<nat>, out: set<nat>, r0: nat, q: seq<nat>, w: Word)
    requires |q| == 4 && Mapped(mem, mem', roots, out, r0, q, w)
    ensures UpperKept(mem, mem', roots)
  {
    hide PteOf; hide Shares;
  }

  lemma GrownUpper(mem: Mem, mem': Mem, roots: set<nat>, out: set<nat>)
    requires Grown(mem, mem', roots, out)
    ensures UpperKept(mem, mem', roots)
  {
    hide PteOf; hide Shares;
  }

  // The destination half of one round: `dst_pt[idx] = ...`, walking only when the table changes.
  method WriteShared(m: Machine, dest: nat, vp: nat, w: Word, flags: Word, dstPt: nat, dstTbl: int,
                     ghost src: nat, ghost srcPt: nat, ghost srcTbl: int)
    returns (dstPt': nat, dstTbl': int)
    requires World(m) && dest in m.spaces.roots && src in m.spaces.roots && vp < 0x10_0000_0000_0000
    requires m.Remaining() >= Missing(m.frames, dest, PathOf(vp)) && Grants(w, flags)
    requires Cached(m.frames, src, srcTbl, srcPt) && CachedFor(m.frames, dest, dstTbl, dstPt, flags)
    modifies m`frames, m`head, m`book, m`fillEntry, m`fillOffset, m`lazyBytes
    ensures World(m) && m.Remaining() >= old(m.Remaining()) - old(Missing(m.frames, dest, PathOf(vp)))
    ensures old(m.book.out) <= m.book.out && Missing(m.frames, dest, PathOf(vp)) == 0
    ensures Mapped(old(m.frames), m.frames, m.spaces.roots, old(m.book.out), dest, PathOf(vp), w)
    ensures Granted(m.frames, dest, PathOf(vp), 4, flags)
    ensures Cached(m.frames, src, srcTbl, srcPt) && CachedFor(m.frames, dest, dstTbl', dstPt', flags)
  {
    hide *;
    PathBounds(vp);
    WorldParts(m);
    ghost var mem0, out0, roots := m.frames, m.book.out, m.spaces.roots;
    dstPt', dstTbl' := dstPt, dstTbl;
    GrownSelf(mem0, roots, out0);
    if vp / 512 != dstTbl {
      dstPt' := WalkCreate(m, dest, PathOf(vp), flags);
      dstTbl' := vp / 512;
      GrownUpper(mem0, m.frames, roots, out0);
      CachesKept(mem0, m.frames, roots, src, srcTbl, srcPt, dest, dstTbl, dstPt, flags);
      CachedForFill(m.frames, dest, vp, dstPt', flags);
      WorldParts(m);
    }
    CachedForHit(m.frames, dest, dstTbl', dstPt', flags, vp);
    ghost var mem1, out1 := m.frames, m.book.out;
    TableIsOut(m, dest, PathOf(vp)[..3], dstPt');
    LeafWorld(mem1, m.spaces, m.kernelPml4, out1, dest, PathOf(vp), dstPt', flags, w);
    WriteEntry(m, dstPt', vp % 512, w);
    MappedUpper(mem1, m.frames, roots, out1, dest, PathOf(vp), w);
    CachesKept(mem1, m.frames, roots, src, srcTbl, srcPt, dest, dstTbl', dstPt', flags);
    GrownThenMapped(mem0, mem1, m.frames, roots, out0, out1, dest, PathOf(vp), w);
    GrantedLess(m.frames, dest, PathOf(vp), flags);
    NoneMissing(m.frames, dest, PathOf(vp), flags);
    WorldParts(m);
  }

  lemma GrownSelf(mem: Mem, roots: set<nat>, out: set<nat>)
    ensures Grown(mem, mem, roots, out)
  {
    hide PteOf; hide Shares; hide Fresh; hide FrameOf;
  }

  lemma PteModulo(mem: Mem, r: nat, vp: nat, vp0: nat, i: nat)
    requires vp0 == vp % PAGES && vp0 + i < PAGES
    ensures PathOf(vp + i) == PathOf(vp0 + i) && Pte(mem, r, vp + i) == Pte(mem, r, vp0 + i)
  {
    hide PteOf; hide PathOf;
    PageModulo(vp, i);
  }

  lemma VpnOf(virt: Word)
    ensures virt / 4096 % PAGES == Vpn(virt) && virt / 4096 < 0x10_0000_0000_0000
  {
  }

  // What has been shared when the loop has done `k` pages.
  ghost predicate SharedSoFar(mem0: Mem, mem: Mem, roots: set<nat>, out0: set<nat>, dest: nat, src: nat, vp0: nat, k: nat, flags: Word)
    requires IsFlags(flags)
  {
    && Ranged(mem0, mem, roots, out0, dest, vp0, SharedWords(mem0, src, vp0, k, flags))
    && (forall vp: nat :: vp0 <= vp < vp0 + k ==> Present(Pte(mem0, src, vp)))
    && RangeGranted(mem, dest, vp0, k, flags)
  }

  lemma SharedNothing(mem: Mem, roots: set<nat>, out: set<nat>, dest: nat, src: nat, vp0: nat, flags: Word)
    requires IsFlags(flags)
    ensures SharedSoFar(mem, mem, roots, out, dest, src, vp0, 0, flags)
  {
    hide Ranged; hide Pte; hide Granted;
    RangedNothing(mem, roots, out, dest, vp0);
    SharedWordsStep(mem, src, vp0, 0, flags);
  }

  lemma SharedOne(mem0: Mem, mem: Mem, mem': Mem, roots: set<nat>, out0: set<nat>, out: set<nat>, dest: nat, src: nat,
                  vp0: nat, k: nat, flags: Word)
    requires IsFlags(flags) && dest in roots && src in roots && out0 <= out && vp0 + k < PAGES
    requires SharedSoFar(mem0, mem, roots, out0, dest, src, vp0, k, flags)
    requires Present(Pte(mem0, src, vp0 + k))
    requires Mapped(mem, mem', roots, out, dest, PathOf(vp0 + k), SharedWord(Pte(mem0, src, vp0 + k), flags))
    requires Granted(mem', dest, PathOf(vp0 + k), 4, flags)
    ensures SharedSoFar(mem0, mem', roots, out0, dest, src, vp0, k + 1, flags)
  {
    hide Ranged; hide Pte; hide Granted; hide Mapped; hide PathOf; hide SharedWords; hide SharedWord; hide RangeGranted;
    SharedWordsStep(mem0, src, vp0, k, flags);
    RangedStep(mem0, mem, mem', roots, out0, out, dest, vp0, SharedWords(mem0, src, vp0, k, flags),
               SharedWord(Pte(mem0, src, vp0 + k), flags));
    RangeGrantedStep(mem, mem', roots, out, dest, vp0, k, SharedWord(Pte(mem0, src, vp0 + k), flags), flags);
  }

  lemma SharedSource(mem0: Mem, mem: Mem, roots: set<nat>, out0: set<nat>, dest: nat, src: nat, vp0: nat, k: nat, flags: Word)
    requires IsFlags(flags) && src in roots && vp0 + k < PAGES
    requires SharedSoFar(mem0, mem, roots, out0, dest, src, vp0, k, flags)
    ensures Pte(mem, src, vp0 + k) == Pte(mem0, src, vp0 + k)
  {
    hide Ranged; hide Pte; hide RangeGranted;
    SourceUnread(mem0, mem, roots, out0, dest, vp0, SharedWords(mem0, src, vp0, k, flags), src, vp0 + k);
  }

  lemma NoCache(mem: Mem, src: nat, dest: nat, flags: Word)
    ensures Cached(mem, src, 0xFFFF_FFFF_FFFF_FFFF, 0) && CachedFor(mem, dest, 0xFFFF_FFFF_FFFF_FFFF, 0, flags)
  {
  }

  lemma Codes()
    ensures PROTO_OK == 0 && PROTO_ERR_INVALID_ARGUMENT > 0 && PROTO_ERR_PROCESS_NOT_FOUND > 0 && PROTO_ERR_OUT_OF_MEMORY > 0
  {
  }

  lemma PageBound(virt: Word, i: nat, n: nat)
    requires i < n && Vpn(virt) + n <= PAGES
    ensures virt / 4096 + i < 0x10_0000_0000_0000 && Vpn(virt) + i < PAGES
  {
    var v := virt / 4096;
    assert v == v / PAGES * PAGES + v % PAGES && v / PAGES < 0x1_0000;
  }

  lemma SharedWordGrants(e: Word, flags: Word)
    requires IsFlags(flags)
    ensures Grants(SharedWord(e, flags), flags)
  {
  }

  // Shares the longest prefix of the range that is mapped in the source: on success all of it.
  method VmmShareRange(m: Machine, dest: nat, src: nat, virtStart: Word, size: nat, flags: Word)
    returns (res: int, ghost shared: nat)
    requires World(m) && dest in m.spaces.roots && src in m.spaces.roots && IsFlags(flags)
    requires m.Remaining() >= TablesFor(Vpn(virtStart), PagesFor(size)) && Vpn(virtStart) + PagesFor(size) <= PAGES
    modifies m`frames, m`head, m`book, m`fillEntry, m`fillOffset, m`lazyBytes
    ensures World(m) && old(m.book.out) <= m.book.out
    ensures shared <= PagesFor(size) && res == (if shared == PagesFor(size) then PROTO_OK else -PROTO_ERR_INVALID_ARGUMENT)
    ensures SharedSoFar(old(m.frames), m.frames, m.spaces.roots, old(m.book.out), dest, src, Vpn(virtStart), shared, flags)
    ensures shared < PagesFor(size) ==> !Present(Pte(old(m.frames), src, Vpn(virtStart) + shared))
  {
    hide *;
    var n := PagesFor(size);
    var vpage := virtStart / 4096;
    VpnOf(virtStart);
    ghost var vp0 := Vpn(virtStart);
    WorldParts(m);
    ghost var mem0, out0, roots, left := m.frames, m.book.out, m.spaces.roots, m.Remaining();
    var srcPt, dstPt, srcTbl, dstTbl := 0, 0, 0xFFFF_FFFF_FFFF_FFFF, 0xFFFF_FFFF_FFFF_FFFF;
    NoCache(m.frames, src, dest, flags);
    Codes();
    SharedNothing(mem0, roots, out0, dest, src, vp0, flags);
    FramesNone(vp0);
    for i := 0 to n
      invariant m.Valid() && World(m) && out0 <= m.book.out && m.Remaining() >= left - TablesFor(vp0, i)
      invariant i > 0 ==> Missing(m.frames, dest, PathOf(vp0 + i - 1)) == 0
      invariant Cached(m.frames, src, srcTbl, srcPt) && CachedFor(m.frames, dest, dstTbl, dstPt, flags)
      invariant SharedSoFar(mem0, m.frames, roots, out0, dest, src, vp0, i, flags)
    {
      PteModulo(m.frames, src, vpage, vp0, i);
      SharedSource(mem0, m.frames, roots, out0, dest, src, vp0, i, flags);
      PageBound(virtStart, i, n);
      FramesStep(vp0, i, n);
      MissingInRange(m.frames, dest, vp0, i);
      var e;
      e, srcPt, srcTbl := ReadSource(m, src, vpage + i, srcPt, srcTbl);
      if e.None? {
        return -PROTO_ERR_INVALID_ARGUMENT, i;
      }
      ghost var mem1, out1 := m.frames, m.book.out;
      SharedWordGrants(e.value, flags);
      dstPt, dstTbl := WriteShared(m, dest, vpage + i, SharedWord(e.value, flags), flags, dstPt, dstTbl, src, srcPt, srcTbl);
      SharedOne(mem0, mem1, m.frames, roots, out0, out1, dest, src, vp0, i, flags);
      WorldParts(m);
    }
    return PROTO_OK, n;
  }

  // ----- sys_share -----

  // What sharing a range gives: both spaces reach the same frames there, and every other page of
  // every space that does not see the destination's page translates as before.
  lemma SharedTranslation(mem0: Mem, mem: Mem, roots: set<nat>, out0: set<nat>, dest: nat, src: nat, vp0: nat, k: nat, flags: Word)
    requires IsFlags(flags) && dest in roots && src in roots && vp0 + k <= PAGES
    requires SharedSoFar(mem0, mem, roots, out0, dest, src, vp0, k, flags)
    ensures forall vp: nat :: vp0 <= vp < vp0 + k ==>
      && Translate(mem, dest, vp) == Translate(mem, src, vp) == Translate(mem0, src, vp)
      && Translate(mem, dest, vp).Some?
    ensures forall r, vp: nat :: r in roots && vp < PAGES && !(vp0 <= vp < vp0 + k && Sees(mem0, r, dest, vp)) ==>
      Translate(mem, r, vp) == Translate(mem0, r, vp)
  {
    hide Pte; hide Translate; hide UpperKept; hide RangeGranted; hide DataKept; hide Sees; hide SharedWord; hide PathOf;
    forall vp: nat | vp0 <= vp < vp0 + k
      ensures Translate(mem, dest, vp) == Translate(mem, src, vp) == Translate(mem0, src, vp)
      ensures Translate(mem, dest, vp).Some?
    {
      TranslateIsPte(mem, dest, vp); TranslateIsPte(mem, src, vp); TranslateIsPte(mem0, src, vp);
      SeesItself(mem0, dest, vp);
      assert SharedWords(mem0, src, vp0, k, flags)[vp - vp0] == SharedWord(Pte(mem0, src, vp), flags);
      SharedWordGrants(Pte(mem0, src, vp), flags);
    }
    forall r, vp: nat | r in roots && vp < PAGES && !(vp0 <= vp < vp0 + k && Sees(mem0, r, dest, vp))
      ensures Translate(mem, r, vp) == Translate(mem0, r, vp)
    {
      TranslateIsPte(mem, r, vp); TranslateIsPte(mem0, r, vp);
    }
  }

  lemma SeesItself(mem: Mem, r: nat, vp: nat)
    ensures Sees(mem, r, r, vp)
  {
  }

  // The pages that hold the bytes `[addr, addr + size)`, counted from the page of `addr`.
  lemma BytesInPages(addr: Word, size: nat, a: Word)
    requires addr <= a < addr + size
    requires Vpn(AlignDown(addr)) + PagesFor(addr - AlignDown(addr) + size) <= PAGES
    ensures Vpn(AlignDown(addr)) <= Vpn(a) < Vpn(AlignDown(addr)) + PagesFor(addr - AlignDown(addr) + size)
  {
    var p, off := addr / PAGE_SIZE, addr % PAGE_SIZE;
    var k := (a - AlignDown(addr)) / PAGE_SIZE;
    assert AlignDown(addr) == p * PAGE_SIZE && addr - AlignDown(addr) == off;
    assert a / PAGE_SIZE == p + k;
    var n := PagesFor(off + size);
    assert k < n;
    assert p == p / PAGES * PAGES + p % PAGES;
    WrapFree(p / PAGES, p % PAGES + k);
  }

  // An active process, and the record of a shared region.
  datatype Peer = Peer(pid: int, cr3: nat)

  datatype Region = Region(id: int, dest: int, vaddr: nat)

  // The first process of the list with this pid.
  predicate Found(peers: seq<Peer>, pid: int, i: nat) {
    i < |peers| && peers[i].pid == pid && forall j :: 0 <= j < i ==> peers[j].pid != pid
  }

  class Process {
    const cr3: nat
    var sharedMem: seq<Region>
    var maxSmemId: int

    // The range is widened to whole pages, and the longest mapped prefix of them is shared with user and
    // write access. The call succeeds exactly if every byte of `[addr, addr + size)` is mapped; then each is
    // the same physical byte in both spaces, and the region is recorded under a new number. `peers` are the
    // active processes; `room` says whether there is memory for the record.
    method SysShare(m: Machine, peers: seq<Peer>, pid: int, addr: Word, size: nat, room: bool) returns (res: int, ghost i: nat, ghost shared: nat)
      requires World(m) && cr3 in m.spaces.roots && forall k :: 0 <= k < |peers| ==> peers[k].cr3 in m.spaces.roots
      requires m.Remaining() >= TablesFor(Vpn(AlignDown(addr)), PagesFor(addr - AlignDown(addr) + size))
      requires Vpn(AlignDown(addr)) + PagesFor(addr - AlignDown(addr) + size) <= PAGES && maxSmemId >= 0
      modifies this, m`frames, m`head, m`book, m`fillEntry, m`fillOffset, m`lazyBytes
      ensures World(m) && i <= |peers| && (i < |peers| ==> Found(peers, pid, i))
      ensures i == |peers| ==> forall k :: 0 <= k < |peers| ==> peers[k].pid != pid
      ensures addr == 0 || size == 0 ==> res == -PROTO_ERR_INVALID_ARGUMENT && m.frames == old(m.frames)
      ensures addr != 0 && size != 0 && i == |peers| ==> res == -PROTO_ERR_PROCESS_NOT_FOUND && m.frames == old(m.frames)
      ensures addr != 0 && size != 0 && i < |peers| && !room ==> res == -PROTO_ERR_OUT_OF_MEMORY && m.frames == old(m.frames)
      ensures addr != 0 && size != 0 && i < |peers| && room ==>
        res == if BytesMapped(old(m.frames), cr3, addr, size) then old(maxSmemId) else -PROTO_ERR_INVALID_ARGUMENT
      ensures addr != 0 && size != 0 && i < |peers| && room ==>
        PrefixShared(old(m.frames), m.frames, m.spaces.roots, peers[i].cr3, cr3, addr, size, shared)
      ensures res < 0 ==> sharedMem == old(sharedMem) && maxSmemId == old(maxSmemId)
      ensures res >= 0 ==> sharedMem == old(sharedMem) + [Region(res, pid, addr)] && maxSmemId == res + 1
      ensures res >= 0 ==> i < |peers| && SameBytes(old(m.frames), m.frames, peers[i].cr3, cr3, addr, size)
      ensures i < |peers| ==> OnlyRange(old(m.frames), m.frames, m.spaces.roots, peers[i].cr3, addr, size)
    {
      hide *;
      Codes();
      i, shared := 0, 0;
      var k := 0;
      while k < |peers| && peers[k].pid != pid
        invariant k <= |peers| && forall j :: 0 <= j < k ==> peers[j].pid != pid
      {
        k := k + 1;
      }
      i := k;
      if i < |peers| {
        FoundIs(peers, pid, i);
        NothingShared(m.frames, m.spaces.roots, peers[i].cr3, addr, size);
      }
      if addr == 0 || size == 0 {
        return -PROTO_ERR_INVALID_ARGUMENT, i, 0;
      }
      if k == |peers| {
        return -PROTO_ERR_PROCESS_NOT_FOUND, i, 0;
      }
      if !room {
        return -PROTO_ERR_OUT_OF_MEMORY, i, 0;
      }
      var virtStart := AlignDown(addr);
      var offset := addr - virtStart;
      ShareFlags();
      ghost var mem0, out0, roots := m.frames, m.book.out, m.spaces.roots;
      var shareRes;
      shareRes, shared := VmmShareRange(m, peers[k].cr3, cr3, virtStart, offset + size, 6);
      SharedBytes(mem0, m.frames, roots, out0, peers[k].cr3, cr3, addr, size, shared);
      SharedExactly(mem0, m.frames, roots, out0, peers[k].cr3, cr3, addr, size, shared);
      if shareRes != PROTO_OK {
        return shareRes, i, shared;
      }
      var id := maxSmemId;
      maxSmemId := maxSmemId + 1;
      sharedMem := sharedMem + [Region(id, pid, addr)];
      return id, i, shared;
    }
  }

  // Every byte of the range is the same physical byte in both spaces, the one the source had.
  ghost predicate SameBytes(mem0: Mem, mem: Mem, dest: nat, src: nat, addr: Word, size: nat) {
    forall a: nat :: addr <= a < addr + size && a < 0x1_0000_0000_0000_0000 ==>
      && Translate(mem, dest, Vpn(a)) == Translate(mem, src, Vpn(a)) == Translate(mem0, src, Vpn(a))
      && Translate(mem, dest, Vpn(a)).Some?
  }

  ghost predicate BytesMapped(mem: Mem, root: nat, addr: Word, size: nat) {
    forall a: nat :: addr <= a < addr + size ==> Translate(mem, root, Vpn(a)).Some?
  }

  // The first `k` pages of the widened range are shared with user and write access, the next one is not
  // mapped in the source, and every other page of every space translates as before.
  ghost predicate PrefixShared(mem0: Mem, mem: Mem, roots: set<nat>, dest: nat, src: nat, addr: Word, size: nat, k: nat) {
    var vp0, n := Vpn(AlignDown(addr)), PagesFor(addr - AlignDown(addr) + size);
    && k <= n && (k < n ==> Translate(mem0, src, vp0 + k).None?)
    && (forall vp: nat :: vp0 <= vp < vp0 + k ==>
          && Translate(mem, dest, vp) == Translate(mem, src, vp) == Translate(mem0, src, vp)
          && Translate(mem, dest, vp).Some? && PageHas(mem, dest, vp, true, true, false))
    && (forall r, vp: nat :: r in roots && vp < PAGES && !(vp0 <= vp < vp0 + k && Sees(mem0, r, dest, vp)) ==>
          Translate(mem, r, vp) == Translate(mem0, r, vp))
  }

  // Pages outside the widened range translate as before.
  ghost predicate OnlyRange(mem0: Mem, mem: Mem, roots: set<nat>, dest: nat, addr: Word, size: nat) {
    var vp0, n := Vpn(AlignDown(addr)), PagesFor(addr - AlignDown(addr) + size);
    forall r, vp: nat :: r in roots && vp < PAGES && !(vp0 <= vp < vp0 + n && Sees(mem0, r, dest, vp)) ==>
      Translate(mem, r, vp) == Translate(mem0, r, vp)
  }

  lemma FoundIs(peers: seq<Peer>, pid: int, i: nat)
    requires i < |peers| && peers[i].pid == pid && forall j :: 0 <= j < i ==> peers[j].pid != pid
    ensures Found(peers, pid, i)
  {
  }

  lemma NothingShared(mem: Mem, roots: set<nat>, dest: nat, addr: Word, size: nat)
    ensures OnlyRange(mem, mem, roots, dest, addr, size)
  {
  }

  lemma SharedBytes(mem0: Mem, mem: Mem, roots: set<nat>, out0: set<nat>, dest: nat, src: nat, addr: Word, size: nat, k: nat)
    requires dest in roots && src in roots && IsFlags(6) && k <= PagesFor(addr - AlignDown(addr) + size)
    requires Vpn(AlignDown(addr)) + PagesFor(addr - AlignDown(addr) + size) <= PAGES
    requires SharedSoFar(mem0, mem, roots, out0, dest, src, Vpn(AlignDown(addr)), k, 6)
    ensures OnlyRange(mem0, mem, roots, dest, addr, size)
    ensures k == PagesFor(addr - AlignDown(addr) + size) ==> SameBytes(mem0, mem, dest, src, addr, size)
  {
    hide Translate; hide Vpn; hide PagesFor; hide AlignDown; hide SharedSoFar; hide Sees;
    SharedTranslation(mem0, mem, roots, out0, dest, src, Vpn(AlignDown(addr)), k, 6);
    if k == PagesFor(addr - AlignDown(addr) + size) {
      forall a: nat | addr <= a < addr + size && a < 0x1_0000_0000_0000_0000
        ensures Vpn(AlignDown(addr)) <= Vpn(a) < Vpn(AlignDown(addr)) + k
      {
        BytesInPages(addr, size, a);
      }
    }
  }

  lemma SharedWordHas(e: Word, flags: Word)
    requires IsFlags(flags)
    ensures var w := SharedWord(e, flags); Present(w) && UserBit(w) == UserBit(flags) && Writable(w) == Writable(flags) && NoExecute(w) == NoExecute(flags)
    ensures SharedWord(e, flags) / 0x10_0000_0000_0000 == flags / 0x10_0000_0000_0000 && SharedWord(e, flags) % 4096 / 2 == flags % 4096 / 2
  {
    hide Leaf;
    FramePart(FrameOf(e));
    LeafHas(FrameOf(e) * 4096, flags);
    LeafFlags(FrameOf(e) * 4096, flags);
  }

  // A shared page has the rights of the flags and no others.
  lemma SharedHas(mem0: Mem, mem: Mem, roots: set<nat>, out0: set<nat>, dest: nat, src: nat, vp0: nat, k: nat, flags: Word, vp: nat)
    requires IsFlags(flags) && dest in roots && vp0 <= vp < vp0 + k && vp < PAGES
    requires SharedSoFar(mem0, mem, roots, out0, dest, src, vp0, k, flags)
    ensures PageHas(mem, dest, vp, UserBit(flags), Writable(flags), NoExecute(flags))
  {
    hide Leaf; hide UpperKept; hide PathOf; hide Granted; hide Pte; hide PteOf; hide LetsThrough; hide Present; hide UserBit; hide Writable; hide NoExecute; hide FrameOf;
    SeesItself(mem0, dest, vp);
    var e := Pte(mem0, src, vp);
    assert SharedWords(mem0, src, vp0, k, flags)[vp - vp0] == SharedWord(e, flags);
    SharedWordHas(e, flags);
    GrantedThrough(mem, dest, vp, flags);
  }

  // Each page of the widened range holds a byte of the range.
  lemma ByteOfPage(addr: Word, size: nat, k: nat) returns (a: nat)
    requires size > 0 && k < PagesFor(addr - AlignDown(addr) + size)
    requires Vpn(AlignDown(addr)) + PagesFor(addr - AlignDown(addr) + size) <= PAGES
    ensures addr <= a < addr + size && Vpn(a) == Vpn(AlignDown(addr)) + k
  {
    var p, off := addr / PAGE_SIZE, addr % PAGE_SIZE;
    assert AlignDown(addr) == p * PAGE_SIZE && addr - AlignDown(addr) == off;
    a := if k == 0 then addr else (p + k) * PAGE_SIZE;
    assert k * PAGE_SIZE < off + size;
    assert a / PAGE_SIZE == p + k;
    assert p == p / PAGES * PAGES + p % PAGES;
    WrapFree(p / PAGES, p % PAGES + k);
  }

  lemma AddressEnd(addr: Word, size: nat, a: nat)
    requires addr <= a < addr + size && Vpn(AlignDown(addr)) + PagesFor(addr - AlignDown(addr) + size) <= PAGES
    ensures a < 0x1_0000_0000_0000_0000
  {
    var p, off := addr / PAGE_SIZE, addr % PAGE_SIZE;
    assert AlignDown(addr) == p * PAGE_SIZE && addr - AlignDown(addr) == off;
    assert p == p / PAGES * PAGES + p % PAGES && p / PAGES < 0x1_0000;
  }

  // The whole range is shared exactly if all of its bytes are mapped.
  lemma SharedExactly(mem0: Mem, mem: Mem, roots: set<nat>, out0: set<nat>, dest: nat, src: nat, addr: Word, size: nat, k: nat)
    requires dest in roots && src in roots && IsFlags(6) && size > 0 && k <= PagesFor(addr - AlignDown(addr) + size)
    requires Vpn(AlignDown(addr)) + PagesFor(addr - AlignDown(addr) + size) <= PAGES
    requires SharedSoFar(mem0, mem, roots, out0, dest, src, Vpn(AlignDown(addr)), k, 6)
    requires k < PagesFor(addr - AlignDown(addr) + size) ==> !Present(Pte(mem0, src, Vpn(AlignDown(addr)) + k))
    ensures k == PagesFor(addr - AlignDown(addr) + size) <==> BytesMapped(mem0, src, addr, size)
    ensures PrefixShared(mem0, mem, roots, dest, src, addr, size, k)
  {
    hide Translate; hide Vpn; hide PagesFor; hide AlignDown; hide SharedSoFar; hide Sees; hide Pte; hide Present; hide PageHas;
    var vp0, n := Vpn(AlignDown(addr)), PagesFor(addr - AlignDown(addr) + size);
    SharedTranslation(mem0, mem, roots, out0, dest, src, vp0, k, 6);
    SixIs();
    forall vp: nat | vp0 <= vp < vp0 + k ensures PageHas(mem, dest, vp, true, true, false) {
      SharedHas(mem0, mem, roots, out0, dest, src, vp0, k, 6, vp);
    }
    if k < n {
      var a := ByteOfPage(addr, size, k);
      TranslateIsPte(mem0, src, vp0 + k);
    } else {
      forall a: nat | addr <= a < addr + size ensures Translate(mem0, src, Vpn(a)).Some? {
        AddressEnd(addr, size, a);
        BytesInPages(addr, size, a);
      }
    }
  }

  lemma SixIs()
    ensures UserBit(6) && Writable(6) && !NoExecute(6)
  {
  }

  // F_WRITE | F_USER
  lemma ShareFlags()
    ensures IsFlags(6) && UserBit(6) && Writable(6)
  {
  }
}
