/** Runs of page mappings seen as updates of a plain map from virtual page to entry. */
module Ranges {
  import opened Prelude
  import opened Lists
  import opened Words
  import opened PageTables
  import opened Trees
  import opened MemoryMap
  import opened Machines
  import opened FreelistPmm
  import opened Vmm

  // The leaf entry of virtual page `vp`: the abstract map that the tables represent.
  function Pte(mem: Mem, r: nat, vp: nat): Word {
    PteOf(mem, r, PathOf(vp))
  }

  lemma TranslateIsPte(mem: Mem, r: nat, vp: nat)
    ensures Translate(mem, r, vp) == if Present(Pte(mem, r, vp)) then Some(FrameOf(Pte(mem, r, vp))) else None
  {
  }

  // Root `r` sees what is mapped for page `vp` below root `r0`.
  ghost predicate Sees(mem: Mem, r: nat, r0: nat, vp: nat) {
    SeesAs(mem, r, r0, PathOf(vp)[0])
  }

  // ----- any sequence of map_page calls -----

  datatype MapOp = MapOp(root: nat, virt: Word, phys: Word, flags: Word)

  // The entry of page `vp` after the calls `ops`: the last call for that page wins.
  ghost function After(mem: Mem, ops: seq<MapOp>, r: nat, vp: nat): Word
    requires forall op :: op in ops ==> IsFlags(op.flags)
  {
    if ops == [] then
      Pte(mem, r, vp)
    else
      var op := ops[|ops| - 1];
      assert op in ops;
      if Vpn(op.virt) == vp && Sees(mem, r, op.root, vp) then Leaf(op.phys, op.flags)
      else After(mem, ops[..|ops| - 1], r, vp)
  }

  // No later call maps the page of call `n` anew, in the space of call `n` or in one it shares the slot with.
  ghost predicate LastCall(mem0: Mem, ops: seq<MapOp>, n: nat)
    requires n < |ops|
  {
    forall j :: n < j < |ops| && Vpn(ops[j].virt) == Vpn(ops[n].virt) ==> !Sees(mem0, ops[n].root, ops[j].root, Vpn(ops[n].virt))
  }

  // The rights that the last call for a page asked for hold on all four levels.
  ghost predicate RightsHold(mem0: Mem, ops: seq<MapOp>, mem: Mem) {
    forall n :: 0 <= n < |ops| && LastCall(mem0, ops, n) ==> CallGranted(mem, ops[n])
  }

  ghost predicate CallGranted(mem: Mem, op: MapOp) {
    Granted(mem, op.root, PathOf(Vpn(op.virt)), 4, op.flags)
  }

  lemma RightsStep(mem0: Mem, ops: seq<MapOp>, mem: Mem, mem': Mem, roots: set<nat>, out: set<nat>, op: MapOp)
    requires forall o :: o in ops + [op] ==> IsFlags(o.flags) && o.root in roots
    requires Represents(mem0, ops, mem, roots) && RightsHold(mem0, ops, mem) && CallGranted(mem', op)
    requires Mapped(mem, mem', roots, out, op.root, PathOf(Vpn(op.virt)), Leaf(op.phys, op.flags))
    ensures RightsHold(mem0, ops + [op], mem')
  {
    hide PteOf; hide Shares; hide PathOf; hide Leaf; hide Mapped; hide Vpn; hide Granted; hide After; hide Pte;
    var ops' := ops + [op];
    forall n | 0 <= n < |ops'| && LastCall(mem0, ops', n) ensures CallGranted(mem', ops'[n]) {
      if n < |ops| {
        LastBefore(mem0, ops, op, n);
        var o := ops[n];
        assert o in ops';
        if PathOf(Vpn(o.virt)) == PathOf(Vpn(op.virt)) {
          VpnBound(o.virt); VpnBound(op.virt);
          PathInjective(Vpn(o.virt), Vpn(op.virt));
        }
        RightsStay(mem, mem', roots, out, op.root, PathOf(Vpn(op.virt)), Leaf(op.phys, op.flags), o.root, PathOf(Vpn(o.virt)), o.flags);
      }
    }
  }

  lemma LastBefore(mem0: Mem, ops: seq<MapOp>, op: MapOp, n: nat)
    requires n < |ops| && LastCall(mem0, ops + [op], n)
    ensures LastCall(mem0, ops, n) && (Vpn(op.virt) == Vpn(ops[n].virt) ==> !Sees(mem0, ops[n].root, op.root, Vpn(ops[n].virt)))
  {
    hide Vpn; hide Sees;
    var ops' := ops + [op];
    assert ops'[n] == ops[n] && ops'[|ops|] == op;
    forall j | n < j < |ops| ensures ops'[j] == ops[j] {}
  }

  // The tables hold the abstract map `After(mem0, ops)`, and share what they shared before.
  ghost predicate Represents(mem0: Mem, ops: seq<MapOp>, mem: Mem, roots: set<nat>)
    requires forall op :: op in ops ==> IsFlags(op.flags)
  {
    && (forall r, vp: nat :: r in roots && vp < PAGES ==> Pte(mem, r, vp) == After(mem0, ops, r, vp))
    && (forall r, r', s :: r in roots && r' in roots && r != r' ==> Shares(mem, r, r', s) == Shares(mem0, r, r', s))
  }

  lemma RepresentsStep(mem0: Mem, ops: seq<MapOp>, mem: Mem, mem': Mem, roots: set<nat>, out: set<nat>, op: MapOp)
    requires forall o :: o in ops + [op] ==> IsFlags(o.flags)
    requires Represents(mem0, ops, mem, roots) && op.root in roots
    requires Mapped(mem, mem', roots, out, op.root, PathOf(Vpn(op.virt)), Leaf(op.phys, op.flags))
    ensures Represents(mem0, ops + [op], mem', roots)
  {
    hide PteOf; hide Shares; hide PathOf; hide Leaf; hide DataKept; hide Vpn; hide Covers;
    var ops' := ops + [op];
    assert ops'[..|ops'| - 1] == ops && op in ops';
    forall r, vp: nat | r in roots && vp < PAGES ensures Pte(mem', r, vp) == After(mem0, ops', r, vp) {
      VpnBound(op.virt);
      if PathOf(Vpn(op.virt)) == PathOf(vp) {
        PathInjective(vp, Vpn(op.virt));
      }
    }
  }

  lemma VpnBound(virt: Word)
    ensures Vpn(virt) < PAGES
  {
  }

  // Every run of `map_page` calls, on any of the address spaces, refines updates of a plain map, and
  // each page keeps the rights of its last call on all four levels.
  method MapPages(m: Machine, ops: seq<MapOp>)
    requires World(m) && m.Remaining() >= 3 * |ops|
    requires forall op :: op in ops ==> op.root in m.spaces.roots && IsFlags(op.flags)
    modifies m`frames, m`head, m`book, m`fillEntry, m`fillOffset, m`lazyBytes
    ensures World(m) && Represents(old(m.frames), ops, m.frames, m.spaces.roots) && RightsHold(old(m.frames), ops, m.frames)
  {
    hide *;
    ghost var mem0 := m.frames;
    WorldParts(m);
    RepresentsNothing(mem0, m.spaces.roots);
    for n := 0 to |ops|
      invariant m.Valid() && World(m) && m.Remaining() >= 3 * (|ops| - n)
      invariant Represents(mem0, ops[..n], m.frames, m.spaces.roots) && RightsHold(mem0, ops[..n], m.frames)
    {
      ghost var mem1, out1 := m.frames, m.book.out;
      MissingBound(m.frames, ops[n].root, PathOf(Vpn(ops[n].virt)));
      MapPage(m, ops[n].virt, ops[n].phys, ops[n].flags, ops[n].root);
      assert ops[..n + 1] == ops[..n] + [ops[n]];
      CallGrantedIs(m.frames, ops[n]);
      RightsStep(mem0, ops[..n], mem1, m.frames, m.spaces.roots, out1, ops[n]);
      RepresentsStep(mem0, ops[..n], mem1, m.frames, m.spaces.roots, out1, ops[n]);
      WorldParts(m);
    }
    assert ops[..|ops|] == ops;
  }

  lemma RepresentsNothing(mem: Mem, roots: set<nat>)
    ensures Represents(mem, [], mem, roots) && RightsHold(mem, [], mem)
  {
  }

  lemma CallGrantedIs(mem: Mem, op: MapOp)
    ensures CallGranted(mem, op) <==> Granted(mem, op.root, PathOf(Vpn(op.virt)), 4, op.flags)
  {
  }

  lemma MissingBound(mem: Mem, root: nat, q: seq<nat>)
    requires |q| == 4
    ensures Missing(mem, root, q) <= 3
  {
  }

  // Rights once granted on all four levels stay, until the page itself is mapped again.
  lemma RightsStay(mem: Mem, mem': Mem, roots: set<nat>, out: set<nat>, r0: nat, q: seq<nat>, w: Word,
                   r: nat, p: seq<nat>, flags: Word)
    requires |q| == |p| == 4 && r in roots && Mapped(mem, mem', roots, out, r0, q, w)
    requires Granted(mem, r, p, 4, flags) && !(p == q && SeesAs(mem, r, r0, q[0]))
    ensures Granted(mem', r, p, 4, flags)
  {
    hide PteOf; hide Shares; hide DataKept; hide Grants; hide Covers;
    forall k | 1 <= k <= 4 ensures Grants(PteOf(mem', r, p[..k]), flags) {
      assert Grants(PteOf(mem, r, p[..k]), flags);
      if k < 4 {
        assert Covers(PteOf(mem, r, p[..k]), PteOf(mem', r, p[..k]));
        CoversGrants(PteOf(mem, r, p[..k]), PteOf(mem', r, p[..k]), flags);
      } else {
        assert p[..4] == p;
      }
    }
  }

  // Pages `vp0` to `vp0 + k` below `root` grant `flags` on all four levels.
  ghost predicate RangeGranted(mem: Mem, root: nat, vp0: nat, k: nat, flags: Word) {
    forall vp: nat :: vp0 <= vp < vp0 + k ==> Granted(mem, root, PathOf(vp), 4, flags)
  }

  lemma RangeGrantedStep(mem: Mem, mem': Mem, roots: set<nat>, out: set<nat>, root: nat, vp0: nat, k: nat, w: Word, flags: Word)
    requires root in roots && vp0 + k < PAGES && RangeGranted(mem, root, vp0, k, flags)
    requires Mapped(mem, mem', roots, out, root, PathOf(vp0 + k), w)
    requires Granted(mem', root, PathOf(vp0 + k), 4, flags)
    ensures RangeGranted(mem', root, vp0, k + 1, flags)
  {
    hide Granted; hide Mapped; hide PathOf; hide SeesAs;
    forall vp: nat | vp0 <= vp < vp0 + k + 1 ensures Granted(mem', root, PathOf(vp), 4, flags) {
      if vp < vp0 + k {
        PathsDiffer(vp, vp0 + k);
        RightsStay(mem, mem', roots, out, root, PathOf(vp0 + k), w, root, PathOf(vp), flags);
      }
    }
  }

  lemma NoneGranted(mem: Mem, root: nat, vp0: nat, flags: Word)
    ensures RangeGranted(mem, root, vp0, 0, flags)
  {
  }

  lemma PathsDiffer(vp: nat, vq: nat)
    requires vp < PAGES && vq < PAGES && vp != vq
    ensures PathOf(vp) != PathOf(vq)
  {
    hide PathOf;
    if PathOf(vp) == PathOf(vq) {
      PathInjective(vp, vq);
    }
  }

  // ----- vmm_virt_to_phys -----

  lemma OneLevel(m: Machine, root: nat, q: seq<nat>, k: nat, t: nat)
    requires World(m) && root in m.spaces.roots && |q| == 4 && k < 4 && q[k] < 512
    requires Follow(m.frames, root, q[..k]) == Some(t)
    ensures t in m.frames.pages
    ensures Follow(m.frames, root, q[..k + 1]) ==
            if Present(m.frames.pages[t][q[k]]) then Some(FrameOf(m.frames.pages[t][q[k]])) else None
  {
    hide *;
    TableIsOut(m, root, q[..k], t);
    FollowNext(m.frames, root, q, k, t);
  }

  lemma FollowNext(mem: Mem, root: nat, q: seq<nat>, k: nat, t: nat)
    requires |q| == 4 && k < 4 && q[k] < 512 && t in mem.pages && Follow(mem, root, q[..k]) == Some(t)
    ensures Follow(mem, root, q[..k + 1]) ==
            if Present(mem.pages[t][q[k]]) then Some(FrameOf(mem.pages[t][q[k]])) else None
  {
    assert q[..k + 1][..k] == q[..k];
  }

  lemma MissingLevel(mem: Mem, root: nat, q: seq<nat>, k: nat)
    requires |q| == 4 && k <= 4 && Follow(mem, root, q[..k]).None?
    ensures Follow(mem, root, q).None?
  {
    if Follow(mem, root, q).Some? {
      FollowPrefix(mem, root, q, k);
    }
  }

  // Walks the tables; the result is the abstract map's frame with the page offset, or 0.
  method VmmVirtToPhys(m: Machine, root: nat, virt: Word) returns (phys: nat)
    requires World(m) && root in m.spaces.roots
    ensures phys == match Translate(m.frames, root, Vpn(virt))
                    case Some(f) => f * 4096 + virt % 4096
                    case None => 0
  {
    hide *;
    var v := Fields(virt);
    FieldsArePath(virt);
    FieldBounds(virt);
    Prefixes(v);
    RootItself(m.frames, root);
    TranslateIsFollow(m.frames, root, Vpn(virt));

    OneLevel(m, root, v, 0, root);
    var pml4e := m.frames.pages[root][v[0]];
    if !Present(pml4e) { MissingLevel(m.frames, root, v, 1); return 0; }
    var pdpt := FrameOf(pml4e);

    OneLevel(m, root, v, 1, pdpt);
    var pdpte := m.frames.pages[pdpt][v[1]];
    if !Present(pdpte) { MissingLevel(m.frames, root, v, 2); return 0; }
    var pd := FrameOf(pdpte);

    OneLevel(m, root, v, 2, pd);
    var pde := m.frames.pages[pd][v[2]];
    if !Present(pde) { MissingLevel(m.frames, root, v, 3); return 0; }
    var pt := FrameOf(pde);

    OneLevel(m, root, v, 3, pt);
    var pte := m.frames.pages[pt][v[3]];
    if !Present(pte) { return 0; }
    return FrameOf(pte) * 4096 + virt % 4096;
  }

  lemma FieldBounds(virt: nat)
    ensures |Fields(virt)| == 4 && forall k :: 0 <= k < 4 ==> Fields(virt)[k] < 512
  {
  }

  lemma ExtendsTranslate(mem: Mem, mem': Mem, roots: set<nat>, r: nat, vp: nat)
    requires Extends(mem, mem', roots) && r in roots
    ensures Translate(mem', r, vp) == Translate(mem, r, vp)
  {
    hide PteOf; hide Covers; hide Shares; hide PathOf; hide Translate;
    TranslateIsPte(mem, r, vp);
    TranslateIsPte(mem', r, vp);
  }

  lemma TranslateIsFollow(mem: Mem, root: nat, vp: nat)
    ensures Translate(mem, root, vp) == Follow(mem, root, PathOf(vp))
  {
  }

  // ----- runs of consecutive pages -----

  // Pages `vp0`, `vp0 + 1`, ... below root `r0` now have the entries `ws`; nothing else moved, no
  // upper-level permission was lost, no data frame was written.
  ghost predicate Ranged(mem: Mem, mem': Mem, roots: set<nat>, out: set<nat>, r0: nat, vp0: nat, ws: seq<Word>) {
    && UpperKept(mem, mem', roots)
    && (forall r, vp: nat :: r in roots && vp < PAGES ==>
          Pte(mem', r, vp) == if vp0 <= vp < vp0 + |ws| && Sees(mem, r, r0, vp) then ws[vp - vp0] else Pte(mem, r, vp))
    && DataKept(mem, mem', roots, out) && mem'.pages.Keys == mem.pages.Keys
  }

  ghost predicate UpperKept(mem: Mem, mem': Mem, roots: set<nat>) {
    && (forall r, p :: r in roots && 1 <= |p| <= 3 ==> Covers(PteOf(mem, r, p), PteOf(mem', r, p)))
    && (forall r, r', s :: r in roots && r' in roots && r != r' ==> Shares(mem', r, r', s) == Shares(mem, r, r', s))
  }

  lemma RangedNothing(mem: Mem, roots: set<nat>, out: set<nat>, r0: nat, vp0: nat)
    ensures Ranged(mem, mem, roots, out, r0, vp0, [])
  {
    hide PteOf; hide Follow; hide Shares; hide FrameOf;
  }

  lemma RangedStep(mem0: Mem, mem: Mem, mem': Mem, roots: set<nat>, out0: set<nat>, out: set<nat>, r0: nat,
                   vp0: nat, ws: seq<Word>, w: Word)
    requires r0 in roots && out0 <= out && vp0 + |ws| < PAGES
    requires Ranged(mem0, mem, roots, out0, r0, vp0, ws)
    requires Mapped(mem, mem', roots, out, r0, PathOf(vp0 + |ws|), w)
    ensures Ranged(mem0, mem', roots, out0, r0, vp0, ws + [w])
  {
    hide PteOf; hide Shares; hide Covers; hide PathOf; hide Fresh; hide UpperKept; hide DataKept; hide Maps; hide SeesAs;
    UpperStep(mem0, mem, mem', roots, r0, PathOf(vp0 + |ws|), w);
    DataStep(mem0, mem, mem', roots, out0, out);
    var ws' := ws + [w];
    forall r, vp: nat | r in roots && vp < PAGES
      ensures Pte(mem', r, vp) ==
        if vp0 <= vp < vp0 + |ws'| && Sees(mem0, r, r0, vp) then ws'[vp - vp0] else Pte(mem0, r, vp)
    {
      MapsPage(mem, mem', roots, r0, vp0 + |ws|, w, r, vp);
      SeesKept(mem0, mem, roots, r0, r, vp);
    }
  }

  lemma MapsPage(mem: Mem, mem': Mem, roots: set<nat>, r0: nat, vq: nat, w: Word, r: nat, vp: nat)
    requires vp < PAGES && vq < PAGES && r in roots && Maps(mem, mem', roots, r0, PathOf(vq), w)
    ensures Pte(mem', r, vp) == if vp == vq && Sees(mem, r, r0, vp) then w else Pte(mem, r, vp)
  {
    hide PteOf; hide Shares; hide Covers; hide PathOf; hide SeesAs;
    if PathOf(vp) == PathOf(vq) {
      PathInjective(vp, vq);
    }
  }

  lemma UpperStep(mem0: Mem, mem: Mem, mem': Mem, roots: set<nat>, r0: nat, q: seq<nat>, w: Word)
    requires |q| == 4 && UpperKept(mem0, mem, roots) && Maps(mem, mem', roots, r0, q, w)
    ensures UpperKept(mem0, mem', roots)
  {
    hide PteOf; hide Shares; hide SeesAs;
  }

  lemma DataStep(mem0: Mem, mem: Mem, mem': Mem, roots: set<nat>, out0: set<nat>, out: set<nat>)
    requires out0 <= out && mem.pages.Keys == mem0.pages.Keys
    requires DataKept(mem0, mem, roots, out0) && DataKept(mem, mem', roots, out)
    ensures DataKept(mem0, mem', roots, out0)
  {
    hide Fresh;
  }

  lemma SeesKept(mem0: Mem, mem: Mem, roots: set<nat>, r0: nat, r: nat, vp: nat)
    requires UpperKept(mem0, mem, roots) && r in roots && r0 in roots
    ensures Sees(mem, r, r0, vp) == Sees(mem0, r, r0, vp)
  {
    hide PteOf; hide Shares; hide Covers; hide PathOf;
  }

  // ----- vmm_map_range -----

  // The leaf entries for a sequence of frames.
  function Leaves(frames: seq<nat>, flags: Word): (ws: seq<Word>)
    requires IsFlags(flags) && forall i :: 0 <= i < |frames| ==> frames[i] < 0x100_0000_0000
    ensures |ws| == |frames|
    ensures forall i :: 0 <= i < |ws| ==> Present(ws[i]) && FrameOf(ws[i]) == frames[i]
  {
    if frames == [] then [] else
      var f := frames[|frames| - 1];
      FramePart(f);
      Leaves(frames[..|frames| - 1], flags) + [Leaf(f * 4096, flags)]
  }

  // Present entries that lead to these frames.
  ghost predicate LeadTo(ws: seq<Word>, frames: seq<nat>) {
    |ws| == |frames| && forall i :: 0 <= i < |ws| ==> Present(ws[i]) && FrameOf(ws[i]) == frames[i]
  }

  lemma LeavesLead(frames: seq<nat>, flags: Word)
    requires IsFlags(flags) && forall i :: 0 <= i < |frames| ==> frames[i] < 0x100_0000_0000
    ensures LeadTo(Leaves(frames, flags), frames)
  {
  }

  lemma FramePart(f: nat)
    requires f < 0x100_0000_0000
    ensures f * 4096 < 0x1_0000_0000_0000_0000 && FrameOf(f * 4096) == f
  {
  }

  lemma LeavesAppend(frames: seq<nat>, f: nat, flags: Word)
    requires IsFlags(flags) && f < 0x100_0000_0000 && forall i :: 0 <= i < |frames| ==> frames[i] < 0x100_0000_0000
    ensures forall i :: 0 <= i < |frames + [f]| ==> (frames + [f])[i] < 0x100_0000_0000
    ensures f * 4096 < 0x1_0000_0000_0000_0000
    ensures Leaves(frames + [f], flags) == Leaves(frames, flags) + [Leaf(f * 4096, flags)]
  {
    FramePart(f);
    assert (frames + [f])[..|frames|] == frames;
  }

  // Frames taken for data: distinct, not held before, no tables, cleared.
  ghost predicate Taken(mem: Mem, roots: set<nat>, out0: set<nat>, out: set<nat>, got: seq<nat>) {
    && NoRepeats(got)
    && forall f :: f in got ==>
         f !in out0 && f in out && f < 0x100_0000_0000 && f in mem.pages && mem.pages[f] == ZeroPage() && Fresh(mem, roots, f)
  }

  lemma TakenKept(mem: Mem, mem': Mem, roots: set<nat>, out0: set<nat>, out: set<nat>, out': set<nat>, got: seq<nat>)
    requires Taken(mem, roots, out0, out, got) && DataKept(mem, mem', roots, out) && out <= out'
    ensures Taken(mem', roots, out0, out', got)
  {
    hide NoRepeats; hide Fresh;
  }

  lemma AppendDistinct1(got: seq<nat>, f: nat)
    requires NoRepeats(got) && f !in got
    ensures NoRepeats(got + [f])
  {
    AppendDistinct(got, [f]);
  }

  lemma VpnStep(start: nat, k: nat)
    requires start % PAGE_SIZE == 0 && Vpn(start) + k < PAGES
    ensures Vpn(start + k * PAGE_SIZE) == Vpn(start) + k
  {
    var a := start / PAGE_SIZE;
    assert (start + k * PAGE_SIZE) / PAGE_SIZE == a + k;
    assert a == a / PAGES * PAGES + a % PAGES;
    WrapFree(a / PAGES, a % PAGES + k);
  }

  lemma WrapFree(w: nat, x: nat)
    requires x < PAGES
    ensures (w * PAGES + x) % PAGES == x
  {
  }

  lemma NothingTaken(mem: Mem, roots: set<nat>, out: set<nat>)
    ensures Taken(mem, roots, out, out, [])
  {
  }

  lemma SizeCovered(virt: nat, size: nat)
    ensures AlignUp(virt) % PAGE_SIZE == 0 && virt <= AlignUp(virt) < virt + PAGE_SIZE
    ensures size <= PagesFor(size) * PAGE_SIZE < size + PAGE_SIZE
  {
  }

  // ----- frames that mapping a range takes -----

  // Page tables, directories and pointer tables that start with page `vp`.
  function TablesAt(vp: nat): nat {
    (if vp % 512 == 0 then 1 else 0) + (if vp % 0x4_0000 == 0 then 1 else 0) + (if vp % 0x800_0000 == 0 then 1 else 0)
  }

  // Tables of the three lower levels that `n` pages from `vp0` on lie in.
  function TablesFor(vp0: nat, n: nat): nat {
    if n == 0 then 0 else TablesFor(vp0, n - 1) + if n == 1 then 3 else TablesAt(vp0 + n - 1)
  }

  function FramesFor(vp0: nat, n: nat): nat { n + TablesFor(vp0, n) }

  // The same counted level by level.
  lemma {:induction false} TablesCount(vp0: nat, n: nat)
    requires n > 0
    ensures TablesFor(vp0, n) == Groups(vp0, n, 512) + Groups(vp0, n, 0x4_0000) + Groups(vp0, n, 0x800_0000)
  {
    hide Groups; hide TablesAt;
    if n > 1 {
      TablesCount(vp0, n - 1);
      GroupsStep(vp0, n);
      TablesAtIs(vp0 + n - 1);
    } else {
      GroupsOne(vp0);
    }
  }

  lemma TablesAtIs(vp: nat)
    ensures TablesAt(vp) == (if vp % 512 == 0 then 1 else 0) + (if vp % 0x4_0000 == 0 then 1 else 0) + (if vp % 0x800_0000 == 0 then 1 else 0)
  {
  }

  lemma GroupsOne(vp0: nat)
    ensures Groups(vp0, 1, 512) == Groups(vp0, 1, 0x4_0000) == Groups(vp0, 1, 0x800_0000) == 1
  {
  }

  lemma GroupsStep(vp0: nat, n: nat)
    requires n > 1
    ensures Groups(vp0, n, 512) == Groups(vp0, n - 1, 512) + if (vp0 + n - 1) % 512 == 0 then 1 else 0
    ensures Groups(vp0, n, 0x4_0000) == Groups(vp0, n - 1, 0x4_0000) + if (vp0 + n - 1) % 0x4_0000 == 0 then 1 else 0
    ensures Groups(vp0, n, 0x800_0000) == Groups(vp0, n - 1, 0x800_0000) + if (vp0 + n - 1) % 0x800_0000 == 0 then 1 else 0
  {
    NextQuotient(vp0 + n - 2);
  }

  // How many aligned groups of `k` pages the range touches.
  function Groups(vp0: nat, n: nat, k: nat): int
    requires n > 0 && k > 0
  {
    (vp0 + n - 1) / k - vp0 / k + 1
  }

  lemma NextQuotient(v: nat)
    ensures (v + 1) / 512 == v / 512 + if (v + 1) % 512 == 0 then 1 else 0
    ensures (v + 1) / 0x4_0000 == v / 0x4_0000 + if (v + 1) % 0x4_0000 == 0 then 1 else 0
    ensures (v + 1) / 0x800_0000 == v / 0x800_0000 + if (v + 1) % 0x800_0000 == 0 then 1 else 0
  {
  }

  lemma {:induction false} TablesGrow(vp0: nat, k: nat, n: nat)
    requires k <= n
    ensures TablesFor(vp0, k) <= TablesFor(vp0, n) <= TablesFor(vp0, k) + 3 * (n - k)
    decreases n
  {
    if k < n { TablesGrow(vp0, k, n - 1); }
  }

  lemma FramesStep(vp0: nat, k: nat, n: nat)
    requires k < n
    ensures FramesFor(vp0, k) + 1 + (if k == 0 then 3 else TablesAt(vp0 + k)) == FramesFor(vp0, k + 1) <= FramesFor(vp0, n)
    ensures TablesFor(vp0, k) + (if k == 0 then 3 else TablesAt(vp0 + k)) == TablesFor(vp0, k + 1) <= TablesFor(vp0, n)
  {
    TablesGrow(vp0, k + 1, n);
  }

  lemma FramesNone(vp0: nat)
    ensures FramesFor(vp0, 0) == 0 && TablesFor(vp0, 0) == 0
  {
  }

  // The page behind a mapped one lacks at most the tables that start with it.
  lemma MissingNext(mem: Mem, root: nat, vp: nat)
    requires Missing(mem, root, PathOf(vp)) == 0
    ensures Missing(mem, root, PathOf(vp + 1)) <= TablesAt(vp + 1)
  {
    hide Follow; hide PathOf;
    NextPath(vp);
  }

  lemma NextPath(vp: nat)
    ensures (vp + 1) % 0x800_0000 != 0 ==> PathOf(vp + 1)[..1] == PathOf(vp)[..1]
    ensures (vp + 1) % 0x4_0000 != 0 ==> PathOf(vp + 1)[..2] == PathOf(vp)[..2]
    ensures (vp + 1) % 512 != 0 ==> PathOf(vp + 1)[..3] == PathOf(vp)[..3]
  {
    hide PathOf;
    var w := vp + 1;
    CoarseMultiple(w);
    MiddleMultiple(w);
    NextQuotient(vp);
    if w % 0x800_0000 != 0 { SamePrefix(w, vp, 1); }
    if w % 0x4_0000 != 0 { SamePrefix(w, vp, 2); }
    if w % 512 != 0 { SamePrefix(w, vp, 3); }
  }

  lemma CoarseMultiple(w: nat)
    ensures w % 0x800_0000 == 0 ==> w % 0x4_0000 == 0
  {
    var q := w / 0x800_0000;
    if w % 0x800_0000 == 0 {
      assert w == q * 512 * 0x4_0000;
      assert w / 0x4_0000 == q * 512;
    }
  }

  lemma MiddleMultiple(w: nat)
    ensures w % 0x4_0000 == 0 ==> w % 512 == 0
  {
    var q := w / 0x4_0000;
    if w % 0x4_0000 == 0 {
      assert w == q * 512 * 512;
      assert w / 512 == q * 512;
    }
  }

  // Pages with the same upper digits have the same upper path.
  lemma SamePrefix(a: nat, b: nat, n: nat)
    requires 1 <= n <= 3 && a / 0x800_0000 == b / 0x800_0000
    requires n >= 2 ==> a / 0x4_0000 == b / 0x4_0000
    requires n >= 3 ==> a / 512 == b / 512
    ensures PathOf(a)[..n] == PathOf(b)[..n]
  {
    var p, q := PathOf(a), PathOf(b);
    assert p[0] == q[0];
    assert n >= 2 ==> p[1] == q[1];
    assert n >= 3 ==> p[2] == q[2];
  }

  // What the walk to page `k` of a range still lacks when the pages before it are mapped.
  lemma MissingInRange(mem: Mem, root: nat, vp0: nat, k: nat)
    requires k > 0 ==> Missing(mem, root, PathOf(vp0 + k - 1)) == 0
    ensures Missing(mem, root, PathOf(vp0 + k)) <= if k == 0 then 3 else TablesAt(vp0 + k)
  {
    hide Missing; hide TablesAt;
    if k > 0 { MissingNext(mem, root, vp0 + k - 1); }
    MissingBound(mem, root, PathOf(vp0 + k));
  }

  // One round of the loop of `vmm_map_range`: take a frame and map it at page `virt`.
  method MapFresh(m: Machine, root: nat, virt: Word, flags: Word) returns (page: nat)
    requires World(m) && root in m.spaces.roots && IsFlags(flags)
    requires m.Remaining() >= 1 + Missing(m.frames, root, PathOf(Vpn(virt)))
    modifies m`frames, m`head, m`book, m`fillEntry, m`fillOffset, m`lazyBytes
    ensures World(m) && m.Remaining() >= old(m.Remaining()) - 1 - old(Missing(m.frames, root, PathOf(Vpn(virt))))
    ensures Missing(m.frames, root, PathOf(Vpn(virt))) == 0
    ensures old(m.book.out) + {page} <= m.book.out && page !in old(m.book.out) && page < 0x100_0000_0000
    ensures page * 4096 < 0x1_0000_0000_0000_0000
    ensures Mapped(old(m.frames), m.frames, m.spaces.roots, old(m.book.out), root, PathOf(Vpn(virt)), Leaf(page * 4096, flags))
    ensures Granted(m.frames, root, PathOf(Vpn(virt)), 4, flags)
    ensures page in m.frames.pages && m.frames.pages[page] == ZeroPage() && Fresh(m.frames, m.spaces.roots, page)
  {
    hide *;
    ghost var mem0, out0, roots := m.frames, m.book.out, m.spaces.roots;
    WorldParts(m);
    page := FpmmAllocatePage(m);
    ghost var mem1, out1 := m.frames, m.book.out;
    AllocateGrows(mem0, mem1, m.spaces, m.kernelPml4, out0);
    ExtendsOf(mem0, mem1, roots, out0);
    MissingLess(mem0, mem1, roots, root, PathOf(Vpn(virt)));
    AddressIsFrame(page);
    MoreTables(mem1, m.spaces, m.kernelPml4, out0, out1);
    WorldParts(m);
    NewIsData(mem1, m.spaces, m.kernelPml4, out0, page);
    FramePart(page);
    MapPage(m, virt, page * 4096, flags, root);
    KeptData(mem1, m.frames, roots, out1, root, PathOf(Vpn(virt)), Leaf(page * 4096, flags), page);
    GrownThenMapped(mem0, mem1, m.frames, roots, out0, out1, root, PathOf(Vpn(virt)), Leaf(page * 4096, flags));
  }

  lemma AddressIsFrame(f: nat)
    requires Addressable(f)
    ensures f < 0x100_0000_0000
  {
  }

  lemma MoreTables(mem: Mem, sp: Spaces, kernel: nat, out: set<nat>, out': set<nat>)
    requires SpacesOk(mem, sp, kernel, out) && out <= out'
    ensures SpacesOk(mem, sp, kernel, out')
  {
    hide Tree; hide KernelAgrees; hide Follow;
  }

  lemma NewIsData(mem: Mem, sp: Spaces, kernel: nat, out: set<nat>, f: nat)
    requires SpacesOk(mem, sp, kernel, out) && f !in out
    ensures Fresh(mem, sp.roots, f)
  {
    hide Tree; hide KernelAgrees; hide Follow;
  }

  lemma KeptData(mem: Mem, mem': Mem, roots: set<nat>, out: set<nat>, r0: nat, q: seq<nat>, w: Word, f: nat)
    requires |q| == 4 && Mapped(mem, mem', roots, out, r0, q, w)
    requires f in out && f in mem.pages && Fresh(mem, roots, f)
    ensures f in mem'.pages && mem'.pages[f] == mem.pages[f] && Fresh(mem', roots, f)
  {
    hide Fresh; hide Maps;
  }

  lemma TakenAnother(mem: Mem, mem': Mem, roots: set<nat>, out0: set<nat>, out: set<nat>, out': set<nat>, got: seq<nat>,
                     page: nat, r0: nat, q: seq<nat>, w: Word)
    requires Taken(mem, roots, out0, out, got) && out0 <= out && out + {page} <= out'
    requires |q| == 4 && Mapped(mem, mem', roots, out, r0, q, w)
    requires page !in out && page < 0x100_0000_0000
    requires page in mem'.pages && mem'.pages[page] == ZeroPage() && Fresh(mem', roots, page)
    ensures Taken(mem', roots, out0, out', got + [page])
  {
    hide NoRepeats; hide Fresh; hide Maps;
    TakenKept(mem, mem', roots, out0, out, out', got);
    assert page !in got;
    AppendDistinct1(got, page);
  }

  // Maps fresh, cleared, distinct frames at the pages of the range; the start is rounded up.
  method VmmMapRange(m: Machine, root: nat, virtStart: Word, size: nat, flags: Word)
    returns (start: nat, ghost got: seq<nat>)
    requires World(m) && root in m.spaces.roots && IsFlags(flags)
    requires m.Remaining() >= FramesFor(Vpn(AlignUp(virtStart)), PagesFor(size))
    requires AlignUp(virtStart) + PagesFor(size) * PAGE_SIZE <= 0x1_0000_0000_0000_0000
    requires Vpn(AlignUp(virtStart)) + PagesFor(size) <= PAGES
    modifies m`frames, m`head, m`book, m`fillEntry, m`fillOffset, m`lazyBytes
    ensures World(m) && m.Remaining() >= old(m.Remaining()) - FramesFor(Vpn(AlignUp(virtStart)), PagesFor(size))
    ensures start == AlignUp(virtStart) && |got| == PagesFor(size)
    ensures old(m.book.out) <= m.book.out && Taken(m.frames, m.spaces.roots, old(m.book.out), m.book.out, got)
    ensures forall i :: 0 <= i < |got| ==> got[i] < 0x100_0000_0000
    ensures Ranged(old(m.frames), m.frames, m.spaces.roots, old(m.book.out), root, Vpn(start), Leaves(got, flags))
    ensures RangeGranted(m.frames, root, Vpn(start), |got|, flags)
  {
    hide *;
    start, got := AlignUp(virtStart), [];
    var n := PagesFor(size);
    SizeCovered(virtStart, size);
    WorldParts(m);
    ghost var mem0, out0, roots, left := m.frames, m.book.out, m.spaces.roots, m.Remaining();
    NothingTaken(mem0, roots, out0);
    RangedNothing(mem0, roots, out0, root, Vpn(start));
    LeavesNothing(flags);
    FramesNone(Vpn(start));
    NoneGranted(m.frames, root, Vpn(start), flags);
    for idx := 0 to n
      invariant m.Valid() && World(m) && m.Remaining() >= left - FramesFor(Vpn(start), idx)
      invariant idx > 0 ==> Missing(m.frames, root, PathOf(Vpn(start) + idx - 1)) == 0
      invariant |got| == idx && out0 <= m.book.out && Taken(m.frames, roots, out0, m.book.out, got)
      invariant forall i :: 0 <= i < |got| ==> got[i] < 0x100_0000_0000
      invariant Ranged(mem0, m.frames, roots, out0, root, Vpn(start), Leaves(got, flags))
      invariant RangeGranted(m.frames, root, Vpn(start), idx, flags)
    {
      ghost var mem1, out1 := m.frames, m.book.out;
      RangeAddress(start, idx, n);
      FramesStep(Vpn(start), idx, n);
      MissingInRange(m.frames, root, Vpn(start), idx);
      var page := MapFresh(m, root, start + idx * 4096, flags);
      LeavesAppend(got, page, flags);
      TakenAnother(mem1, m.frames, roots, out0, out1, m.book.out, got, page, root, PathOf(Vpn(start + idx * 4096)), Leaf(page * 4096, flags));
      RangedStep(mem0, mem1, m.frames, roots, out0, out1, root, Vpn(start), Leaves(got, flags), Leaf(page * 4096, flags));
      RangeGrantedStep(mem1, m.frames, roots, out1, root, Vpn(start), idx, Leaf(page * 4096, flags), flags);
      got := got + [page];
      WorldParts(m);
    }
  }

  lemma RangeAddress(start: nat, idx: nat, n: nat)
    requires start % PAGE_SIZE == 0 && idx < n && start + n * PAGE_SIZE <= 0x1_0000_0000_0000_0000
    requires Vpn(start) + n <= PAGES
    ensures start + idx * 4096 < 0x1_0000_0000_0000_0000
    ensures Vpn(start) + idx < PAGES && Vpn(start + idx * 4096) == Vpn(start) + idx
  {
    VpnStep(start, idx);
  }

  lemma LeavesNothing(flags: Word)
    requires IsFlags(flags)
    ensures Leaves([], flags) == []
  {
  }
}
