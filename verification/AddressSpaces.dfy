/** Creating the address space of a process: an empty user half over the kernel's own upper half. */
module AddressSpaces {
  import opened Prelude
  import opened Words
  import opened PageTables
  import opened Trees
  import opened Machines
  import opened FreelistPmm
  import opened Vmm
  import opened Ranges

  // The top-level table in frame `f` has an empty lower half and the upper half of table `k`.
  ghost predicate CopiesUpperHalf(mem: Mem, k: nat, f: nat) {
    k in mem.pages && f in mem.pages &&
    forall i :: 0 <= i < 512 ==> mem.pages[f][i] == if i >= 256 then mem.pages[k][i] else 0
  }

  lemma CopiedLink(mem: Mem, k: nat, f: nat, s: nat)
    requires CopiesUpperHalf(mem, k, f)
    ensures Link(mem, f, s) == if s >= 256 then Link(mem, k, s) else None
  {
  }

  lemma {:induction false} CopiedFollow(mem: Mem, k: nat, f: nat, q: seq<nat>)
    requires CopiesUpperHalf(mem, k, f) && q != []
    ensures Follow(mem, f, q) == if q[0] >= 256 then Follow(mem, k, q) else None
    decreases |q|
  {
    hide CopiesUpperHalf; hide Link;
    var n := |q| - 1;
    if n == 0 {
      assert q[..0] == [];
      CopiedLink(mem, k, f, q[0]);
    } else {
      CopiedFollow(mem, k, f, q[..n]);
    }
  }

  lemma CopiedApart(mem: Mem, roots: set<nat>, k: nat, f: nat, q: seq<nat>, r': nat, q': seq<nat>)
    requires Tree(mem, roots) && k in roots && Fresh(mem, roots, f) && CopiesUpperHalf(mem, k, f)
    requires |q| <= 3 && |q'| <= 3 && r' in roots + {f}
    ensures Apart(mem, f, q, r', q')
  {
    hide CopiesUpperHalf; hide Tree;
    RootItself(mem, f);
    if q != [] { CopiedFollow(mem, k, f, q); CopiedFollow(mem, k, f, [q[0]]); }
    if q' != [] { CopiedFollow(mem, k, f, q'); CopiedFollow(mem, k, f, [q'[0]]); }
    if Follow(mem, f, q).Some? && Follow(mem, f, q) == Follow(mem, r', q') {
      if r' == f {
        CopiedSelf(mem, roots, k, f, q, q');
      } else {
        CopiedOther(mem, roots, k, f, q, r', q');
      }
    }
  }

  lemma CopiedSelf(mem: Mem, roots: set<nat>, k: nat, f: nat, q: seq<nat>, q': seq<nat>)
    requires Tree(mem, roots) && k in roots && Fresh(mem, roots, f) && |q| <= 3 && |q'| <= 3
    requires Follow(mem, f, []) == Some(f) && Follow(mem, f, q).Some? && Follow(mem, f, q) == Follow(mem, f, q')
    requires q != [] ==> Follow(mem, f, q) == if q[0] >= 256 then Follow(mem, k, q) else None
    requires q' != [] ==> Follow(mem, f, q') == if q'[0] >= 256 then Follow(mem, k, q') else None
    ensures q == q'
  {
    hide Follow; hide Tree;
    if q != [] && q' != [] {
      OnePath(mem, roots, k, q, k, q');
    }
  }

  lemma CopiedOther(mem: Mem, roots: set<nat>, k: nat, f: nat, q: seq<nat>, r': nat, q': seq<nat>)
    requires Tree(mem, roots) && k in roots && r' in roots && Fresh(mem, roots, f) && |q| <= 3 && |q'| <= 3
    requires Follow(mem, f, []) == Some(f) && Follow(mem, f, q).Some? && Follow(mem, f, q) == Follow(mem, r', q')
    requires q != [] ==> Follow(mem, f, q) == if q[0] >= 256 then Follow(mem, k, q) else None
    requires q != [] && q[0] >= 256 ==> Follow(mem, f, [q[0]]) == Follow(mem, k, [q[0]])
    ensures q != [] && q == q' && Shares(mem, f, r', q[0])
  {
    hide Follow; hide Tree;
    assert q != [];
    OnePath(mem, roots, k, q, r', q');
    SlotPresent(mem, k, q);
  }

  lemma SlotPresent(mem: Mem, r: nat, q: seq<nat>)
    requires q != [] && Follow(mem, r, q).Some?
    ensures Follow(mem, r, [q[0]]).Some?
  {
    FollowPrefix(mem, r, q, 1);
    assert q[..1] == [q[0]];
  }

  lemma ApartSymmetric(mem: Mem, r: nat, q: seq<nat>, r': nat, q': seq<nat>)
    requires Apart(mem, r, q, r', q')
    ensures Apart(mem, r', q', r, q)
  {
    hide Follow;
  }

  lemma CopiedTree(mem: Mem, roots: set<nat>, k: nat, f: nat)
    requires Tree(mem, roots) && k in roots && Fresh(mem, roots, f) && CopiesUpperHalf(mem, k, f)
    ensures Tree(mem, roots + {f})
  {
    hide Apart; hide CopiesUpperHalf; hide Fresh;
    forall r, q, r', q' | r in roots + {f} && r' in roots + {f} && |q| <= 3 && |q'| <= 3
      ensures Apart(mem, r, q, r', q')
    {
      if r == f {
        CopiedApart(mem, roots, k, f, q, r', q');
      } else if r' == f {
        CopiedApart(mem, roots, k, f, q', r, q);
        ApartSymmetric(mem, f, q', r, q);
      }
    }
  }

  lemma CopiedTables(mem: Mem, roots: set<nat>, k: nat, f: nat, out: set<nat>)
    requires k in roots && CopiesUpperHalf(mem, k, f) && TablesWithin(mem, roots, out) && f in out
    ensures TablesWithin(mem, roots + {f}, out)
  {
    hide CopiesUpperHalf;
    forall r, q | r in roots + {f} && |q| <= 3 && Follow(mem, r, q).Some?
      ensures Follow(mem, r, q).value in out
    {
      if q != [] { CopiedFollow(mem, k, f, q); }
    }
  }

  lemma CopiedOpen(mem: Mem, roots: set<nat>, k: nat, f: nat)
    requires k in roots && CopiesUpperHalf(mem, k, f) && Open(mem, roots)
    ensures Open(mem, roots + {f})
  {
    hide CopiesUpperHalf; hide NoExecute; hide PteOf;
    forall q: seq<nat> | 1 <= |q| <= 3 ensures !NoExecute(PteOf(mem, f, q)) {
      CopiedWord(mem, k, f, q);
      assert !NoExecute(PteOf(mem, k, q));
    }
  }

  lemma CopiedWord(mem: Mem, k: nat, f: nat, q: seq<nat>)
    requires CopiesUpperHalf(mem, k, f) && q != []
    ensures PteOf(mem, f, q) == (if q[0] >= 256 then PteOf(mem, k, q) else 0) && !NoExecute(0)
  {
    var front := q[..|q| - 1];
    if front == [] {
      RootItself(mem, f); RootItself(mem, k);
    } else {
      CopiedFollow(mem, k, f, front);
    }
  }

  // The kernel-half slots present in table `k`.
  function PresentSlots(mem: Mem, k: nat): set<nat> {
    set s: nat | 256 <= s < 512 && Link(mem, k, s).Some?
  }

  lemma OneStep(mem: Mem, r: nat, s: nat)
    ensures Follow(mem, r, [s]) == Link(mem, r, s)
  {
    RootItself(mem, r);
    assert [s][..0] == [];
  }

  lemma CopiedSpaces(mem: Mem, sp: Spaces, k: nat, f: nat, out: set<nat>)
    requires SpacesOk(mem, sp, k, out) && f in out && Fresh(mem, sp.roots, f) && CopiesUpperHalf(mem, k, f)
    ensures SpacesOk(mem, Spaces(sp.roots + {f}, sp.slots[f := PresentSlots(mem, k)]), k, out)
  {
    hide Tree; hide CopiesUpperHalf; hide TablesWithin; hide Follow; hide Link; hide Fresh; hide Open;
    CopiedTree(mem, sp.roots, k, f);
    CopiedTables(mem, sp.roots, k, f, out);
    CopiedOpen(mem, sp.roots, k, f);
    var sp' := Spaces(sp.roots + {f}, sp.slots[f := PresentSlots(mem, k)]);
    RootIsTable(mem, sp.roots, k, f);
    forall r, s | r in sp'.roots && r != k && r in sp'.slots && s in sp'.slots[r] ensures Shares(mem, r, k, s) {
      if r == f {
        CopiedLink(mem, k, f, s);
        OneStep(mem, f, s); OneStep(mem, k, s);
      } else {
        assert s in sp.slots[r];
      }
    }
  }

  lemma RootIsTable(mem: Mem, roots: set<nat>, r: nat, f: nat)
    requires r in roots && Fresh(mem, roots, f)
    ensures r != f
  {
    RootItself(mem, r);
  }

  // The user half of a new space is empty; its kernel half is the kernel's.
  lemma CopiedTranslation(mem: Mem, k: nat, f: nat, vp: nat)
    requires CopiesUpperHalf(mem, k, f)
    ensures Translate(mem, f, vp) == if PathOf(vp)[0] >= 256 then Translate(mem, k, vp) else None
  {
    hide CopiesUpperHalf;
    CopiedFollow(mem, k, f, PathOf(vp));
  }

  // Copies entries 256 to 511 of the kernel's table into the cleared table `f`.
  method CopyUpperHalf(m: Machine, f: nat)
    requires m.Valid() && f in m.book.out && m.kernelPml4 in m.book.out && f != m.kernelPml4
    requires f in m.frames.pages && m.frames.pages[f] == ZeroPage()
    modifies m`frames
    ensures m.Valid() && m.Remaining() == old(m.Remaining())
    ensures CopiesUpperHalf(m.frames, m.kernelPml4, f)
    ensures Keeps(old(m.frames), m.frames, m.book.out - {f})
  {
    hide Machine.Valid; hide Machine.Remaining; hide Store;
    OutApart(m);
    for i := 256 to 512
      invariant m.Valid() && m.Remaining() == old(m.Remaining())
      invariant Keeps(old(m.frames), m.frames, m.book.out - {f})
      invariant f in m.frames.pages && m.kernelPml4 in m.frames.pages
      invariant forall j :: 0 <= j < 512 ==> m.frames.pages[f][j] == if 256 <= j < i then m.frames.pages[m.kernelPml4][j] else 0
    {
      StoreElsewhere(m.frames, f, i, m.frames.pages[m.kernelPml4][i]);
      WriteEntry(m, f, i, m.frames.pages[m.kernelPml4][i]);
    }
  }

  lemma StoreElsewhere(mem: Mem, f: nat, i: nat, w: Word)
    requires f in mem.pages && i < 512
    ensures Store(mem, f, i, w).pages.Keys == mem.pages.Keys
    ensures forall g :: g in mem.pages && g != f ==> Store(mem, f, i, w).pages[g] == mem.pages[g]
    ensures Store(mem, f, i, w).pages[f] == mem.pages[f][i := w]
  {
  }

  lemma KeepsBoth(a: Mem, b: Mem, c: Mem, out: set<nat>, out': set<nat>)
    requires Keeps(a, b, out) && Keeps(b, c, out') && out <= out'
    ensures Keeps(a, c, out)
  {
  }

  lemma SpacesParts(mem: Mem, sp: Spaces, k: nat, out: set<nat>)
    requires SpacesOk(mem, sp, k, out)
    ensures k in sp.roots && k in out
  {
    RootItself(mem, k);
  }

  lemma UserTranslations(mem: Mem, k: nat, f: nat)
    requires CopiesUpperHalf(mem, k, f)
    ensures forall vp: nat :: Translate(mem, f, vp) == if PathOf(vp)[0] >= 256 then Translate(mem, k, vp) else None
  {
    forall vp: nat ensures Translate(mem, f, vp) == if PathOf(vp)[0] >= 256 then Translate(mem, k, vp) else None {
      CopiedTranslation(mem, k, f, vp);
    }
  }

  // A new space: its user half is empty and its kernel half translates as the kernel's does.
  method CreateUserPml4(m: Machine) returns (f: nat)
    requires World(m) && m.Remaining() >= 1
    modifies m`frames, m`head, m`book, m`fillEntry, m`fillOffset, m`lazyBytes, m`spaces
    ensures World(m) && m.Remaining() >= old(m.Remaining()) - 1
    ensures f !in old(m.book.out) && f !in old(m.spaces.roots) && m.book.out == old(m.book.out) + {f}
    ensures m.spaces == Spaces(old(m.spaces.roots) + {f}, old(m.spaces.slots)[f := PresentSlots(m.frames, m.kernelPml4)])
    ensures forall vp: nat :: Translate(m.frames, f, vp) ==
              if PathOf(vp)[0] >= 256 then Translate(m.frames, m.kernelPml4, vp) else None
    ensures Grown(old(m.frames), m.frames, old(m.spaces.roots), old(m.book.out))
    ensures CopiesUpperHalf(m.frames, m.kernelPml4, f)
  {
    hide *;
    WorldParts(m);
    ghost var mem0, out0, sp, k := m.frames, m.book.out, m.spaces, m.kernelPml4;
    SpacesParts(mem0, sp, k, out0);
    f := FpmmAllocatePage(m);
    ghost var mem1, out1 := m.frames, m.book.out;
    CopyUpperHalf(m, f);
    KeepsBoth(mem0, mem1, m.frames, out0, out1 - {f});
    AllocateGrows(mem0, m.frames, sp, k, out0);
    NewIsData(m.frames, sp, k, out0, f);
    MoreTables(m.frames, sp, k, out0, out1);
    CopiedSpaces(m.frames, sp, k, f, out1);
    UserTranslations(m.frames, k, f);
    FreshRoot(m.frames, sp.roots, f);
    m.spaces := Spaces(sp.roots + {f}, sp.slots[f := PresentSlots(m.frames, k)]);
    WorldParts(m);
  }

  lemma FreshRoot(mem: Mem, roots: set<nat>, f: nat)
    requires Fresh(mem, roots, f)
    ensures f !in roots
  {
    if f in roots {
      RootIsTable(mem, roots, f, f);
    }
  }
}
