/** All user spaces together: each owns its pages, and no page belongs to two of them. */
module Ownership {
  import opened Prelude
  import opened Lists
  import opened Words
  import opened PageTables
  import opened Trees
  import opened MemoryMap
  import opened Machines
  import opened Vmm
  import opened Ranges
  import opened AddressSpaces
  import opened Teardown

  // A page of the user half outside the framebuffer window.
  predicate UserPage(q: seq<nat>, fb: nat) { |q| == 4 && Visited(q, fb) }

  // The frame of a page was handed out and is no table.
  ghost predicate PageOk(mem: Mem, roots: set<nat>, out: set<nat>, r: nat, q: seq<nat>) {
    Follow(mem, r, q).Some? ==> Follow(mem, r, q).value in out && Fresh(mem, roots, Follow(mem, r, q).value)
  }

  // A frame is one page of one space only.
  ghost predicate OnePage(mem: Mem, r: nat, q: seq<nat>, r': nat, q': seq<nat>) {
    Follow(mem, r, q).Some? && Follow(mem, r, q) == Follow(mem, r', q') ==> r == r' && q == q'
  }

  ghost predicate Owners(mem: Mem, roots: set<nat>, users: set<nat>, out: set<nat>, fb: nat) {
    && (forall r, q :: r in users && UserPage(q, fb) ==> PageOk(mem, roots, out, r, q))
    && (forall r, q, r', q' :: r in users && r' in users && UserPage(q, fb) && UserPage(q', fb) ==> OnePage(mem, r, q, r', q'))
  }

  function Users(sp: Spaces, kernel: nat): set<nat> { sp.roots - {kernel} }

  // The invariant of all address spaces with the ownership of their pages.
  ghost predicate Owned(m: Machine, fb: nat)
    reads m
  {
    World(m) && Owners(m.frames, m.spaces.roots, Users(m.spaces, m.kernelPml4), m.book.out, fb)
  }

  // What destroying one of the spaces asks for.
  lemma OwnersOwn(mem: Mem, roots: set<nat>, users: set<nat>, out: set<nat>, fb: nat, root: nat)
    requires Owners(mem, roots, users, out, fb) && root in users
    ensures OwnedSpace(mem, roots, out, root, fb)
  {
    hide Follow; hide Visited; hide Fresh;
    forall q | Visited(q, fb) && |q| == 4 && Follow(mem, root, q).Some?
      ensures Follow(mem, root, q).value in out && Fresh(mem, roots, Follow(mem, root, q).value)
    {
      assert UserPage(q, fb);
      assert PageOk(mem, roots, out, root, q);
    }
    forall q, q' | Visited(q, fb) && |q| == 4 && Visited(q', fb) && |q'| == 4 && Follow(mem, root, q).Some? &&
                   Follow(mem, root, q) == Follow(mem, root, q')
      ensures q == q'
    {
      assert UserPage(q, fb) && UserPage(q', fb);
      assert OnePage(mem, root, q, root, q');
    }
  }

  lemma NoUsers(mem: Mem, roots: set<nat>, out: set<nat>, fb: nat)
    ensures Owners(mem, roots, {}, out, fb)
  {
  }

  // ----- creating a space -----

  lemma LeafFollow(mem: Mem, mem': Mem, r: nat, q: seq<nat>)
    requires q != [] && PteOf(mem', r, q) == PteOf(mem, r, q)
    ensures Follow(mem', r, q) == Follow(mem, r, q)
  {
  }

  lemma CreateFresh(mem: Mem, roots: set<nat>, k: nat, f: nat, x: nat)
    requires CopiesUpperHalf(mem, k, f) && k in roots && x != f && Fresh(mem, roots, x)
    ensures Fresh(mem, roots + {f}, x)
  {
    hide Follow; hide CopiesUpperHalf;
    RootItself(mem, f);
    forall r, p | r in roots + {f} && |p| <= 3 ensures Follow(mem, r, p) != Some(x) {
      if r == f && p != [] { CopiedFollow(mem, k, f, p); }
    }
  }

  lemma CreateKeeps(mem: Mem, mem': Mem, roots: set<nat>, users: set<nat>, out: set<nat>, k: nat, f: nat, fb: nat)
    requires Owners(mem, roots, users, out, fb) && users <= roots && k in roots && out <= mem.pages.Keys
    requires Grown(mem, mem', roots, out) && CopiesUpperHalf(mem', k, f) && f !in out && f !in roots
    ensures Owners(mem', roots + {f}, users + {f}, out + {f}, fb)
  {
    hide Follow; hide CopiesUpperHalf; hide Visited; hide Fresh; hide PteOf; hide Owners; hide Shares; hide Covers;
    forall r, q | r in users + {f} && UserPage(q, fb)
      ensures r != f ==> Follow(mem', r, q) == Follow(mem, r, q)
      ensures r == f ==> Follow(mem', r, q).None?
      ensures PageOk(mem', roots + {f}, out + {f}, r, q)
    {
      if r == f {
        UserSlot(q, fb);
        CopiedFollow(mem', k, f, q);
      } else {
        LeafFollow(mem, mem', r, q);
        PageAt4(mem, roots, users, out, fb, r, q);
        if Follow(mem, r, q).Some? {
          CreateFresh(mem', roots, k, f, Follow(mem, r, q).value);
        }
      }
    }
    forall r, q, r', q' | r in users + {f} && r' in users + {f} && UserPage(q, fb) && UserPage(q', fb)
      ensures OnePage(mem', r, q, r', q')
    {
      if r != f && r' != f { PagesOne(mem, roots, users, out, fb, r, q, r', q'); }
    }
    OwnersAre(mem', roots + {f}, users + {f}, out + {f}, fb);
  }

  lemma UserSlot(q: seq<nat>, fb: nat)
    requires UserPage(q, fb)
    ensures q[0] < 256
  {
  }

  lemma PageAt4(mem: Mem, roots: set<nat>, users: set<nat>, out: set<nat>, fb: nat, r: nat, q: seq<nat>)
    requires Owners(mem, roots, users, out, fb) && r in users && UserPage(q, fb)
    ensures PageOk(mem, roots, out, r, q)
  {
  }

  lemma PagesOne(mem: Mem, roots: set<nat>, users: set<nat>, out: set<nat>, fb: nat, r: nat, q: seq<nat>, r': nat, q': seq<nat>)
    requires Owners(mem, roots, users, out, fb) && r in users && UserPage(q, fb) && r' in users && UserPage(q', fb)
    ensures OnePage(mem, r, q, r', q')
  {
  }

  lemma OwnersAre(mem: Mem, roots: set<nat>, users: set<nat>, out: set<nat>, fb: nat)
    requires forall r, q :: r in users && UserPage(q, fb) ==> PageOk(mem, roots, out, r, q)
    requires forall r, q, r', q' :: r in users && r' in users && UserPage(q, fb) && UserPage(q', fb) ==> OnePage(mem, r, q, r', q')
    ensures Owners(mem, roots, users, out, fb)
  {
  }

  // ----- mapping a range -----

  // Only pages of the space that is mapped change in anybody's user half.
  lemma PageEntry(mem: Mem, mem': Mem, roots: set<nat>, out: set<nat>, r0: nat, vp0: nat, got: seq<nat>, ws: seq<Word>,
                  r: nat, q: seq<nat>, fb: nat)
    requires LeadTo(ws, got)
    requires r in roots && Ranged(mem, mem', roots, out, r0, vp0, ws) && UserPage(q, fb)
    ensures var vp := PageAt(q);
      Follow(mem', r, q) == if r == r0 && vp0 <= vp < vp0 + |got| then Some(got[vp - vp0]) else Follow(mem, r, q)
  {
    hide Follow; hide PathOf; hide PageAt; hide UpperKept; hide DataKept; hide Leaf; hide Visited;
    hide Sees; hide Pte; hide Translate;
    var vp := PageAt(q);
    UserSlot(q, fb);
    PagePath(mem, r, q, fb);
    PagePath(mem', r, q, fb);
    SeesOwn(mem, r, r0, vp);
    TranslateIsPte(mem, r, vp);
    TranslateIsPte(mem', r, vp);
  }

  lemma PagePath(mem: Mem, r: nat, q: seq<nat>, fb: nat)
    requires UserPage(q, fb)
    ensures PathOf(PageAt(q)) == q && PageAt(q) < PAGES && Follow(mem, r, q) == Translate(mem, r, PageAt(q))
  {
    PageAtPath(q);
  }

  lemma SeesOwn(mem: Mem, r: nat, r0: nat, vp: nat)
    requires PathOf(vp)[0] < 256
    ensures Sees(mem, r, r0, vp) <==> r == r0
  {
  }

  lemma SamePage(q: seq<nat>, q': seq<nat>, fb: nat)
    requires UserPage(q, fb) && UserPage(q', fb)
    ensures PageAt(q) == PageAt(q') ==> q == q'
  {
    PageAtPath(q);
    PageAtPath(q');
  }

  lemma TakenApart(mem: Mem, roots: set<nat>, out0: set<nat>, out: set<nat>, got: seq<nat>, i: int, j: int)
    requires Taken(mem, roots, out0, out, got)
    ensures 0 <= i < |got| && 0 <= j < |got| && got[i] == got[j] ==> i == j
    ensures 0 <= i < |got| ==> got[i] !in out0 && got[i] in out && Fresh(mem, roots, got[i])
    ensures 0 <= j < |got| ==> got[j] !in out0
  {
    hide Fresh;
    if 0 <= i < |got| { assert got[i] in got; }
    if 0 <= j < |got| { assert got[j] in got; }
  }

  lemma DataStays(mem: Mem, mem': Mem, roots: set<nat>, out: set<nat>, r0: nat, vp0: nat, ws: seq<Word>, x: nat)
    requires Ranged(mem, mem', roots, out, r0, vp0, ws) && x in out && x in mem.pages && Fresh(mem, roots, x)
    ensures Fresh(mem', roots, x)
  {
    hide Fresh;
  }

  lemma MapKeepsPage(mem: Mem, mem': Mem, roots: set<nat>, users: set<nat>, out: set<nat>, out': set<nat>, r0: nat, vp0: nat,
                     got: seq<nat>, ws: seq<Word>, fb: nat, r: nat, q: seq<nat>)
    requires LeadTo(ws, got)
    requires Ranged(mem, mem', roots, out, r0, vp0, ws) && Taken(mem', roots, out, out', got)
    requires Owners(mem, roots, users, out, fb) && users <= roots && out <= out' && out <= mem.pages.Keys
    requires r in users && UserPage(q, fb)
    ensures PageOk(mem', roots, out', r, q)
  {
    hide Follow; hide PageAt; hide Visited; hide Fresh; hide LeadTo; hide Owners; hide Taken; hide Ranged;
    PageEntry(mem, mem', roots, out, r0, vp0, got, ws, r, q, fb);
    PageAt4(mem, roots, users, out, fb, r, q);
    TakenApart(mem', roots, out, out', got, PageAt(q) - vp0, -1);
    if Follow(mem, r, q).Some? { DataStays(mem, mem', roots, out, r0, vp0, ws, Follow(mem, r, q).value); }
  }

  lemma MapKeepsPair(mem: Mem, mem': Mem, roots: set<nat>, users: set<nat>, out: set<nat>, out': set<nat>, r0: nat, vp0: nat,
                     got: seq<nat>, ws: seq<Word>, fb: nat, r: nat, q: seq<nat>, r': nat, q': seq<nat>)
    requires LeadTo(ws, got)
    requires Ranged(mem, mem', roots, out, r0, vp0, ws) && Taken(mem', roots, out, out', got)
    requires Owners(mem, roots, users, out, fb) && users <= roots
    requires r in users && UserPage(q, fb) && r' in users && UserPage(q', fb)
    ensures OnePage(mem', r, q, r', q')
  {
    hide Follow; hide PageAt; hide Visited; hide Fresh; hide LeadTo; hide Owners; hide Taken; hide Ranged;
    PageEntry(mem, mem', roots, out, r0, vp0, got, ws, r, q, fb);
    PageEntry(mem, mem', roots, out, r0, vp0, got, ws, r', q', fb);
    PageAt4(mem, roots, users, out, fb, r, q);
    PageAt4(mem, roots, users, out, fb, r', q');
    PagesOne(mem, roots, users, out, fb, r, q, r', q');
    SamePage(q, q', fb);
    TakenApart(mem', roots, out, out', got, PageAt(q) - vp0, PageAt(q') - vp0);
  }

  // Mapping fresh frames into any of the spaces, or into the kernel's, keeps the ownership of all.
  lemma MapKeeps(mem: Mem, mem': Mem, roots: set<nat>, users: set<nat>, out: set<nat>, out': set<nat>, r0: nat, vp0: nat,
                 got: seq<nat>, ws: seq<Word>, fb: nat)
    requires LeadTo(ws, got)
    requires Ranged(mem, mem', roots, out, r0, vp0, ws) && Taken(mem', roots, out, out', got)
    requires Owners(mem, roots, users, out, fb) && users <= roots && out <= out' && out <= mem.pages.Keys
    ensures Owners(mem', roots, users, out', fb)
  {
    hide *;
    forall r, q | r in users && UserPage(q, fb) ensures PageOk(mem', roots, out', r, q) {
      MapKeepsPage(mem, mem', roots, users, out, out', r0, vp0, got, ws, fb, r, q);
    }
    forall r, q, r', q' | r in users && r' in users && UserPage(q, fb) && UserPage(q', fb) ensures OnePage(mem', r, q, r', q') {
      MapKeepsPair(mem, mem', roots, users, out, out', r0, vp0, got, ws, fb, r, q, r', q');
    }
    OwnersAre(mem', roots, users, out', fb);
  }

  // ----- destroying a space -----

  lemma NotReturned(mem: Mem, roots: set<nat>, users: set<nat>, out: set<nat>, fb: nat, root: nat, r: nat, q: seq<nat>)
    requires Tree(mem, roots) && TablesWithin(mem, roots, out) && users <= roots
    requires Owners(mem, roots, users, out, fb) && root in users && r in users && r != root && UserPage(q, fb)
    ensures Follow(mem, r, q).Some? ==> Follow(mem, r, q).value !in Returned(mem, root, fb)
  {
    hide Follow; hide Tree; hide Returned; hide PageAt; hide Owners; hide InFramebuffer;
    if Follow(mem, r, q).Some? {
      var x := Follow(mem, r, q).value;
      PageAt4(mem, roots, users, out, fb, r, q);
      OwnersOwn(mem, roots, users, out, fb, root);
      OwnedReturnable(mem, roots, Book([], out), root, fb);
      ReturnedOnce(mem, root, fb);
      forall p | Visited(p, fb) && Follow(mem, root, p) == Some(x) ensures false {
        if |p| == 4 { PagesOne(mem, roots, users, out, fb, root, p, r, q); }
      }
    }
  }

  lemma DestroyKeeps(mem: Mem, mem': Mem, roots: set<nat>, users: set<nat>, b: Book, root: nat, fb: nat)
    requires Tree(mem, roots) && TablesWithin(mem, roots, b.out) && users <= roots && root in users
    requires Owners(mem, roots, users, b.out, fb)
    requires forall r, q :: r in roots - {root} && |q| <= 4 ==> Follow(mem', r, q) == Follow(mem, r, q)
    ensures Owners(mem', roots - {root}, users - {root}, Freed(b, Returned(mem, root, fb)).out, fb)
  {
    hide Follow; hide Tree; hide Returned; hide Owners; hide Visited; hide TablesWithin;
    var roots', users', out' := roots - {root}, users - {root}, Freed(b, Returned(mem, root, fb)).out;
    forall r, q | r in users' && UserPage(q, fb) ensures PageOk(mem', roots', out', r, q) {
      PageAt4(mem, roots, users, b.out, fb, r, q);
      NotReturned(mem, roots, users, b.out, fb, root, r, q);
      FreedOut(b, Returned(mem, root, fb));
    }
    forall r, q, r', q' | r in users' && r' in users' && UserPage(q, fb) && UserPage(q', fb) ensures OnePage(mem', r, q, r', q') {
      PagesOne(mem, roots, users, b.out, fb, r, q, r', q');
    }
    OwnersAre(mem', roots', users', out', fb);
  }

  lemma FreedOut(b: Book, l: seq<nat>)
    ensures forall x :: x in b.out && x !in l ==> x in Freed(b, l).out
  {
  }

  // ----- any sequence of these operations -----

  // Spaces are named by their place in the list of live ones.
  datatype SpaceOp = Create | Map(i: nat, virt: Word, size: nat, flags: Word) | Destroy(i: nat)

  predicate OpOk(op: SpaceOp) {
    op.Map? ==> && IsFlags(op.flags) && AlignUp(op.virt) + PagesFor(op.size) * PAGE_SIZE <= 0x1_0000_0000_0000_0000
                && Vpn(AlignUp(op.virt)) + PagesFor(op.size) <= PAGES
  }

  function OpFrames(op: SpaceOp): nat {
    match op
    case Create => 1
    case Map(_, virt, size, _) => FramesFor(Vpn(AlignUp(virt)), PagesFor(size))
    case Destroy(_) => 0
  }

  function RunFrames(ops: seq<SpaceOp>): nat {
    if ops == [] then 0 else OpFrames(ops[0]) + RunFrames(ops[1..])
  }

  // The list names exactly the user spaces.
  ghost predicate Names(sp: Spaces, kernel: nat, live: seq<nat>) {
    NoRepeats(live) && forall r :: r in live <==> r in Users(sp, kernel)
  }

  // The memory, the top-level tables, the frames handed out and the list of live spaces.
  datatype Moment = Moment(mem: Mem, roots: set<nat>, out: set<nat>, live: seq<nat>)

  // A new space, empty below and like the kernel's above; all others translate as before.
  ghost predicate Created(a: Moment, b: Moment, kernel: nat, f: nat) {
    && f !in a.roots && b.roots == a.roots + {f} && b.live == a.live + [f]
    && (forall vp: nat :: Translate(b.mem, f, vp) == if PathOf(vp)[0] >= 256 then Translate(b.mem, kernel, vp) else None)
    && SameSpaces(a.mem, b.mem, a.roots)
  }

  ghost predicate SameSpaces(mem: Mem, mem': Mem, roots: set<nat>) {
    forall r, vp: nat :: r in roots ==> Translate(mem', r, vp) == Translate(mem, r, vp)
  }

  // Fresh frames are mapped at the pages of the range with these flags, and no other page moves.
  ghost predicate FreshlyMapped(a: Moment, b: Moment, root: nat, virt: Word, size: nat, flags: Word) {
    && b.roots == a.roots && b.live == a.live && IsFlags(flags) && Vpn(AlignUp(virt)) + PagesFor(size) <= PAGES
    && exists got :: MappedTo(a, b, root, virt, size, flags, got)
  }

  ghost predicate MappedTo(a: Moment, b: Moment, root: nat, virt: Word, size: nat, flags: Word, got: seq<nat>)
    requires IsFlags(flags)
  {
    && |got| == PagesFor(size) && Taken(b.mem, b.roots, a.out, b.out, got) && (forall i :: 0 <= i < |got| ==> got[i] < 0x100_0000_0000)
    && Vpn(AlignUp(virt)) + |got| <= PAGES && Ranged(a.mem, b.mem, a.roots, a.out, root, Vpn(AlignUp(virt)), Leaves(got, flags))
  }

  // The space is gone with its tables and pages; all others translate as before.
  ghost predicate Destroyed(a: Moment, b: Moment, root: nat, fb: nat) {
    && b.roots == a.roots - {root} && b.live == Without(a.live, root)
    && FreedByAddress(a.mem, root, fb, a.out, b.out) && SameSpaces(a.mem, b.mem, b.roots)
  }

  ghost predicate Performed(op: SpaceOp, a: Moment, b: Moment, kernel: nat, fb: nat) {
    match op
    case Create => exists f :: Created(a, b, kernel, f)
    case Map(i, virt, size, flags) => if i < |a.live| then FreshlyMapped(a, b, a.live[i], virt, size, flags) else b == a
    case Destroy(i) => if i < |a.live| then Destroyed(a, b, a.live[i], fb) else b == a
  }

  lemma GrownSpaces(mem: Mem, mem': Mem, roots: set<nat>, out: set<nat>)
    requires Grown(mem, mem', roots, out)
    ensures SameSpaces(mem, mem', roots)
  {
    hide Extends; hide Translate;
    forall r, vp: nat | r in roots ensures Translate(mem', r, vp) == Translate(mem, r, vp) {
      ExtendsTranslate(mem, mem', roots, r, vp);
    }
  }

  lemma FollowSpaces(mem: Mem, mem': Mem, roots: set<nat>)
    requires forall r, q :: r in roots && |q| <= 4 ==> Follow(mem', r, q) == Follow(mem, r, q)
    ensures SameSpaces(mem, mem', roots)
  {
    hide Follow; hide PathOf;
  }

  // What is not handed out can be.
  lemma RemainingIs(m: Machine)
    requires m.Valid()
    ensures m.Remaining() == |AllPages(m.memmap)| - |m.book.out|
  {
  }

  lemma OwnedParts(m: Machine, fb: nat)
    ensures Owned(m, fb) <==> World(m) && Owners(m.frames, m.spaces.roots, Users(m.spaces, m.kernelPml4), m.book.out, fb)
    ensures World(m) ==> m.Valid() && m.kernelPml4 in m.spaces.roots && m.book.out <= m.frames.pages.Keys
    ensures World(m) ==> Tree(m.frames, m.spaces.roots) && TablesWithin(m.frames, m.spaces.roots, m.book.out)
  {
    WorldParts(m);
  }

  lemma UsersIs(sp: Spaces, kernel: nat)
    ensures Users(sp, kernel) == sp.roots - {kernel}
  {
  }

  // With the kernel's table alone there is nothing to own.
  lemma BootOwned(m: Machine, fb: nat)
    requires World(m) && m.spaces.roots == {m.kernelPml4}
    ensures Owned(m, fb)
  {
    NoUsers(m.frames, m.spaces.roots, m.book.out, fb);
    assert Users(m.spaces, m.kernelPml4) == {};
  }

  method CreateSpace(m: Machine, fb: nat) returns (f: nat)
    requires Owned(m, fb) && World(m) && m.Remaining() >= 1
    modifies m`frames, m`head, m`book, m`fillEntry, m`fillOffset, m`lazyBytes, m`spaces
    ensures Owned(m, fb) && World(m) && m.Remaining() >= old(m.Remaining()) - 1
    ensures f !in old(m.spaces.roots) && m.spaces.roots == old(m.spaces.roots) + {f}
    ensures forall vp: nat :: Translate(m.frames, f, vp) == if PathOf(vp)[0] >= 256 then Translate(m.frames, m.kernelPml4, vp) else None
    ensures SameSpaces(old(m.frames), m.frames, old(m.spaces.roots))
  {
    hide *;
    OwnedParts(m, fb);
    ghost var mem0, out0, sp, k := m.frames, m.book.out, m.spaces, m.kernelPml4;
    UsersIs(sp, k);
    f := CreateUserPml4(m);
    GrownSpaces(mem0, m.frames, sp.roots, out0);
    CreateKeeps(mem0, m.frames, sp.roots, Users(sp, k), out0, k, f, fb);
    UsersIs(m.spaces, k);
    assert m.spaces.roots - {k} == (sp.roots - {k}) + {f};
    OwnedParts(m, fb);
  }

  method MapSpace(m: Machine, fb: nat, root: nat, virt: Word, size: nat, flags: Word, ghost live: seq<nat>)
    requires Owned(m, fb) && World(m) && root in m.spaces.roots && IsFlags(flags)
    requires m.Remaining() >= FramesFor(Vpn(AlignUp(virt)), PagesFor(size))
    requires AlignUp(virt) + PagesFor(size) * PAGE_SIZE <= 0x1_0000_0000_0000_0000 && Vpn(AlignUp(virt)) + PagesFor(size) <= PAGES
    modifies m`frames, m`head, m`book, m`fillEntry, m`fillOffset, m`lazyBytes
    ensures Owned(m, fb) && World(m) && m.Remaining() >= old(m.Remaining()) - FramesFor(Vpn(AlignUp(virt)), PagesFor(size))
    ensures FreshlyMapped(old(Moment(m.frames, m.spaces.roots, m.book.out, live)), Moment(m.frames, m.spaces.roots, m.book.out, live), root, virt, size, flags)
  {
    hide *;
    OwnedParts(m, fb);
    ghost var mem0, out0, sp, k := m.frames, m.book.out, m.spaces, m.kernelPml4;
    UsersIs(sp, k);
    var start;
    ghost var got;
    start, got := VmmMapRange(m, root, virt, size, flags);
    LeavesLead(got, flags);
    ghost var ws := Leaves(got, flags);
    MapKeeps(mem0, m.frames, sp.roots, Users(sp, k), out0, m.book.out, root, Vpn(start), got, ws, fb);
    OwnedParts(m, fb);
    MappedIs(Moment(mem0, sp.roots, out0, live), Moment(m.frames, m.spaces.roots, m.book.out, live), root, virt, size, flags, got);
  }

  lemma MappedIs(a: Moment, b: Moment, root: nat, virt: Word, size: nat, flags: Word, got: seq<nat>)
    requires IsFlags(flags) && b.roots == a.roots && b.live == a.live && Vpn(AlignUp(virt)) + PagesFor(size) <= PAGES
    requires |got| == PagesFor(size) && Taken(b.mem, b.roots, a.out, b.out, got) && (forall i :: 0 <= i < |got| ==> got[i] < 0x100_0000_0000)
    requires Ranged(a.mem, b.mem, a.roots, a.out, root, Vpn(AlignUp(virt)), Leaves(got, flags))
    ensures FreshlyMapped(a, b, root, virt, size, flags)
  {
    hide Ranged; hide Leaves; hide Taken; hide IsFlags; hide Vpn; hide PagesFor; hide AlignUp;
    assert MappedTo(a, b, root, virt, size, flags, got);
  }

  method DestroySpace(m: Machine, fb: nat, root: nat)
    requires Owned(m, fb) && World(m) && root in Users(m.spaces, m.kernelPml4)
    modifies m`frames, m`head, m`book, m`spaces
    ensures Owned(m, fb) && World(m) && m.Remaining() >= old(m.Remaining())
    ensures m.spaces.roots == old(m.spaces.roots) - {root}
    ensures FreedByAddress(old(m.frames), root, fb, old(m.book.out), m.book.out) && SameSpaces(old(m.frames), m.frames, m.spaces.roots)
  {
    hide *;
    OwnedParts(m, fb);
    ghost var mem0, b0, sp, k := m.frames, m.book, m.spaces, m.kernelPml4;
    UsersIs(sp, k);
    OwnersOwn(mem0, sp.roots, Users(sp, k), b0.out, fb, root);
    RemainingIs(m);
    DestroyAddrSpace(m, root, fb);
    FollowSpaces(mem0, m.frames, m.spaces.roots);
    WorldParts(m);
    RemainingIs(m);
    DestroyKeeps(mem0, m.frames, sp.roots, Users(sp, k), b0, root, fb);
    UsersIs(m.spaces, k);
    assert m.spaces.roots - {k} == (sp.roots - {k}) - {root};
    OwnedParts(m, fb);
  }

  lemma NamesIs(sp: Spaces, kernel: nat, live: seq<nat>)
    ensures Names(sp, kernel, live) <==> NoRepeats(live) && forall r :: r in live <==> r in Users(sp, kernel)
  {
  }

  lemma NamesMore(sp: Spaces, sp': Spaces, kernel: nat, live: seq<nat>, f: nat)
    requires Names(sp, kernel, live) && sp'.roots == sp.roots + {f} && f !in sp.roots && kernel in sp.roots
    ensures Names(sp', kernel, live + [f])
  {
    assert f !in live;
    forall r ensures r in live + [f] <==> r in Users(sp', kernel) {
      assert r in live <==> r in Users(sp, kernel);
    }
  }

  lemma NamesLess(sp: Spaces, sp': Spaces, kernel: nat, live: seq<nat>, f: nat)
    requires Names(sp, kernel, live) && sp'.roots == sp.roots - {f} && f in live
    ensures Names(sp', kernel, Without(live, f))
  {
    hide Without; hide NoRepeats;
    WithoutElements(live, f);
  }

  lemma NextOp(ops: seq<SpaceOp>, n: nat)
    requires n < |ops|
    ensures RunFrames(ops[n..]) == OpFrames(ops[n]) + RunFrames(ops[n + 1..]) && ops[0..] == ops
  {
    assert ops[n..][0] == ops[n] && ops[n..][1..] == ops[n + 1..];
  }

  lemma OpIs(op: SpaceOp)
    ensures op.Create? ==> OpFrames(op) == 1
    ensures op.Map? ==> OpFrames(op) == FramesFor(Vpn(AlignUp(op.virt)), PagesFor(op.size))
    ensures op.Map? && OpOk(op) ==> && IsFlags(op.flags) && AlignUp(op.virt) + PagesFor(op.size) * PAGE_SIZE <= 0x1_0000_0000_0000_0000
                                    && Vpn(AlignUp(op.virt)) + PagesFor(op.size) <= PAGES
  {
  }

  // Over any sequence of creating spaces, mapping fresh ranges into them and destroying them, each
  // space owns its pages, so that every one of them can be destroyed. Names of no live space are skipped.
  // The trace says what each operation did.
  method RunSpaces(m: Machine, ops: seq<SpaceOp>, fb: nat, spaces: seq<nat>) returns (live: seq<nat>, ghost trace: seq<Moment>)
    requires Owned(m, fb) && World(m) && Names(m.spaces, m.kernelPml4, spaces)
    requires (forall op :: op in ops ==> OpOk(op)) && m.Remaining() >= RunFrames(ops)
    modifies m`frames, m`head, m`book, m`fillEntry, m`fillOffset, m`lazyBytes, m`spaces
    ensures Owned(m, fb) && World(m) && Names(m.spaces, m.kernelPml4, live)
    ensures |trace| == |ops| + 1 && trace[0] == Moment(old(m.frames), old(m.spaces.roots), old(m.book.out), spaces)
    ensures trace[|ops|] == Moment(m.frames, m.spaces.roots, m.book.out, live)
    ensures forall n :: 0 <= n < |ops| ==> Performed(ops[n], trace[n], trace[n + 1], m.kernelPml4, fb)
  {
    hide *;
    live := spaces;
    trace := [Moment(m.frames, m.spaces.roots, m.book.out, live)];
    WorldParts(m);
    assert ops[0..] == ops;
    for n := 0 to |ops|
      invariant m.Valid() && Owned(m, fb) && World(m) && Names(m.spaces, m.kernelPml4, live)
      invariant m.Remaining() >= RunFrames(ops[n..]) && m.kernelPml4 == old(m.kernelPml4)
      invariant |trace| == n + 1 && trace[0] == old(Moment(m.frames, m.spaces.roots, m.book.out, spaces))
      invariant trace[n] == Moment(m.frames, m.spaces.roots, m.book.out, live)
      invariant forall j :: 0 <= j < n ==> Performed(ops[j], trace[j], trace[j + 1], m.kernelPml4, fb)
    {
      OwnedParts(m, fb);
      NextOp(ops, n);
      OpIs(ops[n]);
      NamesIs(m.spaces, m.kernelPml4, live);
      UsersIs(m.spaces, m.kernelPml4);
      ghost var sp, a := m.spaces, trace[n];
      match ops[n] {
        case Create =>
          var f := CreateSpace(m, fb);
          NamesMore(sp, m.spaces, m.kernelPml4, live, f);
          live := live + [f];
          CreateDone(a, Moment(m.frames, m.spaces.roots, m.book.out, live), m.kernelPml4, fb, f);
        case Map(i, virt, size, flags) =>
          if i < |live| {
            assert live[i] in live;
            MapSpace(m, fb, live[i], virt, size, flags, live);
          }
          MapDone(a, Moment(m.frames, m.spaces.roots, m.book.out, live), m.kernelPml4, fb, i, virt, size, flags);
        case Destroy(i) =>
          if i < |live| {
            assert live[i] in live;
            DestroySpace(m, fb, live[i]);
            NamesLess(sp, m.spaces, m.kernelPml4, live, live[i]);
            live := Without(live, live[i]);
          }
          DestroyDone(a, Moment(m.frames, m.spaces.roots, m.book.out, live), m.kernelPml4, fb, i);
      }
      WorldParts(m);
      trace := trace + [Moment(m.frames, m.spaces.roots, m.book.out, live)];
    }
  }

  lemma CreateDone(a: Moment, b: Moment, kernel: nat, fb: nat, f: nat)
    requires f !in a.roots && b.roots == a.roots + {f} && b.live == a.live + [f] && SameSpaces(a.mem, b.mem, a.roots)
    requires forall vp: nat :: Translate(b.mem, f, vp) == if PathOf(vp)[0] >= 256 then Translate(b.mem, kernel, vp) else None
    ensures Performed(Create, a, b, kernel, fb)
  {
    hide Translate; hide PathOf; hide SameSpaces;
    assert Created(a, b, kernel, f);
  }

  lemma MapDone(a: Moment, b: Moment, kernel: nat, fb: nat, i: nat, virt: Word, size: nat, flags: Word)
    requires if i < |a.live| then FreshlyMapped(a, b, a.live[i], virt, size, flags) else b == a
    ensures Performed(Map(i, virt, size, flags), a, b, kernel, fb)
  {
    hide FreshlyMapped;
  }

  lemma DestroyDone(a: Moment, b: Moment, kernel: nat, fb: nat, i: nat)
    requires i >= |a.live| ==> b == a
    requires i < |a.live| ==> b.roots == a.roots - {a.live[i]} && b.live == Without(a.live, a.live[i])
    requires i < |a.live| ==> FreedByAddress(a.mem, a.live[i], fb, a.out, b.out) && SameSpaces(a.mem, b.mem, b.roots)
    ensures Performed(Destroy(i), a, b, kernel, fb)
  {
    hide Without; hide FreedByAddress; hide SameSpaces;
  }
}
