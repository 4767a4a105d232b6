/** Destroying an address space: every table and page of its user half goes back to the free list. */
module Teardown {
  import opened Prelude
  import opened Lists
  import opened Words
  import opened PageTables
  import opened Trees
  import opened MemoryMap
  import opened Machines
  import opened FreelistPmm
  import opened Vmm
  import opened Ranges

  const USER_FRAMEBUFFER_BASE: nat := 0x2000_0000_0000

  // The virtual page at a path of length 4: (i << 27) | (j << 18) | (k << 9) | l
  function PageAt(q: seq<nat>): (vp: nat)
    requires |q| == 4
  {
    q[0] * 0x800_0000 + q[1] * 0x4_0000 + q[2] * 512 + q[3]
  }

  lemma PageAtPath(q: seq<nat>)
    requires |q| == 4 && forall k :: 0 <= k < 4 ==> q[k] < 512
    ensures PathOf(PageAt(q)) == q && PageAt(q) < PAGES
  {
    var a, b, c, d := q[0], q[1], q[2], q[3];
    var vp := a * 0x800_0000 + b * 0x4_0000 + c * 512 + d;
    assert vp % 512 == d;
    assert vp / 512 == a * 0x4_0000 + b * 512 + c;
    assert vp / 0x4_0000 == a * 512 + b;
    assert vp / 0x800_0000 == a;
    SameRest(a * 512 + b, c);
    SameRest(a, b);
  }

  // The test that keeps the frames of the framebuffer window, `size` bytes long.
  predicate InFramebuffer(vp: nat, size: nat) {
    USER_FRAMEBUFFER_BASE <= vp * PAGE_SIZE < USER_FRAMEBUFFER_BASE + PagesFor(size) * PAGE_SIZE
  }

  // ----- the frames that are returned, in order -----

  // For the first `n` entries of the table `t` at `path`; `fb` is the framebuffer's size.
  function Entries(mem: Mem, t: nat, path: seq<nat>, n: nat, fb: nat): seq<nat>
    requires |path| <= 3
    decreases 4 - |path|, n
  {
    if n == 0 then [] else Entries(mem, t, path, n - 1, fb) + Child(mem, t, path, n - 1, fb)
  }

  // For entry `i` of the table `t` at `path`.
  function Child(mem: Mem, t: nat, path: seq<nat>, i: nat, fb: nat): seq<nat>
    requires |path| <= 3
    decreases 4 - |path|, i
  {
    match Link(mem, t, i)
    case None => []
    case Some(f) =>
      if |path| == 3 then
        if InFramebuffer(PageAt(path + [i]), fb) then [] else [f]
      else
        Entries(mem, f, path + [i], 512, fb) + [f]
  }

  // The whole space below `root`: its user half, then its top-level table.
  function Returned(mem: Mem, root: nat, fb: nat): seq<nat> {
    Entries(mem, root, [], 256, fb) + [root]
  }

  // ----- each returned frame is named by its own path -----

  // A path into the user half that the teardown visits.
  predicate Visited(q: seq<nat>, fb: nat) {
    && |q| <= 4 && (forall k :: 0 <= k < |q| ==> q[k] < 512)
    && (q != [] ==> q[0] < 256)
    && (|q| == 4 ==> !InFramebuffer(PageAt(q), fb))
  }

  // Different visited paths end at different frames.
  ghost predicate Distinct(mem: Mem, root: nat, fb: nat) {
    forall q, q' :: Visited(q, fb) && Visited(q', fb) && Follow(mem, root, q).Some? && Follow(mem, root, q) == Follow(mem, root, q') ==>
      q == q'
  }

  lemma FollowChild(mem: Mem, root: nat, path: seq<nat>, i: nat)
    requires Follow(mem, root, path).Some?
    ensures Follow(mem, root, path + [i]) == Link(mem, Follow(mem, root, path).value, i)
  {
    assert (path + [i])[..|path|] == path;
  }

  // How far a path reaches into the entries below `n` of the table at `path`.
  predicate Below(path: seq<nat>, n: nat, q: seq<nat>) {
    |path| < |q| && path == q[..|path|] && q[|path|] < n
  }

  lemma {:induction false} EntryNamed(mem: Mem, root: nat, t: nat, path: seq<nat>, n: nat, fb: nat, x: nat) returns (q: seq<nat>)
    requires |path| <= 3 && Visited(path, fb) && Follow(mem, root, path) == Some(t) && n <= (if path == [] then 256 else 512)
    requires x in Entries(mem, t, path, n, fb)
    ensures Visited(q, fb) && Below(path, n, q) && Follow(mem, root, q) == Some(x)
    decreases 4 - |path|, n
  {
    if x in Entries(mem, t, path, n - 1, fb) {
      q := EntryNamed(mem, root, t, path, n - 1, fb, x);
    } else {
      q := ChildNamed(mem, root, t, path, n - 1, fb, x);
    }
  }

  lemma {:induction false} ChildNamed(mem: Mem, root: nat, t: nat, path: seq<nat>, i: nat, fb: nat, x: nat) returns (q: seq<nat>)
    requires |path| <= 3 && Visited(path, fb) && Follow(mem, root, path) == Some(t) && i < (if path == [] then 256 else 512)
    requires x in Child(mem, t, path, i, fb)
    ensures Visited(q, fb) && Below(path, i + 1, q) && q[|path|] == i && Follow(mem, root, q) == Some(x)
    decreases 4 - |path|, i
  {
    FollowChild(mem, root, path, i);
    q := path + [i];
    assert q[..|path|] == path;
    var f := Link(mem, t, i).value;
    if |path| < 3 && x in Entries(mem, f, path + [i], 512, fb) {
      var q' := EntryNamed(mem, root, f, path + [i], 512, fb, x);
      assert q'[..|path|] == q'[..|path| + 1][..|path|] == path;
      assert q'[|path|] == q'[..|path| + 1][|path|];
      q := q';
    }
  }

  // ----- every visited frame is returned -----

  lemma {:induction false} EntryListed(mem: Mem, root: nat, t: nat, path: seq<nat>, n: nat, fb: nat, q: seq<nat>)
    requires |path| <= 3 && Follow(mem, root, path) == Some(t) && n <= 512
    requires Visited(q, fb) && Below(path, n, q) && Follow(mem, root, q).Some?
    ensures Follow(mem, root, q).value in Entries(mem, t, path, n, fb)
    decreases 4 - |path|, n
  {
    if q[|path|] == n - 1 {
      ChildListed(mem, root, t, path, n - 1, fb, q);
    } else {
      EntryListed(mem, root, t, path, n - 1, fb, q);
    }
  }

  lemma {:induction false} ChildListed(mem: Mem, root: nat, t: nat, path: seq<nat>, i: nat, fb: nat, q: seq<nat>)
    requires |path| <= 3 && Follow(mem, root, path) == Some(t) && i < 512
    requires Visited(q, fb) && Below(path, i + 1, q) && q[|path|] == i && Follow(mem, root, q).Some?
    ensures Follow(mem, root, q).value in Child(mem, t, path, i, fb)
    decreases 4 - |path|, i
  {
    var p := path + [i];
    assert q[..|p|] == p;
    FollowPrefix(mem, root, q, |p|);
    FollowChild(mem, root, path, i);
    if |q| == |p| {
      assert q == p;
    } else {
      EntryListed(mem, root, Follow(mem, root, p).value, p, 512, fb, q);
    }
  }

  // ----- no frame is returned twice -----

  lemma {:induction false} EntriesOnce(mem: Mem, root: nat, t: nat, path: seq<nat>, n: nat, fb: nat)
    requires Distinct(mem, root, fb) && |path| <= 3 && Visited(path, fb) && Follow(mem, root, path) == Some(t)
    requires n <= (if path == [] then 256 else 512)
    ensures NoRepeats(Entries(mem, t, path, n, fb)) && t !in Entries(mem, t, path, n, fb)
    decreases 4 - |path|, n
  {
    if t in Entries(mem, t, path, n, fb) {
      var q := EntryNamed(mem, root, t, path, n, fb, t);
      SamePath(mem, root, fb, path, q);
      assert false;
    }
    if n > 0 {
      EntriesOnce(mem, root, t, path, n - 1, fb);
      ChildOnce(mem, root, t, path, n - 1, fb);
      var a, b := Entries(mem, t, path, n - 1, fb), Child(mem, t, path, n - 1, fb);
      forall x | x in a ensures x !in b {
        SiblingsApart(mem, root, t, path, n - 1, fb, x);
      }
      AppendDistinct(a, b);
    }
  }

  lemma SamePath(mem: Mem, root: nat, fb: nat, q: seq<nat>, q': seq<nat>)
    requires Distinct(mem, root, fb) && Visited(q, fb) && Visited(q', fb)
    requires Follow(mem, root, q).Some? && Follow(mem, root, q) == Follow(mem, root, q')
    ensures q == q'
  {
    hide Follow; hide Visited;
  }

  lemma SiblingsApart(mem: Mem, root: nat, t: nat, path: seq<nat>, i: nat, fb: nat, x: nat)
    requires Distinct(mem, root, fb) && |path| <= 3 && Visited(path, fb) && Follow(mem, root, path) == Some(t)
    requires i < (if path == [] then 256 else 512)
    ensures !(x in Entries(mem, t, path, i, fb) && x in Child(mem, t, path, i, fb))
  {
    hide Follow; hide Visited; hide Entries; hide Child; hide Distinct;
    if x in Entries(mem, t, path, i, fb) && x in Child(mem, t, path, i, fb) {
      var q := EntryNamed(mem, root, t, path, i, fb, x);
      var q' := ChildNamed(mem, root, t, path, i, fb, x);
      SamePath(mem, root, fb, q, q');
      assert false;
    }
  }

  lemma {:induction false} ChildOnce(mem: Mem, root: nat, t: nat, path: seq<nat>, i: nat, fb: nat)
    requires Distinct(mem, root, fb) && |path| <= 3 && Visited(path, fb) && Follow(mem, root, path) == Some(t)
    requires i < (if path == [] then 256 else 512)
    ensures NoRepeats(Child(mem, t, path, i, fb))
    decreases 4 - |path|, i
  {
    hide Distinct;
    FollowChild(mem, root, path, i);
    if |path| < 3 && Link(mem, t, i).Some? {
      var f := Link(mem, t, i).value;
      EntriesOnce(mem, root, f, path + [i], 512, fb);
      AppendDistinct1(Entries(mem, f, path + [i], 512, fb), f);
    }
  }

  // The frames returned are exactly those of the visited paths, each once.
  lemma ReturnedOnce(mem: Mem, root: nat, fb: nat)
    requires Distinct(mem, root, fb)
    ensures NoRepeats(Returned(mem, root, fb))
    ensures forall x :: x in Returned(mem, root, fb) <==> exists q :: Visited(q, fb) && Follow(mem, root, q) == Some(x)
  {
    RootItself(mem, root);
    EntriesOnce(mem, root, root, [], 256, fb);
    AppendDistinct1(Entries(mem, root, [], 256, fb), root);
    hide Distinct; hide NoRepeats; hide Entries; hide Follow; hide InFramebuffer;
    forall x ensures x in Returned(mem, root, fb) <==> exists q :: Visited(q, fb) && Follow(mem, root, q) == Some(x) {
      ReturnedNamed(mem, root, fb, x);
    }
  }

  lemma ReturnedNamed(mem: Mem, root: nat, fb: nat, x: nat)
    ensures x in Returned(mem, root, fb) <==> exists q :: Visited(q, fb) && Follow(mem, root, q) == Some(x)
  {
    RootItself(mem, root);
    hide Entries; hide Follow; hide InFramebuffer;
    if x in Entries(mem, root, [], 256, fb) {
      var q := EntryNamed(mem, root, root, [], 256, fb, x);
    } else if x == root {
      assert Visited([], fb);
    }
    if q :| Visited(q, fb) && Follow(mem, root, q) == Some(x) {
      if q != [] {
        assert q[..0] == [];
        EntryListed(mem, root, root, [], 256, fb, q);
      }
    }
  }

  // ----- destroy_addr_space -----

  function Elements(l: seq<nat>): set<nat> { set x | x in l }

  // The allocator's book after the frames `l` have been returned, one after the other.
  function Freed(b: Book, l: seq<nat>): Book {
    Book(Push(b.free, l), b.out - Elements(l))
  }

  lemma FreedAppend(b: Book, l: seq<nat>, l': seq<nat>)
    ensures Freed(Freed(b, l), l') == Freed(b, l + l')
  {
    PushAppend(b.free, l, l');
    assert Elements(l + l') == Elements(l) + Elements(l');
  }

  lemma FreedOne(b: Book, f: nat)
    ensures Freed(b, [f]) == Book([f] + b.free, b.out - {f}) && Freed(b, []) == b
  {
    assert Elements([f]) == {f} && Elements([]) == {} && b.out - {} == b.out;
    assert [f][..0] == [] && Push(b.free, [f]) == [f] + Push(b.free, [f][..0]);
  }

  // Since memory `mem0` and book `b0`, the frames `l` have been returned; only they were written.
  ghost predicate FreedSince(m: Machine, mem0: Mem, b0: Book, l: seq<nat>)
    reads m`frames, m`book
  {
    && m.book == Freed(b0, l) && m.frames.pages.Keys == mem0.pages.Keys
    && forall f :: f in mem0.pages && f !in l ==> m.frames.pages[f] == mem0.pages[f]
  }

  // Frames that may be returned: handed out, and each listed once.
  ghost predicate Returnable(b: Book, l: seq<nat>) {
    NoRepeats(l) && forall x :: x in l ==> x in b.out
  }

  // What the teardown reads is the same as long as the frames it will still return are untouched.
  lemma {:induction false} EntriesSame(mem: Mem, mem': Mem, t: nat, path: seq<nat>, n: nat, fb: nat)
    requires |path| <= 3 && mem'.pages.Keys == mem.pages.Keys
    requires t in mem.pages ==> mem'.pages[t] == mem.pages[t]
    requires forall x :: x in Entries(mem, t, path, n, fb) && x in mem.pages ==> mem'.pages[x] == mem.pages[x]
    ensures Entries(mem', t, path, n, fb) == Entries(mem, t, path, n, fb)
    decreases 4 - |path|, n
  {
    if n > 0 {
      EntriesSame(mem, mem', t, path, n - 1, fb);
      ChildSame(mem, mem', t, path, n - 1, fb);
    }
  }

  lemma {:induction false} ChildSame(mem: Mem, mem': Mem, t: nat, path: seq<nat>, i: nat, fb: nat)
    requires |path| <= 3 && mem'.pages.Keys == mem.pages.Keys
    requires t in mem.pages ==> mem'.pages[t] == mem.pages[t]
    requires forall x :: x in Child(mem, t, path, i, fb) && x in mem.pages ==> mem'.pages[x] == mem.pages[x]
    ensures Child(mem', t, path, i, fb) == Child(mem, t, path, i, fb)
    decreases 4 - |path|, i
  {
    if |path| < 3 && Link(mem, t, i).Some? {
      var f := Link(mem, t, i).value;
      assert f in Child(mem, t, path, i, fb);
      EntriesSame(mem, mem', f, path + [i], 512, fb);
    }
  }

  lemma ReturnableSplit(b: Book, l: seq<nat>, l': seq<nat>)
    requires Returnable(b, l + l')
    ensures Returnable(b, l) && Returnable(Freed(b, l), l')
    ensures forall x :: x in l' ==> x !in l
  {
    var s := l + l';
    forall i, j | 0 <= i < j < |l| ensures l[i] != l[j] { assert s[i] != s[j]; }
    forall i, j | 0 <= i < j < |l'| ensures l'[i] != l'[j] { assert s[|l| + i] != s[|l| + j]; }
    forall x | x in l' ensures x !in l && x in b.out {
      var j :| 0 <= j < |l'| && l'[j] == x;
      assert s[|l| + j] == x;
      assert forall i :: 0 <= i < |l| ==> l[i] == s[i] && s[i] != s[|l| + j];
    }
    forall x | x in l ensures x in b.out { assert x in s; }
  }

  lemma ReturnablePrefix(mem: Mem, b: Book, t: nat, path: seq<nat>, i: nat, n: nat, fb: nat)
    requires |path| <= 3 && i < n && Returnable(b, Entries(mem, t, path, n, fb))
    ensures Returnable(b, Entries(mem, t, path, i, fb) + Child(mem, t, path, i, fb))
    ensures Entries(mem, t, path, i + 1, fb) == Entries(mem, t, path, i, fb) + Child(mem, t, path, i, fb)
    ensures forall x :: x in Entries(mem, t, path, i + 1, fb) ==> x in Entries(mem, t, path, n, fb)
    decreases n - i
  {
    if i + 1 < n {
      ReturnableSplit(b, Entries(mem, t, path, n - 1, fb), Child(mem, t, path, n - 1, fb));
      ReturnablePrefix(mem, b, t, path, i, n - 1, fb);
    }
  }

  lemma FreedThen(m: Machine, mem0: Mem, b0: Book, l: seq<nat>, mem1: Mem, b1: Book, l': seq<nat>)
    requires b1 == Freed(b0, l) && mem1.pages.Keys == mem0.pages.Keys
    requires forall f :: f in mem0.pages && f !in l ==> mem1.pages[f] == mem0.pages[f]
    requires FreedSince(m, mem1, b1, l')
    ensures FreedSince(m, mem0, b0, l + l')
  {
    FreedAppend(b0, l, l');
  }

  lemma FreedNothing(m: Machine)
    ensures FreedSince(m, m.frames, m.book, [])
  {
    FreedOne(m.book, 0);
  }

  // The entries still to be visited are those of the memory at the start.
  lemma StillThere(m: Machine, mem0: Mem, b0: Book, t: nat, path: seq<nat>, i: nat, fb: nat)
    requires |path| <= 3 && FreedSince(m, mem0, b0, Entries(mem0, t, path, i, fb)) && t !in Entries(mem0, t, path, i, fb)
    requires forall x :: x in Child(mem0, t, path, i, fb) ==> x !in Entries(mem0, t, path, i, fb)
    ensures Child(m.frames, t, path, i, fb) == Child(mem0, t, path, i, fb)
    ensures t in mem0.pages ==> t in m.frames.pages && m.frames.pages[t] == mem0.pages[t]
  {
    ChildSame(mem0, m.frames, t, path, i, fb);
  }

  lemma NoEntries(mem: Mem, t: nat, path: seq<nat>, fb: nat)
    requires |path| <= 3
    ensures Entries(mem, t, path, 0, fb) == []
  {
  }

  lemma TableReadable(m: Machine, t: nat)
    requires m.Valid() && t in m.book.out
    ensures t in m.frames.pages
  {
    OutApart(m);
  }

  lemma FreedParts(m: Machine, mem0: Mem, b0: Book, l: seq<nat>)
    requires FreedSince(m, mem0, b0, l)
    ensures m.book == Freed(b0, l) && m.frames.pages.Keys == mem0.pages.Keys
    ensures forall f :: f in mem0.pages && f !in l ==> m.frames.pages[f] == mem0.pages[f]
  {
  }

  lemma ChildCases(mem: Mem, t: nat, path: seq<nat>, i: nat, fb: nat)
    requires |path| <= 3 && t in mem.pages && i < 512
    ensures !Present(mem.pages[t][i]) ==> Child(mem, t, path, i, fb) == []
    ensures Present(mem.pages[t][i]) && |path| == 3 ==>
      Child(mem, t, path, i, fb) == if InFramebuffer(PageAt(path + [i]), fb) then [] else [FrameOf(mem.pages[t][i])]
    ensures Present(mem.pages[t][i]) && |path| < 3 ==>
      Child(mem, t, path, i, fb) == Entries(mem, FrameOf(mem.pages[t][i]), path + [i], 512, fb) + [FrameOf(mem.pages[t][i])]
  {
  }

  lemma ReturnableLast(b: Book, l: seq<nat>, f: nat)
    requires Returnable(b, l + [f])
    ensures Returnable(b, l) && f in b.out && f !in l
  {
    ReturnableSplit(b, l, [f]);
    assert f in l + [f];
    assert f in [f];
  }

  lemma ReturnableHead(b: Book, f: nat)
    requires Returnable(b, [f])
    ensures f in b.out
  {
    assert f in [f];
  }

  // The loop over the first `n` entries of the table `t` at `path`. The four nested loops of the
  // source are this loop at the four lengths of `path`.
  method DestroyEntries(m: Machine, t: nat, path: seq<nat>, n: nat, fb: nat)
    requires m.Valid() && |path| <= 3 && n <= 512 && t in m.book.out
    requires Returnable(m.book, Entries(m.frames, t, path, n, fb)) && t !in Entries(m.frames, t, path, n, fb)
    modifies m`frames, m`head, m`book
    ensures m.Valid() && FreedSince(m, old(m.frames), old(m.book), Entries(old(m.frames), t, path, n, fb))
    decreases 4 - |path|, 1
  {
    hide *;
    ghost var mem0, b0 := m.frames, m.book;
    FreedNothing(m);
    NoEntries(mem0, t, path, fb);
    TableReadable(m, t);
    for i := 0 to n
      invariant m.Valid() && FreedSince(m, mem0, b0, Entries(mem0, t, path, i, fb))
    {
      ReturnablePrefix(mem0, b0, t, path, i, n, fb);
      var l, c := Entries(mem0, t, path, i, fb), Child(mem0, t, path, i, fb);
      ReturnableSplit(b0, l, c);
      StillThere(m, mem0, b0, t, path, i, fb);
      FreedParts(m, mem0, b0, l);
      ghost var mem1, b1 := m.frames, m.book;
      DestroyEntry(m, t, path, i, fb);
      FreedThen(m, mem0, b0, l, mem1, b1, c);
    }
  }

  // The body of the loop: one entry of the table.
  method DestroyEntry(m: Machine, t: nat, path: seq<nat>, i: nat, fb: nat)
    requires m.Valid() && |path| <= 3 && i < 512 && t in m.frames.pages
    requires Returnable(m.book, Child(m.frames, t, path, i, fb))
    modifies m`frames, m`head, m`book
    ensures m.Valid() && FreedSince(m, old(m.frames), old(m.book), Child(old(m.frames), t, path, i, fb))
    decreases 4 - |path|, 0
  {
    hide *;
    ghost var mem0, b0 := m.frames, m.book;
    FreedNothing(m);
    ChildCases(mem0, t, path, i, fb);
    var e := m.frames.pages[t][i];
    if !Present(e) { return; }
    var f := FrameOf(e);
    if |path| == 3 {
      var vp := PageAt(path + [i]);
      if InFramebuffer(vp, fb) { return; }
      assert [] + [f] == [f];
      FreeFrame(m, f, mem0, b0, []);
    } else {
      ReturnableLast(b0, Entries(mem0, f, path + [i], 512, fb), f);
      DestroyEntries(m, f, path + [i], 512, fb);
      FreeFrame(m, f, mem0, b0, Entries(mem0, f, path + [i], 512, fb));
    }
  }

  // Returns one more frame after the frames `l`.
  method FreeFrame(m: Machine, f: nat, ghost mem0: Mem, ghost b0: Book, ghost l: seq<nat>)
    requires m.Valid() && FreedSince(m, mem0, b0, l) && Returnable(b0, l + [f])
    modifies m`frames, m`head, m`book
    ensures m.Valid() && FreedSince(m, mem0, b0, l + [f])
  {
    hide Machine.Valid; hide Machine.Remaining; hide Machine.Filled; hide NoRepeats; hide Returnable; hide Push;
    ReturnableSplit(b0, l, [f]);
    ReturnableHead(Freed(b0, l), f);
    FreedOne(m.book, f);
    FreedAppend(b0, l, [f]);
    FpmmFreePage(m, f);
  }

  // The pages of the user half belong to this space alone: they were handed out, they are no
  // tables, and no frame is mapped twice. Pages in the framebuffer window do not belong to it.
  ghost predicate OwnedSpace(mem: Mem, roots: set<nat>, out: set<nat>, root: nat, fb: nat) {
    && (forall q :: Visited(q, fb) && |q| == 4 && Follow(mem, root, q).Some? ==>
          Follow(mem, root, q).value in out && Fresh(mem, roots, Follow(mem, root, q).value))
    && (forall q, q' :: Visited(q, fb) && |q| == 4 && Visited(q', fb) && |q'| == 4 && Follow(mem, root, q).Some? ==>
          (Follow(mem, root, q) == Follow(mem, root, q') ==> q == q'))
  }

  lemma OwnedPair(mem: Mem, roots: set<nat>, out: set<nat>, root: nat, fb: nat, q: seq<nat>, q': seq<nat>)
    requires Tree(mem, roots) && root in roots && OwnedSpace(mem, roots, out, root, fb)
    requires Visited(q, fb) && Visited(q', fb) && Follow(mem, root, q).Some? && Follow(mem, root, q) == Follow(mem, root, q')
    ensures q == q'
  {
    hide Follow; hide Tree; hide InFramebuffer; hide PageAt;
    if |q| <= 3 && |q'| <= 3 {
      OnePath(mem, roots, root, q, root, q');
    }
  }

  lemma OwnedReturnable(mem: Mem, roots: set<nat>, b: Book, root: nat, fb: nat)
    requires Tree(mem, roots) && TablesWithin(mem, roots, b.out) && root in roots && OwnedSpace(mem, roots, b.out, root, fb)
    ensures Distinct(mem, root, fb) && Returnable(b, Returned(mem, root, fb))
  {
    hide Follow; hide Tree; hide Visited; hide NoRepeats; hide Returned;
    forall q, q' | Visited(q, fb) && Visited(q', fb) && Follow(mem, root, q).Some? && Follow(mem, root, q) == Follow(mem, root, q')
      ensures q == q'
    {
      OwnedPair(mem, roots, b.out, root, fb, q, q');
    }
    ReturnedOnce(mem, root, fb);
    forall x | x in Returned(mem, root, fb) ensures x in b.out {
      ReturnedNamed(mem, root, fb, x);
      var q :| Visited(q, fb) && Follow(mem, root, q) == Some(x);
      VisitedOut(mem, roots, b.out, root, fb, q);
    }
  }

  lemma VisitedOut(mem: Mem, roots: set<nat>, out: set<nat>, root: nat, fb: nat, q: seq<nat>)
    requires TablesWithin(mem, roots, out) && root in roots && OwnedSpace(mem, roots, out, root, fb)
    requires Visited(q, fb) && Follow(mem, root, q).Some?
    ensures Follow(mem, root, q).value in out
  {
    hide Follow; hide InFramebuffer; hide PageAt;
  }

  // No other space reads a table that is returned.
  lemma OthersKeepTables(mem: Mem, roots: set<nat>, out: set<nat>, root: nat, fb: nat, r: nat, p: seq<nat>)
    requires Tree(mem, roots) && TablesWithin(mem, roots, out) && root in roots && OwnedSpace(mem, roots, out, root, fb)
    requires r in roots && r != root && |p| <= 3 && Follow(mem, r, p).Some?
    ensures Follow(mem, r, p).value !in Returned(mem, root, fb)
  {
    hide Follow; hide Tree; hide Returned; hide InFramebuffer; hide PageAt;
    var x := Follow(mem, r, p).value;
    ReturnedNamed(mem, root, fb, x);
    if q :| Visited(q, fb) && Follow(mem, root, q) == Some(x) {
      if |q| <= 3 {
        OnePath(mem, roots, root, q, r, p);
      }
      assert false;
    }
  }

  lemma OthersUndisturbed(mem: Mem, mem': Mem, sp: Spaces, k: nat, b: Book, root: nat, fb: nat)
    requires SpacesOk(mem, sp, k, b.out) && root in sp.roots && root != k && OwnedSpace(mem, sp.roots, b.out, root, fb)
    requires mem'.pages.Keys == mem.pages.Keys
    requires forall f :: f in mem.pages && f !in Returned(mem, root, fb) ==> mem'.pages[f] == mem.pages[f]
    ensures SpacesOk(mem', Spaces(sp.roots - {root}, sp.slots - {root}), k, Freed(b, Returned(mem, root, fb)).out)
    ensures Extends(mem, mem', sp.roots - {root})
    ensures forall r, q :: r in sp.roots - {root} && |q| <= 4 ==> Follow(mem', r, q) == Follow(mem, r, q)
  {
    hide Follow; hide OwnedSpace; hide Returned; hide Apart; hide Extends; hide DataKept; hide Shares; hide Push;
    var roots, out := sp.roots - {root}, Freed(b, Returned(mem, root, fb)).out;
    forall r, p | r in roots && |p| <= 3 && Follow(mem, r, p).Some?
      ensures Follow(mem, r, p).value in out
    {
      OthersKeepTables(mem, sp.roots, b.out, root, fb, r, p);
    }
    UndisturbedTree(mem, mem', roots, out);
    forall r, q | r in roots && |q| <= 4 ensures Follow(mem', r, q) == Follow(mem, r, q) {
      UndisturbedPath(mem, mem', roots, out, r, q);
    }
    AgreesKept(mem, mem', Spaces(roots, sp.slots - {root}), k);
  }

  // ----- the same by addresses -----

  // The top-level table or a table of the user half.
  ghost predicate IsTable(mem: Mem, root: nat, f: nat) {
    exists q :: |q| <= 3 && (forall k :: 0 <= k < |q| ==> q[k] < 512) && (q != [] ==> q[0] < 256) && Follow(mem, root, q) == Some(f)
  }

  // A user address outside the framebuffer window leads to `f`; the window is as long as `fb` bytes
  // rounded up to pages.
  ghost predicate IsPage(mem: Mem, root: nat, fb: nat, f: nat) {
    exists a: nat :: a < 0x8000_0000_0000 && (a < 0x2000_0000_0000 || a >= 0x2000_0000_0000 + AlignUp(fb)) && Translate(mem, root, Vpn(a)) == Some(f)
  }

  // Exactly the user addresses in the window are left out.
  lemma AddressVisited(a: nat, fb: nat)
    requires a < 0x8000_0000_0000
    ensures Visited(PathOf(Vpn(a)), fb) <==> a < 0x2000_0000_0000 || a >= 0x2000_0000_0000 + AlignUp(fb)
  {
    hide PathOf; hide PageAt;
    var vp := Vpn(a);
    assert vp == a / 4096 < 0x8_0000_0000;
    PageOfPath(vp);
    UserDigit(vp);
    WindowPage(a, fb);
  }

  lemma PageOfPath(vp: nat)
    requires vp < PAGES
    ensures PageAt(PathOf(vp)) == vp
  {
    hide PathOf; hide PageAt;
    PageAtPath(PathOf(vp));
    PathInjective(PageAt(PathOf(vp)), vp);
  }

  lemma UserDigit(vp: nat)
    ensures vp < 0x8_0000_0000 ==> PathOf(vp)[0] < 256
  {
  }

  lemma WindowPage(a: nat, fb: nat)
    ensures InFramebuffer(a / 4096, fb) <==> 0x2000_0000_0000 <= a < 0x2000_0000_0000 + AlignUp(fb)
  {
    hide AlignUp;
    var n := PagesFor(fb);
    assert n * 4096 == AlignUp(fb);
    assert a / 4096 < 0x2_0000_0000 + n <==> a < 0x2000_0000_0000 + n * 4096;
  }

  // A visited page has an address.
  lemma VisitedAddress(q: seq<nat>, fb: nat)
    requires Visited(q, fb) && |q| == 4
    ensures var a := PageAt(q) * 4096;
      a < 0x8000_0000_0000 && (a < 0x2000_0000_0000 || a >= 0x2000_0000_0000 + AlignUp(fb)) && PathOf(Vpn(a)) == q
  {
    hide PathOf; hide AlignUp;
    PageAtPath(q);
    UserNumber(q);
    hide PageAt;
    var vp := PageAt(q);
    FirstByte(vp);
    WindowPage(vp * 4096, fb);
  }

  lemma UserNumber(q: seq<nat>)
    requires |q| == 4 && (forall k :: 0 <= k < 4 ==> q[k] < 512) && q[0] < 256
    ensures PageAt(q) < 0x8_0000_0000
  {
  }

  lemma FirstByte(vp: nat)
    requires vp < PAGES
    ensures vp * 4096 / 4096 == vp && Vpn(vp * 4096) == vp
  {
  }

  // The frames that are returned are the tables and the pages outside the window.
  lemma ReturnedByAddress(mem: Mem, root: nat, fb: nat, f: nat)
    ensures f in Returned(mem, root, fb) <==> IsTable(mem, root, f) || IsPage(mem, root, fb, f)
  {
    hide Follow; hide Returned; hide PathOf; hide PageAt; hide InFramebuffer; hide AlignUp;
    ReturnedNamed(mem, root, fb, f);
    if q :| Visited(q, fb) && Follow(mem, root, q) == Some(f) {
      if |q| == 4 {
        VisitedAddress(q, fb);
        assert Translate(mem, root, Vpn(PageAt(q) * 4096)) == Some(f);
      }
    }
    if q :| |q| <= 3 && (forall k :: 0 <= k < |q| ==> q[k] < 512) && (q != [] ==> q[0] < 256) && Follow(mem, root, q) == Some(f) {
      assert Visited(q, fb);
    }
    if a: nat :| a < 0x8000_0000_0000 && (a < 0x2000_0000_0000 || a >= 0x2000_0000_0000 + AlignUp(fb)) && Translate(mem, root, Vpn(a)) == Some(f) {
      AddressVisited(a, fb);
    }
  }

  // A user address leads to a frame that was held and is free now.
  ghost predicate LeavesWith(mem: Mem, root: nat, a: nat, out: set<nat>, out': set<nat>) {
    var t := Translate(mem, root, Vpn(a));
    t.Some? && t.value in out && t.value !in out'
  }

  // Exactly the tables and the pages outside the window go. Each user address outside the window leads to
  // one that does, and an address in the window does not, unless the page is mapped outside it, too.
  ghost predicate FreedByAddress(mem: Mem, root: nat, fb: nat, out: set<nat>, out': set<nat>) {
    && (forall f :: f in out && f !in out' <==> IsTable(mem, root, f) || IsPage(mem, root, fb, f))
    && (forall a: nat :: a < 0x8000_0000_0000 && (a < 0x2000_0000_0000 || a >= 0x2000_0000_0000 + AlignUp(fb)) && Translate(mem, root, Vpn(a)).Some? ==>
          LeavesWith(mem, root, a, out, out'))
    && (forall a: nat :: a < 0x8000_0000_0000 && 0x2000_0000_0000 <= a < 0x2000_0000_0000 + AlignUp(fb) && OnlyHere(mem, root, fb, a) ==>
          !LeavesWith(mem, root, a, out, out'))
  }

  // The page at address `a` is no table of the space and not mapped outside the window.
  ghost predicate OnlyHere(mem: Mem, root: nat, fb: nat, a: nat) {
    var t := Translate(mem, root, Vpn(a));
    t.Some? && !IsTable(mem, root, t.value) && !IsPage(mem, root, fb, t.value)
  }

  lemma FreedAddresses(mem: Mem, root: nat, fb: nat, b: Book)
    requires Returnable(b, Returned(mem, root, fb))
    ensures FreedByAddress(mem, root, fb, b.out, Freed(b, Returned(mem, root, fb)).out)
  {
    hide Translate; hide Returned; hide AlignUp; hide Push; hide NoRepeats; hide IsTable; hide IsPage;
    var l, out' := Returned(mem, root, fb), Freed(b, Returned(mem, root, fb)).out;
    forall f ensures f in b.out && f !in out' <==> IsTable(mem, root, f) || IsPage(mem, root, fb, f) {
      ReturnedByAddress(mem, root, fb, f);
      ReturnableOut(b, l, f);
    }
    forall a: nat | a < 0x8000_0000_0000 && (a < 0x2000_0000_0000 || a >= 0x2000_0000_0000 + AlignUp(fb)) && Translate(mem, root, Vpn(a)).Some?
      ensures LeavesWith(mem, root, a, b.out, out')
    {
      assert IsPage(mem, root, fb, Translate(mem, root, Vpn(a)).value) by { PageIs(mem, root, fb, a); }
    }
  }

  lemma PageIs(mem: Mem, root: nat, fb: nat, a: nat)
    requires a < 0x8000_0000_0000 && (a < 0x2000_0000_0000 || a >= 0x2000_0000_0000 + AlignUp(fb)) && Translate(mem, root, Vpn(a)).Some?
    ensures IsPage(mem, root, fb, Translate(mem, root, Vpn(a)).value)
  {
    hide Translate; hide AlignUp;
  }

  lemma ReturnableOut(b: Book, l: seq<nat>, f: nat)
    requires Returnable(b, l)
    ensures f in b.out && f !in Freed(b, l).out <==> f in l
  {
  }

  // Everything the space owns goes back to the allocator: each table of its user half, each page
  // outside the framebuffer window and its top-level table, each exactly once, and nothing of any
  // other space. A user address outside the window leads to a page that goes; one in the window leads to a
  // page that stays, unless the page is mapped outside it, too.
  method DestroyAddrSpace(m: Machine, root: nat, fb: nat)
    requires World(m) && root in m.spaces.roots && root != m.kernelPml4
    requires OwnedSpace(m.frames, m.spaces.roots, m.book.out, root, fb)
    modifies m`frames, m`head, m`book, m`spaces
    ensures World(m) && m.spaces == Spaces(old(m.spaces.roots) - {root}, old(m.spaces.slots) - {root})
    ensures m.book == Freed(old(m.book), Returned(old(m.frames), root, fb))
    ensures Returnable(old(m.book), Returned(old(m.frames), root, fb))
    ensures forall x :: x in Returned(old(m.frames), root, fb) <==>
              exists q :: Visited(q, fb) && Follow(old(m.frames), root, q) == Some(x)
    ensures forall r, q :: r in m.spaces.roots && |q| <= 4 ==> Follow(m.frames, r, q) == Follow(old(m.frames), r, q)
    ensures forall f :: f in old(m.frames).pages && f !in Returned(old(m.frames), root, fb) ==>
              f in m.frames.pages && m.frames.pages[f] == old(m.frames).pages[f]
    ensures |m.book.out| == |old(m.book.out)| - |Returned(old(m.frames), root, fb)|
    ensures FreedByAddress(old(m.frames), root, fb, old(m.book.out), m.book.out)
  {
    hide *;
    ghost var mem0, b0, sp, k := m.frames, m.book, m.spaces, m.kernelPml4;
    WorldParts(m);
    SpacesTree(mem0, sp, k, b0.out);
    OwnedReturnable(mem0, sp.roots, b0, root, fb);
    ReturnedOnce(mem0, root, fb);
    ReturnedIs(mem0, root, fb);
    ReturnableLast(b0, Entries(mem0, root, [], 256, fb), root);
    DestroyEntries(m, root, [], 256, fb);
    FreeFrame(m, root, mem0, b0, Entries(mem0, root, [], 256, fb));
    FreedParts(m, mem0, b0, Returned(mem0, root, fb));
    OthersUndisturbed(mem0, m.frames, sp, k, b0, root, fb);
    FreedCounts(b0, Returned(mem0, root, fb));
    FreedAddresses(mem0, root, fb, b0);
    m.spaces := Spaces(sp.roots - {root}, sp.slots - {root});
    WorldParts(m);
  }

  lemma {:induction false} FreedCounts(b: Book, l: seq<nat>)
    requires Returnable(b, l)
    ensures |Freed(b, l).out| == |b.out| - |l|
  {
    if l == [] {
      FreedOne(b, 0);
    } else {
      var n := |l| - 1;
      assert l == l[..n] + [l[n]];
      ReturnableLast(b, l[..n], l[n]);
      FreedCounts(b, l[..n]);
      assert Freed(b, l).out == Freed(b, l[..n]).out - {l[n]};
    }
  }

  lemma SpacesTree(mem: Mem, sp: Spaces, k: nat, out: set<nat>)
    requires SpacesOk(mem, sp, k, out)
    ensures Tree(mem, sp.roots) && TablesWithin(mem, sp.roots, out)
  {
  }

  lemma ReturnedIs(mem: Mem, root: nat, fb: nat)
    ensures Returned(mem, root, fb) == Entries(mem, root, [], 256, fb) + [root]
  {
  }
}
