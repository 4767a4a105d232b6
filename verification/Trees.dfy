/** What writing one table entry does to every address space that can see it. */
module Trees {
  import opened Prelude
  import opened Words
  import opened PageTables

  // Two roots see one table through slot `s` of their top-level tables; only kernel-half slots
  // are ever shared.
  ghost predicate Shares(mem: Mem, r: nat, r': nat, s: nat) {
    s >= 256 && Follow(mem, r, [s]).Some? && Follow(mem, r, [s]) == Follow(mem, r', [s])
  }

  // The tables below a set of roots form trees: a frame is the table of one path only, and of two
  // roots only below a shared slot.
  ghost predicate Tree(mem: Mem, roots: set<nat>) {
    forall r, p, r', p' :: r in roots && r' in roots && |p| <= 3 && |p'| <= 3 ==> Apart(mem, r, p, r', p')
  }

  ghost predicate Apart(mem: Mem, r: nat, p: seq<nat>, r': nat, p': seq<nat>) {
    Follow(mem, r, p).Some? && Follow(mem, r, p) == Follow(mem, r', p') ==>
      p == p' && (r == r' || (p != [] && Shares(mem, r, r', p[0])))
  }

  // Frame `g` is no table of any of the roots.
  ghost predicate Fresh(mem: Mem, roots: set<nat>, g: nat) {
    forall r, p :: r in roots && |p| <= 3 ==> Follow(mem, r, p) != Some(g)
  }

  ghost predicate TablesWithin(mem: Mem, roots: set<nat>, frames: set<nat>) {
    forall r, p :: r in roots && |p| <= 3 && Follow(mem, r, p).Some? ==>
      Follow(mem, r, p).value in frames
  }

  // ----- storing an entry -----

  ghost predicate Hits(mem: Mem, r: nat, p: seq<nat>, t: nat, i: nat, q: seq<nat>) {
    Follow(mem, r, p) == Some(t) && p + [i] <= q
  }

  lemma StoreFollow(mem: Mem, roots: set<nat>, r0: nat, p: seq<nat>, t: nat, i: nat, w: Word,
                    r: nat, q: seq<nat>)
    requires Tree(mem, roots) && r0 in roots && |p| <= 3 && Follow(mem, r0, p) == Some(t)
    requires t in mem.pages && i < 512 && r in roots && |q| <= 4
    requires !Hits(mem, r, p, t, i, q)
    ensures Follow(Store(mem, t, i, w), r, q) == Follow(mem, r, q)
  {
    var mem' := Store(mem, t, i, w);
    hide Tree; hide Follow; hide Link; hide Store;
    forall k, t' | 0 <= k < |q| && Follow(mem, r, q[..k]) == Some(t')
      ensures Link(mem, t', q[k]) == Link(mem', t', q[k])
    {
      if t' == t {
        OnePath(mem, roots, r, q[..k], r0, p);
        MissesEntry(mem, r, p, t, i, q, k);
      }
      StoreLink(mem, t, i, w, t', q[k]);
    }
    FollowSame(mem, mem', r, q);
  }

  lemma StoreLink(mem: Mem, t: nat, i: nat, w: Word, u: nat, j: nat)
    requires t in mem.pages && i < 512 && (u != t || j != i)
    ensures Link(Store(mem, t, i, w), u, j) == Link(mem, u, j)
  {
  }

  lemma OnePath(mem: Mem, roots: set<nat>, r: nat, p: seq<nat>, r': nat, p': seq<nat>)
    requires Tree(mem, roots) && r in roots && r' in roots && |p| <= 3 && |p'| <= 3
    requires Follow(mem, r, p).Some? && Follow(mem, r, p) == Follow(mem, r', p')
    ensures p == p' && (r == r' || (p != [] && Shares(mem, r, r', p[0])))
  {
    assert Apart(mem, r, p, r', p');
  }

  lemma MissesEntry(mem: Mem, r: nat, p: seq<nat>, t: nat, i: nat, q: seq<nat>, k: nat)
    requires k < |q| && q[..k] == p && Follow(mem, r, p) == Some(t) && !Hits(mem, r, p, t, i, q)
    ensures q[k] != i
  {
    assert q[..k + 1] == p + [q[k]];
  }

  // ----- _get_or_create -----

  // The memory after `_get_or_create` on entry `i` of table `t`; `g` is the frame the allocator
  // would hand out.
  function Grow(mem: Mem, t: nat, i: nat, flags: Word, g: nat): Mem
    requires t in mem.pages && i < 512 && g < 0x100_0000_0000
  {
    if Present(mem.pages[t][i]) then
      Store(mem, t, i, Widen(mem.pages[t][i], flags))
    else
      Store(Zeroed(mem, g), t, i, TableEntry(g, flags))
  }

  ghost predicate GrowPre(mem: Mem, roots: set<nat>, r0: nat, p: seq<nat>, t: nat, i: nat, g: nat) {
    && Tree(mem, roots) && r0 in roots && |p| <= 2
    && Follow(mem, r0, p) == Some(t) && t in mem.pages && i < 512
    && g < 0x100_0000_0000 && (Present(mem.pages[t][i]) || (g in mem.pages && Fresh(mem, roots, g)))
  }

  lemma WidenFollow(mem: Mem, t: nat, i: nat, flags: Word, r: nat, q: seq<nat>)
    requires t in mem.pages && i < 512
    ensures Follow(Store(mem, t, i, Widen(mem.pages[t][i], flags)), r, q) == Follow(mem, r, q)
  {
    FollowSame(mem, Store(mem, t, i, Widen(mem.pages[t][i], flags)), r, q);
  }

  lemma ZeroFollow(mem: Mem, roots: set<nat>, g: nat, r: nat, q: seq<nat>)
    requires Fresh(mem, roots, g) && r in roots && |q| <= 4
    ensures Follow(Zeroed(mem, g), r, q) == Follow(mem, r, q)
  {
    FollowSame(mem, Zeroed(mem, g), r, q);
  }

  lemma ZeroTree(mem: Mem, roots: set<nat>, g: nat)
    requires Fresh(mem, roots, g) && Tree(mem, roots)
    ensures Tree(Zeroed(mem, g), roots)
  {
    var mem' := Zeroed(mem, g);
    forall r, p, r', p' | r in roots && r' in roots && |p| <= 3 && |p'| <= 3
      ensures Apart(mem', r, p, r', p')
    {
      ZeroFollow(mem, roots, g, r, p);
      ZeroFollow(mem, roots, g, r', p');
      assert Apart(mem, r, p, r', p');
      if p != [] {
        ZeroFollow(mem, roots, g, r, [p[0]]);
        ZeroFollow(mem, roots, g, r', [p[0]]);
      }
    }
  }

  // Every path of every root after `_get_or_create`.
  ghost function GrownFollow(mem: Mem, p: seq<nat>, t: nat, i: nat, g: nat, r: nat, q: seq<nat>): Option<nat>
    requires t in mem.pages && i < 512
  {
    if !Present(mem.pages[t][i]) && Hits(mem, r, p, t, i, q) then
      if |q| == |p| + 1 then Some(g) else None
    else
      Follow(mem, r, q)
  }

  lemma GrowFollow(mem: Mem, roots: set<nat>, r0: nat, p: seq<nat>, t: nat, i: nat, flags: Word, g: nat,
                   r: nat, q: seq<nat>)
    requires GrowPre(mem, roots, r0, p, t, i, g) && r in roots && |q| <= 4
    ensures Follow(Grow(mem, t, i, flags, g), r, q) == GrownFollow(mem, p, t, i, g, r, q)
    decreases |q|
  {
    if Present(mem.pages[t][i]) {
      WidenFollow(mem, t, i, flags, r, q);
      return;
    }
    var zeroed := Zeroed(mem, g);
    assert t != g;
    ZeroTree(mem, roots, g);
    ZeroFollow(mem, roots, g, r0, p);
    ZeroFollow(mem, roots, g, r, p);
    ZeroFollow(mem, roots, g, r, q);
    if !Hits(mem, r, p, t, i, q) {
      StoreFollow(zeroed, roots, r0, p, t, i, TableEntry(g, flags), r, q);
    } else {
      var n := |q| - 1;
      GrowFollow(mem, roots, r0, p, t, i, flags, g, r, q[..n]);
      if n == |p| {
        assert q[..n] == p;
        assert q[n] == (p + [i])[n] == i;
      } else {
        assert p + [i] <= q[..n];
      }
    }
  }

  // ----- entries as words, with their permission bits -----

  // The word that path `q` (not empty) reads last; zero when a table on the way is missing.
  function PteOf(mem: Mem, r: nat, q: seq<nat>): Word
    requires q != []
  {
    var t := Follow(mem, r, q[..|q| - 1]);
    if t.Some? && t.value in mem.pages && q[|q| - 1] < 512 then mem.pages[t.value][q[|q| - 1]] else 0
  }

  // `w'` still points where `w` points and grants at least what `w` grants.
  predicate Covers(w: Word, w': Word) {
    Present(w) ==>
      && Present(w') && FrameOf(w') == FrameOf(w)
      && (UserBit(w) ==> UserBit(w')) && (Writable(w) ==> Writable(w')) && (NoExecute(w') ==> NoExecute(w))
  }

  // The upper levels only grew, no page changed, and the same slots are shared.
  ghost predicate Extends(mem: Mem, mem': Mem, roots: set<nat>) {
    && (forall r, q :: r in roots && 1 <= |q| <= 3 ==> Covers(PteOf(mem, r, q), PteOf(mem', r, q)))
    && (forall r, q :: r in roots && |q| == 4 ==> PteOf(mem', r, q) == PteOf(mem, r, q))
    && (forall r, r', s :: r in roots && r' in roots && r != r' ==> Shares(mem', r, r', s) == Shares(mem, r, r', s))
  }

  lemma ExtendsTransitive(a: Mem, b: Mem, c: Mem, roots: set<nat>)
    requires Extends(a, b, roots) && Extends(b, c, roots)
    ensures Extends(a, c, roots)
  {
    hide PteOf; hide Shares;
  }

  lemma {:induction false} ExtendsFollow(mem: Mem, mem': Mem, roots: set<nat>, r: nat, q: seq<nat>)
    requires Extends(mem, mem', roots) && r in roots && |q| <= 3 && Follow(mem, r, q).Some?
    ensures Follow(mem', r, q) == Follow(mem, r, q)
  {
    if q != [] {
      assert Covers(PteOf(mem, r, q), PteOf(mem', r, q));
    }
  }

  // Below an entry that is not present there is nothing.
  lemma NothingBelow(mem: Mem, r: nat, p: seq<nat>, t: nat, i: nat, q: seq<nat>)
    requires t in mem.pages && i < 512 && !Present(mem.pages[t][i]) && Hits(mem, r, p, t, i, q)
    ensures Follow(mem, r, q).None?
  {
    var n := |p| + 1;
    assert q[..n] == p + [i] && (p + [i])[..|p|] == p;
    if Follow(mem, r, q).Some? {
      FollowPrefix(mem, r, q, n);
    }
  }

  lemma GrowKeeps(mem: Mem, roots: set<nat>, r0: nat, p: seq<nat>, t: nat, i: nat, flags: Word, g: nat,
                  r: nat, q: seq<nat>)
    requires GrowPre(mem, roots, r0, p, t, i, g) && r in roots && |q| <= 4 && Follow(mem, r, q).Some?
    ensures Follow(Grow(mem, t, i, flags, g), r, q) == Follow(mem, r, q)
  {
    GrowFollow(mem, roots, r0, p, t, i, flags, g, r, q);
    if !Present(mem.pages[t][i]) && Hits(mem, r, p, t, i, q) {
      NothingBelow(mem, r, p, t, i, q);
    }
  }

  lemma GrowWord(mem: Mem, t: nat, i: nat, flags: Word, g: nat, u: nat, j: nat)
    requires t in mem.pages && i < 512 && g < 0x100_0000_0000
    requires u in mem.pages && (Present(mem.pages[t][i]) || (u != g && t != g)) && j < 512
    ensures Covers(mem.pages[u][j], Grow(mem, t, i, flags, g).pages[u][j])
    ensures u != t || j != i ==> Grow(mem, t, i, flags, g).pages[u][j] == mem.pages[u][j]
  {
    hide FrameOf; hide Widen; hide TableEntry; hide NoExecute;
    TableBits(g, mem.pages[t][i], flags);
  }

  lemma GrowUpper(mem: Mem, roots: set<nat>, r0: nat, p: seq<nat>, t: nat, i: nat, flags: Word, g: nat,
                  r: nat, q: seq<nat>)
    requires GrowPre(mem, roots, r0, p, t, i, g) && r in roots && 1 <= |q| <= 3
    ensures Covers(PteOf(mem, r, q), PteOf(Grow(mem, t, i, flags, g), r, q))
  {
    var front := q[..|q| - 1];
    var u := Follow(mem, r, front);
    if u.Some? && u.value in mem.pages && q[|q| - 1] < 512 {
      assert !Present(mem.pages[t][i]) ==> u.value != g && t != g;
      GrowKeeps(mem, roots, r0, p, t, i, flags, g, r, front);
      hide Tree; hide Follow;
      GrowWord(mem, t, i, flags, g, u.value, q[|q| - 1]);
    } else {
      assert !Present(PteOf(mem, r, q));
    }
  }

  lemma GrowLeaf(mem: Mem, roots: set<nat>, r0: nat, p: seq<nat>, t: nat, i: nat, flags: Word, g: nat,
                 r: nat, q: seq<nat>)
    requires GrowPre(mem, roots, r0, p, t, i, g) && r in roots && |q| == 4
    ensures PteOf(Grow(mem, t, i, flags, g), r, q) == PteOf(mem, r, q)
  {
    var mem' := Grow(mem, t, i, flags, g);
    var front := q[..3];
    var u := Follow(mem, r, front);
    GrowFollow(mem, roots, r0, p, t, i, flags, g, r, front);
    if u.Some? {
      GrowKeeps(mem, roots, r0, p, t, i, flags, g, r, front);
      if u.value == t {
        OnePath(mem, roots, r, front, r0, p);
        assert false;
      }
      assert !Present(mem.pages[t][i]) ==> u.value != g && t != g;
      hide Tree; hide Follow;
      if u.value in mem.pages && q[3] < 512 {
        GrowWord(mem, t, i, flags, g, u.value, q[3]);
      }
    }
  }

  lemma GrowShares(mem: Mem, roots: set<nat>, r0: nat, p: seq<nat>, t: nat, i: nat, flags: Word, g: nat,
                   r: nat, r': nat, s: nat)
    requires GrowPre(mem, roots, r0, p, t, i, g) && r in roots && r' in roots && r != r'
    ensures Shares(Grow(mem, t, i, flags, g), r, r', s) == Shares(mem, r, r', s)
  {
    hide Tree; hide Grow;
    GrowSlot(mem, roots, r0, p, t, i, flags, g, r, s);
    GrowSlot(mem, roots, r0, p, t, i, flags, g, r', s);
  }

  // A top-level slot only changes in the root whose entry was missing, and then to the new frame.
  lemma GrowSlot(mem: Mem, roots: set<nat>, r0: nat, p: seq<nat>, t: nat, i: nat, flags: Word, g: nat,
                 r: nat, s: nat)
    requires GrowPre(mem, roots, r0, p, t, i, g) && r in roots
    ensures !Present(mem.pages[t][i]) ==> Follow(mem, r, [s]) != Some(g)
    ensures Follow(Grow(mem, t, i, flags, g), r, [s]) == Follow(mem, r, [s])
      || (!Present(mem.pages[t][i]) && r == t && Follow(mem, r, [s]).None? && Follow(Grow(mem, t, i, flags, g), r, [s]) == Some(g))
  {
    GrowFollow(mem, roots, r0, p, t, i, flags, g, r, [s]);
    if Hits(mem, r, p, t, i, [s]) {
      assert |p + [i]| <= 1;
      assert p == [];
      if !Present(mem.pages[t][i]) {
        NothingBelow(mem, r, p, t, i, [s]);
      }
    }
  }

  lemma GrowTree(mem: Mem, roots: set<nat>, r0: nat, p: seq<nat>, t: nat, i: nat, flags: Word, g: nat)
    requires GrowPre(mem, roots, r0, p, t, i, g)
    ensures Tree(Grow(mem, t, i, flags, g), roots)
  {
    var mem' := Grow(mem, t, i, flags, g);
    hide GrowPre; hide Grow; hide Apart;
    forall r, q, r', q' | r in roots && r' in roots && |q| <= 3 && |q'| <= 3
      ensures Apart(mem', r, q, r', q')
    {
      GrowPair(mem, roots, r0, p, t, i, flags, g, r, q, r', q');
    }
  }

  lemma GrowPair(mem: Mem, roots: set<nat>, r0: nat, p: seq<nat>, t: nat, i: nat, flags: Word, g: nat,
                 r: nat, q: seq<nat>, r': nat, q': seq<nat>)
    requires GrowPre(mem, roots, r0, p, t, i, g)
    requires r in roots && r' in roots && |q| <= 3 && |q'| <= 3
    ensures Apart(Grow(mem, t, i, flags, g), r, q, r', q')
  {
    var mem' := Grow(mem, t, i, flags, g);
    if Follow(mem', r, q).Some? && Follow(mem', r, q) == Follow(mem', r', q') {
      GrowFollow(mem, roots, r0, p, t, i, flags, g, r, q);
      GrowFollow(mem, roots, r0, p, t, i, flags, g, r', q');
      assert !Present(mem.pages[t][i]) ==> Follow(mem, r, q) != Some(g) && Follow(mem, r', q') != Some(g);
      hide Grow; hide Follow; hide Shares;
      if !Present(mem.pages[t][i]) && Follow(mem', r, q) == Some(g) {
        assert q == p + [i] && q' == p + [i];
        OnePath(mem, roots, r, p, r', p);
      } else {
        OnePath(mem, roots, r, q, r', q');
      }
      if r != r' {
        GrowShares(mem, roots, r0, p, t, i, flags, g, r, r', q[0]);
      }
    }
  }

  lemma GrowTables(mem: Mem, roots: set<nat>, r0: nat, p: seq<nat>, t: nat, i: nat, flags: Word, g: nat,
                   frames: set<nat>)
    requires GrowPre(mem, roots, r0, p, t, i, g) && TablesWithin(mem, roots, frames)
    ensures TablesWithin(Grow(mem, t, i, flags, g), roots, frames + {g})
    ensures Present(mem.pages[t][i]) ==> TablesWithin(Grow(mem, t, i, flags, g), roots, frames)
  {
    var mem' := Grow(mem, t, i, flags, g);
    forall r, q | r in roots && |q| <= 3 && Follow(mem', r, q).Some?
      ensures Follow(mem', r, q).value in frames + {g}
      ensures Present(mem.pages[t][i]) ==> Follow(mem', r, q).value in frames
    {
      GrowFollow(mem, roots, r0, p, t, i, flags, g, r, q);
    }
  }

  // All that `_get_or_create` does: the child exists and carries the flags asked for, the upper
  // levels only grow, no page changes, and what is shared stays shared.
  lemma GrowEffect(mem: Mem, roots: set<nat>, r0: nat, p: seq<nat>, t: nat, i: nat, flags: Word, g: nat)
    requires GrowPre(mem, roots, r0, p, t, i, g) && Open(mem, roots)
    ensures var mem' := Grow(mem, t, i, flags, g);
      && Tree(mem', roots) && Open(mem', roots) && Extends(mem, mem', roots)
      && Follow(mem', r0, p + [i]) == Some(if Present(mem.pages[t][i]) then FrameOf(mem.pages[t][i]) else g)
      && Grants(PteOf(mem', r0, p + [i]), flags)
  {
    var mem' := Grow(mem, t, i, flags, g);
    GrowTree(mem, roots, r0, p, t, i, flags, g);
    GrowOpen(mem, roots, r0, p, t, i, flags, g);
    forall r, q | r in roots && 1 <= |q| <= 3
      ensures Covers(PteOf(mem, r, q), PteOf(mem', r, q))
    {
      GrowUpper(mem, roots, r0, p, t, i, flags, g, r, q);
    }
    forall r, q | r in roots && |q| == 4
      ensures PteOf(mem', r, q) == PteOf(mem, r, q)
    {
      GrowLeaf(mem, roots, r0, p, t, i, flags, g, r, q);
    }
    forall r, r', s | r in roots && r' in roots && r != r'
      ensures Shares(mem', r, r', s) == Shares(mem, r, r', s)
    {
      GrowShares(mem, roots, r0, p, t, i, flags, g, r, r', s);
    }
    GrowChild(mem, roots, r0, p, t, i, flags, g);
  }

  // The entry is present and grants user access, writing and execution if `flags` does.
  predicate Grants(w: Word, flags: Word) {
    Present(w) && (UserBit(flags) ==> UserBit(w)) && (Writable(flags) ==> Writable(w)) && (NoExecute(w) ==> NoExecute(flags))
  }

  // No entry above the pages forbids execution.
  ghost predicate Open(mem: Mem, roots: set<nat>) {
    forall r, q :: r in roots && 1 <= |q| <= 3 ==> !NoExecute(PteOf(mem, r, q))
  }

  lemma GrowOpen(mem: Mem, roots: set<nat>, r0: nat, p: seq<nat>, t: nat, i: nat, flags: Word, g: nat)
    requires GrowPre(mem, roots, r0, p, t, i, g) && Open(mem, roots)
    ensures Open(Grow(mem, t, i, flags, g), roots)
  {
    hide Tree; hide Grow; hide NoExecute; hide PteOf; hide Fresh; hide Follow;
    forall r, q | r in roots && 1 <= |q| <= 3 ensures !NoExecute(PteOf(Grow(mem, t, i, flags, g), r, q)) {
      GrowOpenAt(mem, roots, r0, p, t, i, flags, g, r, q);
    }
  }

  // The new table is empty, the entry that leads to it is open, and a wider one stays open.
  lemma GrowOpenAt(mem: Mem, roots: set<nat>, r0: nat, p: seq<nat>, t: nat, i: nat, flags: Word, g: nat, r: nat, q: seq<nat>)
    requires GrowPre(mem, roots, r0, p, t, i, g) && Open(mem, roots) && r in roots && 1 <= |q| <= 3
    ensures !NoExecute(PteOf(Grow(mem, t, i, flags, g), r, q))
  {
    hide Tree; hide Follow; hide NoExecute; hide Open; hide Grow; hide Fresh;
    var front, j := q[..|q| - 1], q[|q| - 1];
    GrowPlaces(mem, roots, r0, p, t, i, flags, g, r, front);
    OpenEntry(mem, roots, r0, p, t, i);
    ZeroOpen();
    var u := Follow(mem, r, front);
    if u.Some? && u.value in mem.pages && j < 512 {
      OpenEntry(mem, roots, r, front, u.value, j);
      GrowOpenWord(mem, t, i, flags, g, u.value, j);
    }
    if !Present(mem.pages[t][i]) && t != g && j < 512 { GrowNew(mem, t, i, flags, g, j); }
  }

  lemma ZeroOpen()
    ensures !NoExecute(0)
  {
  }

  // A path leads where it led, or to the new table, or nowhere.
  lemma GrowPlaces(mem: Mem, roots: set<nat>, r0: nat, p: seq<nat>, t: nat, i: nat, flags: Word, g: nat, r: nat, q: seq<nat>)
    requires GrowPre(mem, roots, r0, p, t, i, g) && r in roots && |q| <= 3
    ensures var x := Follow(Grow(mem, t, i, flags, g), r, q);
      x == Follow(mem, r, q) || x.None? || (x == Some(g) && !Present(mem.pages[t][i]))
    ensures !Present(mem.pages[t][i]) ==> t != g
    ensures Grow(mem, t, i, flags, g).pages.Keys == mem.pages.Keys + (if Present(mem.pages[t][i]) then {} else {g})
  {
    GrowFollow(mem, roots, r0, p, t, i, flags, g, r, q);
    hide Tree; hide Follow; hide FrameOf;
  }

  lemma OpenEntry(mem: Mem, roots: set<nat>, r: nat, p: seq<nat>, t: nat, i: nat)
    requires Open(mem, roots) && r in roots && |p| <= 2 && Follow(mem, r, p) == Some(t) && t in mem.pages && i < 512
    ensures !NoExecute(mem.pages[t][i])
  {
    hide Follow; hide NoExecute;
    var q := p + [i];
    assert q[..|p|] == p && q[|p|] == i;
    assert !NoExecute(PteOf(mem, r, q));
  }

  lemma GrowOpenWord(mem: Mem, t: nat, i: nat, flags: Word, g: nat, u: nat, j: nat)
    requires t in mem.pages && i < 512 && g < 0x100_0000_0000 && u in mem.pages && j < 512
    requires !NoExecute(mem.pages[t][i]) && !NoExecute(mem.pages[u][j])
    ensures u in Grow(mem, t, i, flags, g).pages && !NoExecute(Grow(mem, t, i, flags, g).pages[u][j])
  {
    hide FrameOf; hide Widen; hide TableEntry; hide NoExecute;
    TableBits(g, mem.pages[t][i], flags);
    ZeroOpen();
  }

  lemma GrowNew(mem: Mem, t: nat, i: nat, flags: Word, g: nat, j: nat)
    requires t in mem.pages && i < 512 && g < 0x100_0000_0000 && t != g && j < 512 && !Present(mem.pages[t][i])
    ensures g in Grow(mem, t, i, flags, g).pages && !NoExecute(Grow(mem, t, i, flags, g).pages[g][j])
  {
  }

  lemma GrowChild(mem: Mem, roots: set<nat>, r0: nat, p: seq<nat>, t: nat, i: nat, flags: Word, g: nat)
    requires GrowPre(mem, roots, r0, p, t, i, g) && Open(mem, roots)
    ensures var mem' := Grow(mem, t, i, flags, g);
      && Follow(mem', r0, p + [i]) == Some(if Present(mem.pages[t][i]) then FrameOf(mem.pages[t][i]) else g)
      && Grants(PteOf(mem', r0, p + [i]), flags)
  {
    hide Tree; hide Follow; hide NoExecute; hide Open; hide Grow; hide Fresh; hide Grants; hide PteOf; hide FrameOf;
    GrowPlaces(mem, roots, r0, p, t, i, flags, g, r0, p);
    GrowKeeps(mem, roots, r0, p, t, i, flags, g, r0, p);
    OpenEntry(mem, roots, r0, p, t, i);
    GrowEntry(mem, t, i, flags, g);
    EntryAt(Grow(mem, t, i, flags, g), r0, p, t, i);
  }

  lemma GrowEntry(mem: Mem, t: nat, i: nat, flags: Word, g: nat)
    requires t in mem.pages && i < 512 && g < 0x100_0000_0000 && !NoExecute(mem.pages[t][i]) && (Present(mem.pages[t][i]) || t != g)
    ensures t in Grow(mem, t, i, flags, g).pages && Grants(Grow(mem, t, i, flags, g).pages[t][i], flags)
    ensures Present(Grow(mem, t, i, flags, g).pages[t][i])
    ensures FrameOf(Grow(mem, t, i, flags, g).pages[t][i]) == if Present(mem.pages[t][i]) then FrameOf(mem.pages[t][i]) else g
  {
    hide FrameOf; hide NoExecute; hide Widen; hide TableEntry;
    TableBits(g, mem.pages[t][i], flags);
  }

  lemma EntryAt(mem: Mem, r: nat, p: seq<nat>, t: nat, i: nat)
    requires Follow(mem, r, p) == Some(t) && t in mem.pages && i < 512
    ensures PteOf(mem, r, p + [i]) == mem.pages[t][i]
    ensures Follow(mem, r, p + [i]) == if Present(mem.pages[t][i]) then Some(FrameOf(mem.pages[t][i])) else None
  {
    assert (p + [i])[..|p|] == p && (p + [i])[|p|] == i;
  }

  // ----- writing a page's entry -----

  // Root `r` reads the tables of `r0` for paths that start at slot `s`.
  ghost predicate SeesAs(mem: Mem, r: nat, r0: nat, s: nat) {
    r == r0 || Shares(mem, r, r0, s)
  }

  // Writing entry word `w` for path `q` below root `r0`: exactly the pages named `q` in the spaces
  // that see `r0`'s tables change; the upper levels only grow.
  ghost predicate Maps(mem: Mem, mem': Mem, roots: set<nat>, r0: nat, q: seq<nat>, w: Word)
    requires |q| == 4
  {
    && (forall r, p :: r in roots && 1 <= |p| <= 3 ==> Covers(PteOf(mem, r, p), PteOf(mem', r, p)))
    && (forall r, p :: r in roots && |p| == 4 ==>
          PteOf(mem', r, p) == if p == q && SeesAs(mem, r, r0, q[0]) then w else PteOf(mem, r, p))
    && (forall r, r', s :: r in roots && r' in roots && r != r' ==> Shares(mem', r, r', s) == Shares(mem, r, r', s))
  }

  lemma ExtendsThenMaps(a: Mem, b: Mem, c: Mem, roots: set<nat>, r0: nat, q: seq<nat>, w: Word)
    requires |q| == 4 && r0 in roots && Extends(a, b, roots) && Maps(b, c, roots, r0, q, w)
    ensures Maps(a, c, roots, r0, q, w)
  {
    hide PteOf; hide Shares;
  }

  // Which roots reach the table that `r0` reaches at a path of length 3: those that see its slot.
  lemma SameTable(mem: Mem, roots: set<nat>, r0: nat, r: nat, p: seq<nat>, p': seq<nat>)
    requires Tree(mem, roots) && r0 in roots && r in roots && |p| == |p'| == 3 && Follow(mem, r0, p).Some?
    ensures Follow(mem, r, p') == Follow(mem, r0, p) <==> p' == p && SeesAs(mem, r, r0, p[0])
  {
    if Follow(mem, r, p') == Follow(mem, r0, p) {
      OnePath(mem, roots, r, p', r0, p);
    }
    if p' == p && Shares(mem, r, r0, p[0]) {
      assert p == [p[0]] + p[1..];
      FollowFrom(mem, r, [p[0]], p[1..]);
      FollowFrom(mem, r0, [p[0]], p[1..]);
    }
  }

  lemma LeafUpper(mem: Mem, roots: set<nat>, r0: nat, p: seq<nat>, t: nat, i: nat, w: Word, r: nat, q: seq<nat>)
    requires Tree(mem, roots) && r0 in roots && |p| == 3 && Follow(mem, r0, p) == Some(t)
    requires t in mem.pages && i < 512 && r in roots && |q| <= 3
    ensures Follow(Store(mem, t, i, w), r, q) == Follow(mem, r, q)
    ensures q != [] ==> PteOf(Store(mem, t, i, w), r, q) == PteOf(mem, r, q)
  {
    StoreFollow(mem, roots, r0, p, t, i, w, r, q);
    if q != [] {
      var front := q[..|q| - 1];
      StoreFollow(mem, roots, r0, p, t, i, w, r, front);
      if Follow(mem, r, front) == Some(t) {
        OnePath(mem, roots, r, front, r0, p);
        assert false;
      }
    }
  }

  lemma LeafEntry(mem: Mem, roots: set<nat>, r0: nat, p: seq<nat>, t: nat, i: nat, w: Word, r: nat, q: seq<nat>)
    requires Tree(mem, roots) && r0 in roots && |p| == 3 && Follow(mem, r0, p) == Some(t)
    requires t in mem.pages && i < 512 && r in roots && |q| == 4
    ensures PteOf(Store(mem, t, i, w), r, q) ==
            if q == p + [i] && SeesAs(mem, r, r0, p[0]) then w else PteOf(mem, r, q)
  {
    var front := q[..3];
    LeafUpper(mem, roots, r0, p, t, i, w, r, front);
    SameTable(mem, roots, r0, r, p, front);
    assert q == front + [q[3]];
    assert q == p + [i] <==> front == p && q[3] == i;
  }

  lemma LeafEffect(mem: Mem, roots: set<nat>, r0: nat, p: seq<nat>, t: nat, i: nat, w: Word)
    requires Tree(mem, roots) && r0 in roots && |p| == 3 && Follow(mem, r0, p) == Some(t)
    requires t in mem.pages && i < 512
    ensures Tree(Store(mem, t, i, w), roots) && Maps(mem, Store(mem, t, i, w), roots, r0, p + [i], w)
    ensures Open(mem, roots) ==> Open(Store(mem, t, i, w), roots)
  {
    var mem' := Store(mem, t, i, w);
    forall r, q, r', q' | r in roots && r' in roots && |q| <= 3 && |q'| <= 3
      ensures Apart(mem', r, q, r', q')
    {
      LeafApart(mem, roots, r0, p, t, i, w, r, q, r', q');
    }
    forall r, q | r in roots && 1 <= |q| <= 3
      ensures PteOf(mem', r, q) == PteOf(mem, r, q)
    {
      LeafUpper(mem, roots, r0, p, t, i, w, r, q);
    }
    forall r, q | r in roots && |q| == 4
      ensures PteOf(mem', r, q) == if q == p + [i] && SeesAs(mem, r, r0, (p + [i])[0]) then w else PteOf(mem, r, q)
    {
      LeafEntry(mem, roots, r0, p, t, i, w, r, q);
    }
    forall r, r', s | r in roots && r' in roots && r != r'
      ensures Shares(mem', r, r', s) == Shares(mem, r, r', s)
    {
      LeafUpper(mem, roots, r0, p, t, i, w, r, [s]);
      LeafUpper(mem, roots, r0, p, t, i, w, r', [s]);
    }
  }

  lemma LeafApart(mem: Mem, roots: set<nat>, r0: nat, p: seq<nat>, t: nat, i: nat, w: Word,
                  r: nat, q: seq<nat>, r': nat, q': seq<nat>)
    requires Tree(mem, roots) && r0 in roots && |p| == 3 && Follow(mem, r0, p) == Some(t)
    requires t in mem.pages && i < 512
    requires r in roots && r' in roots && |q| <= 3 && |q'| <= 3
    ensures Apart(Store(mem, t, i, w), r, q, r', q')
  {
    LeafUpper(mem, roots, r0, p, t, i, w, r, q);
    LeafUpper(mem, roots, r0, p, t, i, w, r', q');
    assert Apart(mem, r, q, r', q');
    if q != [] {
      LeafUpper(mem, roots, r0, p, t, i, w, r, [q[0]]);
      LeafUpper(mem, roots, r0, p, t, i, w, r', [q[0]]);
    }
  }

  lemma LeafTables(mem: Mem, roots: set<nat>, r0: nat, p: seq<nat>, t: nat, i: nat, w: Word, frames: set<nat>)
    requires Tree(mem, roots) && r0 in roots && |p| == 3 && Follow(mem, r0, p) == Some(t)
    requires t in mem.pages && i < 512 && TablesWithin(mem, roots, frames)
    ensures TablesWithin(Store(mem, t, i, w), roots, frames)
  {
    forall r, q | r in roots && |q| <= 3 && Follow(Store(mem, t, i, w), r, q).Some?
      ensures Follow(Store(mem, t, i, w), r, q).value in frames
    {
      LeafUpper(mem, roots, r0, p, t, i, w, r, q);
    }
  }

  // ----- frames that are no tables -----

  // Of the frames `out`, those that are no table stay none and keep their contents.
  ghost predicate DataKept(mem: Mem, mem': Mem, roots: set<nat>, out: set<nat>) {
    forall f :: f in out && f in mem.pages && Fresh(mem, roots, f) ==>
      f in mem'.pages && mem'.pages[f] == mem.pages[f] && Fresh(mem', roots, f)
  }

  lemma GrowData(mem: Mem, roots: set<nat>, r0: nat, p: seq<nat>, t: nat, i: nat, flags: Word, g: nat, out: set<nat>)
    requires GrowPre(mem, roots, r0, p, t, i, g) && (Present(mem.pages[t][i]) || g !in out)
    ensures DataKept(mem, Grow(mem, t, i, flags, g), roots, out)
    ensures Grow(mem, t, i, flags, g).pages.Keys == mem.pages.Keys + (if Present(mem.pages[t][i]) then {} else {g})
  {
    var mem' := Grow(mem, t, i, flags, g);
    forall f | f in out && f in mem.pages && Fresh(mem, roots, f)
      ensures f in mem'.pages && mem'.pages[f] == mem.pages[f] && Fresh(mem', roots, f)
    {
      assert f != t;
      forall r, q | r in roots && |q| <= 3 ensures Follow(mem', r, q) != Some(f) {
        GrowFollow(mem, roots, r0, p, t, i, flags, g, r, q);
      }
    }
  }

  lemma LeafData(mem: Mem, roots: set<nat>, r0: nat, p: seq<nat>, t: nat, i: nat, w: Word, out: set<nat>)
    requires Tree(mem, roots) && r0 in roots && |p| == 3 && Follow(mem, r0, p) == Some(t)
    requires t in mem.pages && i < 512
    ensures DataKept(mem, Store(mem, t, i, w), roots, out)
  {
    var mem' := Store(mem, t, i, w);
    forall f | f in out && f in mem.pages && Fresh(mem, roots, f)
      ensures f in mem'.pages && mem'.pages[f] == mem.pages[f] && Fresh(mem', roots, f)
    {
      assert f != t;
      forall r, q | r in roots && |q| <= 3 ensures Follow(mem', r, q) != Some(f) {
        LeafUpper(mem, roots, r0, p, t, i, w, r, q);
      }
    }
  }

  // ----- memory that changes outside the tables -----

  // The tables of the roots lie in `frames`, and those frames are the same in both memories.
  ghost predicate Undisturbed(mem: Mem, mem': Mem, roots: set<nat>, frames: set<nat>) {
    && TablesWithin(mem, roots, frames)
    && mem'.pages.Keys == mem.pages.Keys
    && forall f :: f in frames && f in mem.pages ==> mem'.pages[f] == mem.pages[f]
  }

  lemma UndisturbedPath(mem: Mem, mem': Mem, roots: set<nat>, frames: set<nat>, r: nat, q: seq<nat>)
    requires Undisturbed(mem, mem', roots, frames) && r in roots && |q| <= 4
    ensures Follow(mem', r, q) == Follow(mem, r, q)
    ensures q != [] ==> PteOf(mem', r, q) == PteOf(mem, r, q)
  {
    FollowSame(mem, mem', r, q);
    if q != [] {
      UndisturbedPath(mem, mem', roots, frames, r, q[..|q| - 1]);
    }
  }

  lemma UndisturbedTree(mem: Mem, mem': Mem, roots: set<nat>, frames: set<nat>)
    requires Undisturbed(mem, mem', roots, frames) && Tree(mem, roots)
    ensures Tree(mem', roots) && TablesWithin(mem', roots, frames)
    ensures Extends(mem, mem', roots) && DataKept(mem, mem', roots, frames) && (Open(mem, roots) ==> Open(mem', roots))
  {
    hide Follow; hide PteOf; hide FrameOf; hide Link;
    forall r, q | r in roots && |q| <= 4
      ensures Follow(mem', r, q) == Follow(mem, r, q)
      ensures q != [] ==> PteOf(mem', r, q) == PteOf(mem, r, q)
    {
      UndisturbedPath(mem, mem', roots, frames, r, q);
    }
    forall r, p, r', p' | r in roots && r' in roots && |p| <= 3 && |p'| <= 3
      ensures Apart(mem', r, p, r', p')
    {
      assert Apart(mem, r, p, r', p');
    }
  }
}
