/** What a mapped page may be used for. */
module Rights {
  import opened Words
  import opened PageTables
  import opened Trees
  import opened Vmm
  import opened Ranges

  // The entry of page `vp` has exactly these rights, and the three levels above it let them through.
  ghost predicate PageHas(mem: Mem, root: nat, vp: nat, user: bool, writable: bool, noExecute: bool) {
    var w := Pte(mem, root, vp);
    && Present(w) && UserBit(w) == user && Writable(w) == writable && NoExecute(w) == noExecute
    && (forall k :: 1 <= k <= 3 ==> LetsThrough(PteOf(mem, root, PathOf(vp)[..k]), user, writable, noExecute))
  }

  predicate LetsThrough(w: Word, user: bool, writable: bool, noExecute: bool) {
    Present(w) && (user ==> UserBit(w)) && (writable ==> Writable(w)) && (NoExecute(w) ==> noExecute)
  }

  lemma {:induction false} LeavesAt(got: seq<nat>, flags: Word, i: nat)
    requires IsFlags(flags) && (forall j :: 0 <= j < |got| ==> got[j] < 0x100_0000_0000) && i < |got|
    ensures Leaves(got, flags)[i] == Leaf(got[i] * 4096, flags)
  {
    hide Leaf;
    FramePart(got[i]);
    if i < |got| - 1 { LeavesAt(got[..|got| - 1], flags, i); }
  }

  lemma LeafHas(phys: Word, flags: Word)
    requires IsFlags(flags)
    ensures var w := Leaf(phys, flags); Present(w) && UserBit(w) == UserBit(flags) && Writable(w) == Writable(flags) && NoExecute(w) == NoExecute(flags)
  {
    hide Leaf;
    LeafFlags(phys, flags);
  }

  lemma GrantedThrough(mem: Mem, root: nat, vp: nat, flags: Word)
    requires Granted(mem, root, PathOf(vp), 4, flags)
    ensures forall k :: 1 <= k <= 3 ==> LetsThrough(PteOf(mem, root, PathOf(vp)[..k]), UserBit(flags), Writable(flags), NoExecute(flags))
  {
    hide PteOf; hide PathOf; hide Present; hide UserBit; hide Writable; hide NoExecute;
    forall k | 1 <= k <= 3 ensures LetsThrough(PteOf(mem, root, PathOf(vp)[..k]), UserBit(flags), Writable(flags), NoExecute(flags)) {
      assert Grants(PteOf(mem, root, PathOf(vp)[..k]), flags);
    }
  }

  // The pages of a mapped range have the rights of the flags.
  lemma RangeHas(mem0: Mem, mem: Mem, roots: set<nat>, out: set<nat>, root: nat, vp0: nat, got: seq<nat>, flags: Word, vp: nat)
    requires IsFlags(flags) && (forall j :: 0 <= j < |got| ==> got[j] < 0x100_0000_0000) && root in roots
    requires Ranged(mem0, mem, roots, out, root, vp0, Leaves(got, flags)) && RangeGranted(mem, root, vp0, |got|, flags)
    requires vp0 <= vp < vp0 + |got| && vp < PAGES
    ensures PageHas(mem, root, vp, UserBit(flags), Writable(flags), NoExecute(flags))
  {
    hide Leaf; hide Leaves; hide UpperKept; hide PathOf; hide Granted; hide Pte; hide PteOf; hide LetsThrough; hide Present; hide UserBit; hide Writable; hide NoExecute; hide FrameOf;
    LeavesAt(got, flags, vp - vp0);
    FramePart(got[vp - vp0]);
    LeafHas(got[vp - vp0] * 4096, flags);
    SeesOwnPage(mem0, root, vp);
    GrantedThrough(mem, root, vp, flags);
  }

  lemma SeesOwnPage(mem: Mem, r: nat, vp: nat)
    ensures Sees(mem, r, r, vp)
  {
  }

  // Rights stay where the entry stays and the levels above only gain.
  lemma HasKept(mem: Mem, mem': Mem, root: nat, vp: nat, user: bool, writable: bool, noExecute: bool)
    requires PageHas(mem, root, vp, user, writable, noExecute) && Pte(mem', root, vp) == Pte(mem, root, vp)
    requires forall k :: 1 <= k <= 3 ==> Covers(PteOf(mem, root, PathOf(vp)[..k]), PteOf(mem', root, PathOf(vp)[..k]))
    ensures PageHas(mem', root, vp, user, writable, noExecute)
  {
    hide PteOf; hide PathOf; hide Pte; hide Present; hide UserBit; hide Writable; hide FrameOf;
    forall k | 1 <= k <= 3 ensures LetsThrough(PteOf(mem', root, PathOf(vp)[..k]), user, writable, noExecute) {
      assert LetsThrough(PteOf(mem, root, PathOf(vp)[..k]), user, writable, noExecute);
    }
  }

  lemma HasExtends(mem: Mem, mem': Mem, roots: set<nat>, root: nat, vp: nat, user: bool, writable: bool, noExecute: bool)
    requires Extends(mem, mem', roots) && root in roots && PageHas(mem, root, vp, user, writable, noExecute)
    ensures PageHas(mem', root, vp, user, writable, noExecute)
  {
    hide PteOf; hide PathOf; hide PageHas; hide Covers; hide Shares;
    HasKept(mem, mem', root, vp, user, writable, noExecute);
  }

  lemma HasRanged(mem: Mem, mem': Mem, roots: set<nat>, out: set<nat>, root: nat, vp0: nat, ws: seq<Word>, vp: nat, user: bool, writable: bool, noExecute: bool)
    requires Ranged(mem, mem', roots, out, root, vp0, ws) && root in roots && vp < PAGES && !(vp0 <= vp < vp0 + |ws|)
    requires PageHas(mem, root, vp, user, writable, noExecute)
    ensures PageHas(mem', root, vp, user, writable, noExecute)
  {
    hide PteOf; hide Pte; hide PathOf; hide PageHas; hide Covers; hide Shares; hide Sees;
    HasKept(mem, mem', root, vp, user, writable, noExecute);
  }
}
