/** Growing a mapped region by sizes that are not whole pages: the process break (`sys_brk`,
    `sys_sbrk`) and the kernel heap's growth are the same operation on a base and a size. */
module Brk {
  import opened Prelude
  import opened Words
  import opened PageTables
  import opened Trees
  import opened Machines
  import opened Vmm
  import opened Ranges
  import opened Rights

  // Every byte of `[base, base + size)` is mapped.
  ghost predicate Covered(mem: Mem, root: nat, base: nat, size: nat) {
    forall a: nat :: base <= a < base + size ==> Translate(mem, root, Vpn(a)).Some?
  }

  // The same by pages: page `i` of the region holds the bytes from `base + i * PAGE_SIZE`.
  ghost predicate PagesMapped(mem: Mem, root: nat, base: nat, n: nat) {
    forall vp: nat :: Vpn(base) <= vp < Vpn(base) + n ==> Translate(mem, root, vp).Some?
  }

  lemma RegionPage(base: nat, size: nat, a: nat)
    requires base % PAGE_SIZE == 0 && base <= a < base + size && Vpn(base) + PagesFor(size) <= PAGES
    ensures Vpn(base) <= Vpn(a) < Vpn(base) + PagesFor(size)
  {
    var k := (a - base) / PAGE_SIZE;
    var p := base / PAGE_SIZE;
    assert a / PAGE_SIZE == p + k;
    assert k < PagesFor(size);
    assert p == p / PAGES * PAGES + p % PAGES;
    WrapFree(p / PAGES, p % PAGES + k);
  }

  lemma CoveredByPages(mem: Mem, root: nat, base: nat, size: nat)
    requires base % PAGE_SIZE == 0 && Vpn(base) + PagesFor(size) <= PAGES && PagesMapped(mem, root, base, PagesFor(size))
    ensures Covered(mem, root, base, size)
  {
    hide Translate; hide Vpn; hide PagesFor;
    forall a: nat | base <= a < base + size ensures Translate(mem, root, Vpn(a)).Some? {
      RegionPage(base, size, a);
    }
  }

  lemma GrowthPages(size: nat, len: nat)
    ensures PagesFor(size) <= PagesFor(size + len) <= PagesFor(size) + PagesFor(len)
  {
  }

  // Rounding the end of the region up gives the first page that holds none of its bytes.
  lemma RoundedEnd(base: nat, size: nat)
    requires base % PAGE_SIZE == 0 && Vpn(base) + PagesFor(size) < PAGES
    ensures AlignUp(base + size) == base + PagesFor(size) * PAGE_SIZE
    ensures Vpn(AlignUp(base + size)) == Vpn(base) + PagesFor(size)
  {
    VpnStep(base, PagesFor(size));
  }

  lemma RangedTranslate(mem: Mem, mem': Mem, roots: set<nat>, out: set<nat>, r0: nat, vp0: nat, got: seq<nat>, ws: seq<Word>, vp: nat)
    requires LeadTo(ws, got)
    requires r0 in roots && vp < PAGES && Ranged(mem, mem', roots, out, r0, vp0, ws)
    ensures Translate(mem', r0, vp) == if vp0 <= vp < vp0 + |got| then Some(got[vp - vp0]) else Translate(mem, r0, vp)
  {
    hide Pte; hide UpperKept; hide DataKept; hide Leaf; hide PathOf; hide Translate;
    TranslateIsPte(mem, r0, vp);
    TranslateIsPte(mem', r0, vp);
    assert Sees(mem, r0, r0, vp);
  }

  lemma PagesGrow(mem: Mem, mem': Mem, roots: set<nat>, out: set<nat>, root: nat, base: nat, size: nat, len: nat,
                  got: seq<nat>, ws: seq<Word>)
    requires LeadTo(ws, got)
    requires root in roots && |got| == PagesFor(len) && Vpn(base) + PagesFor(size) + PagesFor(len) <= PAGES
    requires PagesMapped(mem, root, base, PagesFor(size))
    requires Ranged(mem, mem', roots, out, root, Vpn(base) + PagesFor(size), ws)
    ensures PagesMapped(mem', root, base, PagesFor(size + len))
    ensures forall vp: nat :: vp < Vpn(base) + PagesFor(size) ==> Translate(mem', root, vp) == Translate(mem, root, vp)
  {
    hide Translate; hide Ranged; hide LeadTo; hide Vpn; hide PagesFor;
    GrowthPages(size, len);
    forall vp: nat | vp < Vpn(base) + PagesFor(size + len)
      ensures Vpn(base) <= vp ==> Translate(mem', root, vp).Some?
      ensures vp < Vpn(base) + PagesFor(size) ==> Translate(mem', root, vp) == Translate(mem, root, vp)
    {
      RangedTranslate(mem, mem', roots, out, root, Vpn(base) + PagesFor(size), got, ws, vp);
    }
  }

  // The pages of a region from its size `from` up to its size `to` have these rights.
  ghost predicate RegionHas(mem: Mem, root: nat, base: nat, from: nat, to: nat, user: bool, writable: bool, noExecute: bool) {
    forall vp: nat :: Vpn(base) + PagesFor(from) <= vp < Vpn(base) + PagesFor(to) ==> PageHas(mem, root, vp, user, writable, noExecute)
  }

  // The pages that hold the first `size` bytes of a region keep these rights.
  ghost predicate RightsKept(mem: Mem, mem': Mem, root: nat, base: nat, size: nat, user: bool, writable: bool, noExecute: bool) {
    forall vp: nat :: vp < Vpn(base) + PagesFor(size) && PageHas(mem, root, vp, user, writable, noExecute) ==>
      PageHas(mem', root, vp, user, writable, noExecute)
  }

  lemma RightsGrow(mem: Mem, mem': Mem, roots: set<nat>, out: set<nat>, root: nat, base: nat, size: nat, len: nat, got: seq<nat>, flags: Word)
    requires IsFlags(flags) && (forall j :: 0 <= j < |got| ==> got[j] < 0x100_0000_0000) && root in roots
    requires |got| == PagesFor(len) && Vpn(base) + PagesFor(size) + PagesFor(len) <= PAGES
    requires Ranged(mem, mem', roots, out, root, Vpn(base) + PagesFor(size), Leaves(got, flags))
    requires RangeGranted(mem', root, Vpn(base) + PagesFor(size), |got|, flags)
    ensures RegionHas(mem', root, base, size, size + len, UserBit(flags), Writable(flags), NoExecute(flags))
    ensures RightsKept(mem, mem', root, base, size, UserBit(flags), Writable(flags), NoExecute(flags))
  {
    hide Ranged; hide Leaves; hide Vpn; hide PagesFor; hide PageHas; hide RangeGranted; hide UserBit; hide Writable; hide NoExecute;
    GrowthPages(size, len);
    forall vp: nat | Vpn(base) + PagesFor(size) <= vp < Vpn(base) + PagesFor(size + len)
      ensures PageHas(mem', root, vp, UserBit(flags), Writable(flags), NoExecute(flags))
    {
      RangeHas(mem, mem', roots, out, root, Vpn(base) + PagesFor(size), got, flags, vp);
    }
    forall vp: nat | vp < Vpn(base) + PagesFor(size) && PageHas(mem, root, vp, UserBit(flags), Writable(flags), NoExecute(flags))
      ensures PageHas(mem', root, vp, UserBit(flags), Writable(flags), NoExecute(flags))
    {
      HasRanged(mem, mem', roots, out, root, Vpn(base) + PagesFor(size), Leaves(got, flags), vp, UserBit(flags), Writable(flags), NoExecute(flags));
    }
  }

  // One growth after another.
  lemma RegionJoin(mem: Mem, mem': Mem, root: nat, base: nat, a: nat, b: nat, c: nat, user: bool, writable: bool, noExecute: bool)
    requires a <= b && RegionHas(mem, root, base, a, b, user, writable, noExecute)
    requires RegionHas(mem', root, base, b, c, user, writable, noExecute) && RightsKept(mem, mem', root, base, b, user, writable, noExecute)
    ensures RegionHas(mem', root, base, a, c, user, writable, noExecute)
  {
    hide Vpn; hide PagesFor; hide PageHas;
  }

  lemma RightsKeptSame(mem: Mem, root: nat, base: nat, size: nat, user: bool, writable: bool, noExecute: bool)
    ensures RightsKept(mem, mem, root, base, size, user, writable, noExecute)
    ensures RegionHas(mem, root, base, size, size, user, writable, noExecute)
  {
    hide PageHas;
  }

  lemma RightsKeptThen(a: Mem, b: Mem, c: Mem, root: nat, base: nat, size: nat, size': nat, user: bool, writable: bool, noExecute: bool)
    requires size <= size' && RightsKept(a, b, root, base, size, user, writable, noExecute)
    requires RightsKept(b, c, root, base, size', user, writable, noExecute)
    ensures RightsKept(a, c, root, base, size, user, writable, noExecute)
  {
    hide Vpn; hide PageHas;
    MorePages(size, size');
    hide PagesFor;
  }

  lemma MorePages(a: nat, b: nat)
    requires a <= b
    ensures PagesFor(a) <= PagesFor(b)
  {
  }

  // `vmm_map_range(cr3, base + size, len, flags)` for a region whose pages are mapped: afterwards
  // the longer region's pages are, and no page that holds a byte of the region was mapped anew.
  method GrowRegion(m: Machine, root: nat, base: Word, size: nat, len: nat, flags: Word)
    requires World(m) && root in m.spaces.roots && IsFlags(flags)
    requires m.Remaining() >= FramesFor(Vpn(base) + PagesFor(size), PagesFor(len))
    requires base % PAGE_SIZE == 0 && PagesMapped(m.frames, root, base, PagesFor(size))
    requires base + (PagesFor(size) + PagesFor(len)) * PAGE_SIZE <= 0x1_0000_0000_0000_0000 && base + size < 0x1_0000_0000_0000_0000
    requires Vpn(base) + PagesFor(size) < PAGES && Vpn(base) + PagesFor(size) + PagesFor(len) <= PAGES
    modifies m`frames, m`head, m`book, m`fillEntry, m`fillOffset, m`lazyBytes
    ensures World(m) && m.Remaining() >= old(m.Remaining()) - FramesFor(Vpn(base) + PagesFor(size), PagesFor(len))
    ensures PagesMapped(m.frames, root, base, PagesFor(size + len)) && Covered(m.frames, root, base, size + len)
    ensures forall vp: nat :: vp < Vpn(base) + PagesFor(size) ==>
      Translate(m.frames, root, vp) == Translate(old(m.frames), root, vp)
    ensures RegionHas(m.frames, root, base, size, size + len, UserBit(flags), Writable(flags), NoExecute(flags))
    ensures RightsKept(old(m.frames), m.frames, root, base, size, UserBit(flags), Writable(flags), NoExecute(flags))
  {
    hide *;
    RoundedEnd(base, size);
    RoomLeft(base, PagesFor(size), PagesFor(len));
    ghost var mem0, out0, roots := m.frames, m.book.out, m.spaces.roots;
    var start;
    ghost var got;
    start, got := VmmMapRange(m, root, base + size, len, flags);
    LeavesLead(got, flags);
    ghost var ws := Leaves(got, flags);
    PagesGrow(mem0, m.frames, roots, out0, root, base, size, len, got, ws);
    RightsGrow(mem0, m.frames, roots, out0, root, base, size, len, got, flags);
    GrowthPages(size, len);
    CoveredByPages(m.frames, root, base, size + len);
  }

  lemma RoomLeft(base: nat, n: nat, k: nat)
    requires base + (n + k) * PAGE_SIZE <= 0x1_0000_0000_0000_0000
    ensures base + n * PAGE_SIZE + k * PAGE_SIZE <= 0x1_0000_0000_0000_0000
  {
  }

  // ----- the break of a process -----

  const USER_HEAP_BASE: Word := 0x1000_0000_0000
  const USER_HEAP_FLAGS: Word := 0x8000_0000_0000_0006

  // The end of the addresses that belong to user space.
  const USER_END: nat := 0x8000_0000_0000

  class Process {
    const cr3: nat
    var heapMax: Word

    ghost predicate Sane()
      reads this
    {
      USER_HEAP_BASE <= heapMax <= USER_END
    }

    function HeapSize(): nat
      requires Sane()
      reads this
    {
      heapMax - USER_HEAP_BASE
    }
  }

  ghost predicate HeapMapped(m: Machine, p: Process)
    reads m`frames, p
  {
    p.Sane() && PagesMapped(m.frames, p.cr3, USER_HEAP_BASE, PagesFor(p.HeapSize()))
  }

  lemma UserRoom(size: nat, len: nat)
    requires USER_HEAP_BASE + size + len <= USER_END
    ensures USER_HEAP_BASE % PAGE_SIZE == 0 && Vpn(USER_HEAP_BASE) + PagesFor(size) + PagesFor(len) < PAGES
    ensures USER_HEAP_BASE + (PagesFor(size) + PagesFor(len)) * PAGE_SIZE <= 0x1_0000_0000_0000_0000
  {
    assert PagesFor(size) + PagesFor(len) <= 0x7_0000_0001;
  }

  lemma HeapFlags()
    ensures IsFlags(USER_HEAP_FLAGS) && UserBit(USER_HEAP_FLAGS) && Writable(USER_HEAP_FLAGS) && NoExecute(USER_HEAP_FLAGS)
  {
  }

  // The frames that moving the break from `from` up to `to` takes: its pages and the tables they lie in.
  function BreakFrames(from: nat, to: nat): nat {
    if to > from then FramesFor(Vpn(AlignUp(from)), PagesFor(to - from)) else 0
  }

  // The pages of the growth are for the user to read and write, and not to execute; those below keep these
  // rights.
  ghost predicate HeapGrew(mem: Mem, mem': Mem, cr3: nat, from: nat, to: nat) {
    && RegionHas(mem', cr3, USER_HEAP_BASE, from, to, true, true, true)
    && RightsKept(mem, mem', cr3, USER_HEAP_BASE, from, true, true, true)
  }

  lemma HeapSame(mem: Mem, cr3: nat, size: nat)
    ensures HeapGrew(mem, mem, cr3, size, size)
  {
    RightsKeptSame(mem, cr3, USER_HEAP_BASE, size, true, true, true);
  }

  lemma HeapGrewThen(a: Mem, b: Mem, c: Mem, cr3: nat, x: nat, y: nat, z: nat)
    requires x <= y && HeapGrew(a, b, cr3, x, y) && HeapGrew(b, c, cr3, y, z)
    ensures HeapGrew(a, c, cr3, x, z)
  {
    hide RegionHas; hide RightsKept;
    RegionJoin(b, c, cr3, USER_HEAP_BASE, x, y, z, true, true, true);
    RightsKeptThen(a, b, c, cr3, USER_HEAP_BASE, x, y, true, true, true);
  }

  // Moves the break up to `addr`; a lower address leaves everything as it is.
  method SysBrk(m: Machine, p: Process, addr: Word) returns (res: int)
    requires World(m) && p.cr3 in m.spaces.roots && HeapMapped(m, p)
    requires addr <= USER_END && m.Remaining() >= BreakFrames(p.heapMax, addr)
    modifies m`frames, m`head, m`book, m`fillEntry, m`fillOffset, m`lazyBytes, p`heapMax
    ensures World(m) && HeapMapped(m, p) && res == if addr == 0 then PROTO_ERR_INVALID_ARGUMENT else PROTO_OK
    ensures p.heapMax == if addr > old(p.heapMax) then addr else old(p.heapMax)
    ensures Covered(m.frames, p.cr3, USER_HEAP_BASE, p.HeapSize())
    ensures forall a: nat :: USER_HEAP_BASE <= a < old(p.heapMax) ==>
      Translate(m.frames, p.cr3, Vpn(a)) == Translate(old(m.frames), p.cr3, Vpn(a))
    ensures m.Remaining() >= old(m.Remaining()) - BreakFrames(old(p.heapMax), addr)
    ensures HeapGrew(old(m.frames), m.frames, p.cr3, old(p.HeapSize()), p.HeapSize())
  {
    hide RegionHas; hide RightsKept; hide UserBit; hide Writable; hide NoExecute;
    hide World; hide FramesFor; hide AlignUp; hide Machine.Valid; hide Machine.Remaining; hide Vpn; hide Translate; hide PagesFor; hide IsFlags; hide PagesMapped; hide Covered;
    WorldParts(m);
    UserRoom(p.HeapSize(), if addr > p.heapMax then addr - p.heapMax else 0);
    CoveredByPages(m.frames, p.cr3, USER_HEAP_BASE, p.HeapSize());
    HeapSame(m.frames, p.cr3, p.HeapSize());
    if addr == 0 {
      return PROTO_ERR_INVALID_ARGUMENT;
    }
    if addr > p.heapMax {
      var old_ := p.heapMax;
      var len := addr - old_;
      HeapFlags();
      forall a: nat | USER_HEAP_BASE <= a < old_ ensures Vpn(a) < Vpn(USER_HEAP_BASE) + PagesFor(p.HeapSize()) {
        RegionPage(USER_HEAP_BASE, p.HeapSize(), a);
      }
      RoundedEnd(USER_HEAP_BASE, p.HeapSize());
      GrowRegion(m, p.cr3, USER_HEAP_BASE, p.HeapSize(), len, USER_HEAP_FLAGS);
      p.heapMax := addr;
    }
    return PROTO_OK;
  }

  // A 64-bit sum is smaller than its operand exactly if it wraps around.
  lemma SumWraps(a: nat, b: nat)
    requires a < 0x1_0000_0000_0000_0000 && b < 0x1_0000_0000_0000_0000
    ensures a + b < 0x1_0000_0000_0000_0000 ==> (a + b) % 0x1_0000_0000_0000_0000 == a + b
    ensures a + b >= 0x1_0000_0000_0000_0000 ==> (a + b) % 0x1_0000_0000_0000_0000 < a
  {
  }

  // `sys_sbrk`: moves the break by `size`; a wrap-around of the address is refused.
  method SysSbrk(m: Machine, p: Process, size: nat) returns (res: int)
    requires World(m) && p.cr3 in m.spaces.roots && HeapMapped(m, p) && size < 0x1_0000_0000_0000_0000
    requires p.heapMax + size < 0x1_0000_0000_0000_0000 ==>
      p.heapMax + size <= USER_END && m.Remaining() >= BreakFrames(p.heapMax, p.heapMax + size)
    modifies m`frames, m`head, m`book, m`fillEntry, m`fillOffset, m`lazyBytes, p`heapMax
    ensures World(m) && HeapMapped(m, p)
    ensures old(p.heapMax) + size < 0x1_0000_0000_0000_0000 ==> res == PROTO_OK && p.heapMax == old(p.heapMax) + size
    ensures old(p.heapMax) + size >= 0x1_0000_0000_0000_0000 ==> res == PROTO_ERR_INVALID_ARGUMENT && p.heapMax == old(p.heapMax)
    ensures HeapGrew(old(m.frames), m.frames, p.cr3, old(p.HeapSize()), p.HeapSize())
    ensures forall a: nat :: USER_HEAP_BASE <= a < old(p.heapMax) ==>
      Translate(m.frames, p.cr3, Vpn(a)) == Translate(old(m.frames), p.cr3, Vpn(a))
  {
    hide World; hide Machine.Valid; hide Machine.Remaining; hide Vpn; hide Translate; hide PagesFor; hide IsFlags; hide PagesMapped; hide Covered; hide BreakFrames; hide HeapGrew;
    WorldParts(m);
    HeapSame(m.frames, p.cr3, p.HeapSize());
    if size == 0 {
      return PROTO_OK;
    }
    SumWraps(p.heapMax, size);
    var newBrk := (p.heapMax + size) % 0x1_0000_0000_0000_0000;
    if newBrk < p.heapMax {
      return PROTO_ERR_INVALID_ARGUMENT;
    }
    res := SysBrk(m, p, newBrk);
  }

  // The frames that a run of requests takes, one request after the other.
  function RunFrames(from: nat, addrs: seq<Word>): nat
    decreases |addrs|
  {
    if addrs == [] then 0 else BreakFrames(from, addrs[0]) + RunFrames(Max(from, addrs[0]), addrs[1..])
  }

  function Highest(from: nat, addrs: seq<Word>): nat
    decreases |addrs|
  {
    if addrs == [] then from else Highest(Max(from, addrs[0]), addrs[1..])
  }

  // At most four frames for each page that the break passes, and four more for each request.
  lemma {:induction false} RunFramesBound(from: nat, addrs: seq<Word>)
    ensures from <= Highest(from, addrs)
    ensures RunFrames(from, addrs) <= 4 * PagesFor(Highest(from, addrs) - from) + 4 * |addrs|
    decreases |addrs|
  {
    hide FramesFor; hide PagesFor; hide Vpn; hide AlignUp;
    if addrs != [] {
      var to := Max(from, addrs[0]);
      RunFramesBound(to, addrs[1..]);
      FourFrames(Vpn(AlignUp(from)), PagesFor(to - from));
      JoinedPages(to - from, Highest(from, addrs) - to);
    }
  }

  lemma FourFrames(vp0: nat, n: nat)
    ensures FramesFor(vp0, n) <= 4 * n
  {
    TablesGrow(vp0, 0, n);
  }

  lemma JoinedPages(a: nat, b: nat)
    ensures PagesFor(a) + PagesFor(b) <= PagesFor(a + b) + 1
  {
  }

  // After any run of break requests every byte below the break is mapped, and the pages of the
  // bytes that were below the first break are the ones they were.
  method SysBrks(m: Machine, p: Process, addrs: seq<Word>)
    requires World(m) && p.cr3 in m.spaces.roots && HeapMapped(m, p)
    requires m.Remaining() >= RunFrames(p.heapMax, addrs) && forall i :: 0 <= i < |addrs| ==> addrs[i] <= USER_END
    modifies m`frames, m`head, m`book, m`fillEntry, m`fillOffset, m`lazyBytes, p`heapMax
    ensures World(m) && HeapMapped(m, p) && p.heapMax == Highest(old(p.heapMax), addrs) >= old(p.heapMax)
    ensures Covered(m.frames, p.cr3, USER_HEAP_BASE, p.HeapSize())
    ensures forall a: nat :: USER_HEAP_BASE <= a < old(p.heapMax) ==>
      Translate(m.frames, p.cr3, Vpn(a)) == Translate(old(m.frames), p.cr3, Vpn(a))
    ensures HeapGrew(old(m.frames), m.frames, p.cr3, old(p.HeapSize()), p.HeapSize())
  {
    hide World; hide Machine.Valid; hide Machine.Remaining; hide Vpn; hide Translate; hide PagesFor; hide IsFlags; hide PagesMapped; hide Covered; hide BreakFrames; hide HeapGrew;
    WorldParts(m);
    HeapSame(m.frames, p.cr3, p.HeapSize());
    UserRoom(p.HeapSize(), 0);
    CoveredByPages(m.frames, p.cr3, USER_HEAP_BASE, p.HeapSize());
    assert addrs[0..] == addrs;
    for n := 0 to |addrs|
      invariant m.Valid() && World(m) && HeapMapped(m, p) && old(p.heapMax) <= p.heapMax
      invariant Highest(p.heapMax, addrs[n..]) == Highest(old(p.heapMax), addrs)
      invariant Covered(m.frames, p.cr3, USER_HEAP_BASE, p.HeapSize())
      invariant m.Remaining() >= RunFrames(p.heapMax, addrs[n..])
      invariant forall a: nat :: USER_HEAP_BASE <= a < old(p.heapMax) ==>
        Translate(m.frames, p.cr3, Vpn(a)) == Translate(old(m.frames), p.cr3, Vpn(a))
      invariant HeapGrew(old(m.frames), m.frames, p.cr3, old(p.HeapSize()), p.HeapSize())
    {
      assert addrs[n..][0] == addrs[n] && addrs[n..][1..] == addrs[n + 1..];
      ghost var mem1, size1 := m.frames, p.HeapSize();
      var _ := SysBrk(m, p, addrs[n]);
      HeapGrewThen(old(m.frames), mem1, m.frames, p.cr3, old(p.HeapSize()), size1, p.HeapSize());
      WorldParts(m);
    }
  }
}
