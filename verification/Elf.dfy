/** Loading the segments of an executable into a new address space, page by page through the
    physical window. */
module Elf {
  import opened Prelude
  import opened Lists
  import opened Words
  import opened PageTables
  import opened Trees
  import opened Machines
  import opened Vmm
  import opened Ranges
  import opened Rights
  import opened Brk
  import opened Bytes

  // The frame whose bytes are `bs`.
  function PackPage(bs: seq<Byte>): (p: Page)
    requires |bs| == 4096
  {
    seq<Word>(512, i requires 0 <= i < 512 => PackWord(bs[8 * i..8 * i + 8]))
  }

  // Byte `i` of a frame.
  function PageByte(p: Page, i: nat): nat
    requires i < 4096
  {
    ByteOf(p[i / 8], i % 8)
  }

  lemma PackedBytes(bs: seq<Byte>, i: nat)
    requires |bs| == 4096 && i < 4096
    ensures PageByte(PackPage(bs), i) == bs[i]
  {
    var w, k := i / 8, i % 8;
    var part := bs[8 * w..8 * w + 8];
    WordBytes(part, k);
    assert part[k] == bs[8 * w + k];
  }

  // ----- load_phdr -----

  datatype ProgramHeader = ProgramHeader(load: bool, writable: bool, executable: bool,
                                         offset: nat, vaddr: nat, filesz: nat, memsz: nat)

  // F_PRESENT | F_USER, with F_WRITE and F_NX as the segment asks.
  function SegmentFlags(ph: ProgramHeader): Word {
    5 + (if ph.writable then 2 else 0) + (if ph.executable then 0 else 0x8000_0000_0000_0000)
  }

  lemma SegmentFlagsOk(ph: ProgramHeader)
    ensures IsFlags(SegmentFlags(ph)) && UserBit(SegmentFlags(ph)) && Writable(SegmentFlags(ph)) == ph.writable
    ensures NoExecute(SegmentFlags(ph)) == !ph.executable
  {
  }

  // The user may use page `vp` as the segment says: write if it is writable, execute if it is executable.
  ghost predicate SegmentRights(mem: Mem, root: nat, vp: nat, ph: ProgramHeader) {
    PageHas(mem, root, vp, true, ph.writable, !ph.executable)
  }

  // Byte `i` of the segment in memory: the file's byte, then zeros.
  function SegmentByte(ph: ProgramHeader, file: seq<Byte>, i: nat): Byte
    requires ph.offset + ph.filesz <= |file|
  {
    if i < ph.filesz then file[ph.offset + i] else 0
  }

  // What the loop writes to the page that starts at byte `written` of the segment.
  function PageContent(ph: ProgramHeader, file: seq<Byte>, written: nat): (bs: seq<Byte>)
    requires ph.offset + ph.filesz <= |file|
    ensures |bs| == 4096
    ensures forall i :: 0 <= i < 4096 ==> bs[i] == SegmentByte(ph, file, written + i)
  {
    if written < ph.filesz then
      var left := ph.filesz - written;
      var copy := if 4096 < left then 4096 else left;
      file[ph.offset + written..ph.offset + written + copy] + seq(4096 - copy, _ => 0)
    else
      seq(4096, _ => 0)
  }

  // Page `vp` of the segment that starts at page `vp0` is a data frame with the segment's bytes.
  ghost predicate PageLoaded(mem: Mem, roots: set<nat>, out: set<nat>, root: nat, vp0: nat, vp: nat, ph: ProgramHeader, file: seq<Byte>)
    requires ph.offset + ph.filesz <= |file| && vp0 <= vp
  {
    match Translate(mem, root, vp)
    case None => false
    case Some(f) =>
      f in out && f in mem.pages && Fresh(mem, roots, f) && mem.pages[f] == PackPage(PageContent(ph, file, (vp - vp0) * 4096))
  }

  ghost predicate Loaded(mem: Mem, roots: set<nat>, out: set<nat>, root: nat, vp0: nat, ph: ProgramHeader, file: seq<Byte>)
    requires ph.offset + ph.filesz <= |file|
  {
    forall vp: nat :: vp0 <= vp < vp0 + PagesFor(ph.memsz) ==> PageLoaded(mem, roots, out, root, vp0, vp, ph, file)
  }

  // Byte `i` of a loaded segment, read through the page tables, is the file's byte or zero.
  lemma LoadedByte(mem: Mem, roots: set<nat>, out: set<nat>, root: nat, vaddr: nat, ph: ProgramHeader, file: seq<Byte>, i: nat)
    requires ph.offset + ph.filesz <= |file| && vaddr % PAGE_SIZE == 0 && i < ph.memsz
    requires Vpn(vaddr) + PagesFor(ph.memsz) <= PAGES && Loaded(mem, roots, out, root, Vpn(vaddr), ph, file)
    ensures var t := Translate(mem, root, Vpn(vaddr + i));
      t.Some? && t.value in mem.pages && PageByte(mem.pages[t.value], (vaddr + i) % 4096) == if i < ph.filesz then file[ph.offset + i] else 0
  {
    hide PackPage; hide PageByte; hide PageContent; hide Translate; hide Fresh; hide Vpn; hide PagesFor;
    RegionPage(vaddr, ph.memsz, vaddr + i);
    var vp0, vp, k := Vpn(vaddr), Vpn(vaddr + i), i % 4096;
    assert PageLoaded(mem, roots, out, root, vp0, vp, ph, file);
    PageOffset(vaddr, i, ph.memsz);
    PackedBytes(PageContent(ph, file, (vp - vp0) * 4096), k);
  }

  lemma PageOffset(vaddr: nat, i: nat, memsz: nat)
    requires vaddr % PAGE_SIZE == 0 && i < memsz && Vpn(vaddr) + PagesFor(memsz) <= PAGES
    ensures (vaddr + i) % 4096 == i % 4096 && Vpn(vaddr + i) == Vpn(vaddr) + i / 4096
    ensures i == (Vpn(vaddr + i) - Vpn(vaddr)) * 4096 + i % 4096
  {
    assert i / 4096 < PagesFor(memsz);
    VpnStep(vaddr, i / 4096);
    var a := vaddr / 4096;
    assert (vaddr + i) / 4096 == a + i / 4096;
    assert (vaddr + i / 4096 * 4096) / 4096 == a + i / 4096;
  }

  // ----- writing the pages -----

  // Since memory `memA` the first `done` of the frames `got` have been filled, and nothing else written.
  ghost predicate Writing(memA: Mem, mem: Mem, roots: set<nat>, got: seq<nat>, done: nat, ph: ProgramHeader, file: seq<Byte>)
    requires ph.offset + ph.filesz <= |file|
  {
    && Extends(memA, mem, roots) && mem.pages.Keys == memA.pages.Keys
    && (forall f :: f in memA.pages && f !in got ==> mem.pages[f] == memA.pages[f])
    && (forall f :: Fresh(memA, roots, f) ==> Fresh(mem, roots, f))
    && forall j :: 0 <= j < done && j < |got| ==>
         got[j] in mem.pages && mem.pages[got[j]] == PackPage(PageContent(ph, file, j * 4096))
  }

  lemma WritingStarts(mem: Mem, roots: set<nat>, got: seq<nat>, ph: ProgramHeader, file: seq<Byte>)
    requires ph.offset + ph.filesz <= |file|
    ensures Writing(mem, mem, roots, got, 0, ph, file)
  {
    hide PteOf; hide Shares; hide Fresh; hide FrameOf;
  }

  // Filling a data frame disturbs no table.
  lemma DataWrite(mem: Mem, sp: Spaces, k: nat, out: set<nat>, f: nat, page: Page)
    requires SpacesOk(mem, sp, k, out) && f in mem.pages && f in out && Fresh(mem, sp.roots, f)
    ensures var mem' := Mem(mem.pages[f := page]);
      && SpacesOk(mem', sp, k, out) && Extends(mem, mem', sp.roots)
      && forall g :: Fresh(mem, sp.roots, g) ==> Fresh(mem', sp.roots, g)
  {
    hide Tree; hide Extends; hide DataKept; hide PteOf; hide Shares; hide Follow;
    var mem' := Mem(mem.pages[f := page]);
    assert TablesWithin(mem, sp.roots, out - {f});
    UndisturbedTree(mem, mem', sp.roots, out - {f});
    AgreesKept(mem, mem', sp, k);
    forall g: nat | Fresh(mem, sp.roots, g) ensures Fresh(mem', sp.roots, g) {
      forall r, q | r in sp.roots && |q| <= 3 ensures Follow(mem', r, q) != Some(g) {
        UndisturbedPath(mem, mem', sp.roots, out - {f}, r, q);
      }
    }
  }

  lemma WritingStep(memA: Mem, mem: Mem, mem': Mem, roots: set<nat>, got: seq<nat>, j: nat, ph: ProgramHeader, file: seq<Byte>)
    requires ph.offset + ph.filesz <= |file| && j < |got| && NoRepeats(got)
    requires Writing(memA, mem, roots, got, j, ph, file) && got[j] in mem.pages
    requires mem' == Mem(mem.pages[got[j] := PackPage(PageContent(ph, file, j * 4096))])
    requires Extends(mem, mem', roots) && forall g :: Fresh(mem, roots, g) ==> Fresh(mem', roots, g)
    ensures Writing(memA, mem', roots, got, j + 1, ph, file)
  {
    hide Extends; hide Fresh; hide PackPage; hide PageContent;
    ExtendsTransitive(memA, mem, mem', roots);
  }

  // What loading one segment changes for everything else: only the segment's pages move, and the
  // data frames of others keep their bytes.
  ghost predicate OthersKept(mem: Mem, mem': Mem, roots: set<nat>, out: set<nat>, root: nat, vp0: nat, n: nat) {
    && DataKept(mem, mem', roots, out) && mem'.pages.Keys == mem.pages.Keys
    && (forall vp: nat :: vp < PAGES && !(vp0 <= vp < vp0 + n) ==> Translate(mem', root, vp) == Translate(mem, root, vp))
    && (forall vp: nat, ph :: vp < PAGES && !(vp0 <= vp < vp0 + n) && SegmentRights(mem, root, vp, ph) ==> SegmentRights(mem', root, vp, ph))
  }

  // The rights on other pages stay,
  lemma RightsStayOn(mem0: Mem, memA: Mem, mem: Mem, roots: set<nat>, out0: set<nat>, root: nat, vp0: nat, ws: seq<Word>, vp: nat, ph: ProgramHeader)
    requires Ranged(mem0, memA, roots, out0, root, vp0, ws) && Extends(memA, mem, roots) && root in roots
    requires vp < PAGES && !(vp0 <= vp < vp0 + |ws|) && SegmentRights(mem0, root, vp, ph)
    ensures SegmentRights(mem, root, vp, ph)
  {
    hide Ranged; hide Extends; hide PageHas;
    HasRanged(mem0, memA, roots, out0, root, vp0, ws, vp, true, ph.writable, !ph.executable);
    HasExtends(memA, mem, roots, root, vp, true, ph.writable, !ph.executable);
  }

  // and those of the segment's pages are given.
  lemma RightsGiven(mem0: Mem, memA: Mem, mem: Mem, roots: set<nat>, out0: set<nat>, root: nat, vp0: nat, got: seq<nat>, ph: ProgramHeader, vp: nat)
    requires (forall j :: 0 <= j < |got| ==> got[j] < 0x100_0000_0000) && root in roots && IsFlags(SegmentFlags(ph))
    requires Ranged(mem0, memA, roots, out0, root, vp0, Leaves(got, SegmentFlags(ph))) && RangeGranted(memA, root, vp0, |got|, SegmentFlags(ph))
    requires Extends(memA, mem, roots) && vp0 <= vp < vp0 + |got| && vp < PAGES
    ensures SegmentRights(mem, root, vp, ph)
  {
    hide Ranged; hide Extends; hide PageHas; hide Leaves; hide RangeGranted; hide SegmentFlags; hide UserBit; hide Writable; hide NoExecute;
    SegmentFlagsOk(ph);
    RangeHas(mem0, memA, roots, out0, root, vp0, got, SegmentFlags(ph), vp);
    HasExtends(memA, mem, roots, root, vp, true, ph.writable, !ph.executable);
  }

  lemma WritingExtends(memA: Mem, mem: Mem, roots: set<nat>, got: seq<nat>, done: nat, ph: ProgramHeader, file: seq<Byte>)
    requires ph.offset + ph.filesz <= |file| && Writing(memA, mem, roots, got, done, ph, file)
    ensures Extends(memA, mem, roots)
  {
    hide Extends; hide Fresh; hide PackPage; hide PageContent;
  }

  lemma OthersAfter(mem0: Mem, memA: Mem, mem: Mem, roots: set<nat>, out0: set<nat>, out: set<nat>, root: nat, vp0: nat,
                    got: seq<nat>, ws: seq<Word>, ph: ProgramHeader, file: seq<Byte>)
    requires ph.offset + ph.filesz <= |file| && LeadTo(ws, got) && root in roots
    requires Ranged(mem0, memA, roots, out0, root, vp0, ws) && Taken(memA, roots, out0, out, got)
    requires Writing(memA, mem, roots, got, |got|, ph, file)
    ensures OthersKept(mem0, mem, roots, out0, root, vp0, |got|)
  {
    hide Translate; hide LeadTo; hide Pte; hide UpperKept; hide Fresh; hide Extends; hide PackPage; hide PageContent; hide NoRepeats; hide Sees;
    forall vp: nat | vp < PAGES && !(vp0 <= vp < vp0 + |got|)
      ensures Translate(mem, root, vp) == Translate(mem0, root, vp)
    {
      RangedTranslate(mem0, memA, roots, out0, root, vp0, got, ws, vp);
      ExtendsTranslate(memA, mem, roots, root, vp);
    }
    hide Translate; hide PageHas;
    LeadLength(ws, got);
    forall vp: nat, ph | vp < PAGES && !(vp0 <= vp < vp0 + |got|) && SegmentRights(mem0, root, vp, ph) ensures SegmentRights(mem, root, vp, ph) {
      RightsStayOn(mem0, memA, mem, roots, out0, root, vp0, ws, vp, ph);
    }
  }

  lemma LeadLength(ws: seq<Word>, got: seq<nat>)
    requires LeadTo(ws, got)
    ensures |ws| == |got|
  {
  }

  lemma LoadedAfter(mem0: Mem, memA: Mem, mem: Mem, roots: set<nat>, out0: set<nat>, out: set<nat>, root: nat, vp0: nat,
                    got: seq<nat>, ws: seq<Word>, ph: ProgramHeader, file: seq<Byte>)
    requires ph.offset + ph.filesz <= |file| && LeadTo(ws, got) && root in roots && vp0 + |got| <= PAGES
    requires |got| == PagesFor(ph.memsz)
    requires Ranged(mem0, memA, roots, out0, root, vp0, ws) && Taken(memA, roots, out0, out, got)
    requires Writing(memA, mem, roots, got, |got|, ph, file)
    ensures Loaded(mem, roots, out, root, vp0, ph, file)
  {
    hide Translate; hide LeadTo; hide Pte; hide UpperKept; hide Fresh; hide Extends; hide PackPage; hide PageContent; hide NoRepeats;
    hide Sees; hide DataKept; hide Ranged; hide PagesFor;
    forall vp: nat | vp0 <= vp < vp0 + |got| ensures PageLoaded(mem, roots, out, root, vp0, vp, ph, file) {
      RangedTranslate(mem0, memA, roots, out0, root, vp0, got, ws, vp);
      ExtendsTranslate(memA, mem, roots, root, vp);
      assert got[vp - vp0] in got;
    }
  }

  lemma TargetPage(mem0: Mem, memA: Mem, mem: Mem, roots: set<nat>, out0: set<nat>, out: set<nat>, root: nat, vaddr: nat,
                   got: seq<nat>, ws: seq<Word>, ph: ProgramHeader, file: seq<Byte>, j: nat)
    requires ph.offset + ph.filesz <= |file| && LeadTo(ws, got) && root in roots
    requires vaddr % PAGE_SIZE == 0 && Vpn(vaddr) + |got| <= PAGES && j < |got|
    requires Ranged(mem0, memA, roots, out0, root, Vpn(vaddr), ws) && Taken(memA, roots, out0, out, got)
    requires Writing(memA, mem, roots, got, j, ph, file)
    ensures Translate(mem, root, Vpn(vaddr + j * 4096)) == Some(got[j]) && (vaddr + j * 4096) % 4096 == 0
    ensures got[j] in out && got[j] in mem.pages && Fresh(mem, roots, got[j]) && NoRepeats(got)
  {
    hide Translate; hide LeadTo; hide Pte; hide UpperKept; hide Fresh; hide Extends; hide PackPage; hide PageContent; hide NoRepeats;
    hide Sees; hide DataKept; hide Ranged; hide Vpn;
    TargetFrame(mem0, memA, roots, out0, root, vaddr, got, ws, j);
    ExtendsTranslate(memA, mem, roots, root, Vpn(vaddr + j * 4096));
    assert got[j] in got;
  }

  lemma TargetFrame(mem0: Mem, memA: Mem, roots: set<nat>, out0: set<nat>, root: nat, vaddr: nat, got: seq<nat>, ws: seq<Word>, j: nat)
    requires LeadTo(ws, got) && root in roots && vaddr % PAGE_SIZE == 0 && Vpn(vaddr) + |got| <= PAGES && j < |got|
    requires Ranged(mem0, memA, roots, out0, root, Vpn(vaddr), ws)
    ensures Translate(memA, root, Vpn(vaddr + j * 4096)) == Some(got[j]) && (vaddr + j * 4096) % 4096 == 0
  {
    hide Translate; hide LeadTo; hide Ranged; hide Vpn;
    VpnStep(vaddr, j);
    RangedTranslate(mem0, memA, roots, out0, root, Vpn(vaddr), got, ws, Vpn(vaddr) + j);
  }

  // The loop of `load_phdr`: one page of the segment at a time.
  method WriteSegment(m: Machine, root: nat, vaddr: nat, ph: ProgramHeader, file: seq<Byte>,
                      ghost mem0: Mem, ghost out0: set<nat>, ghost got: seq<nat>, ghost ws: seq<Word>)
    requires World(m) && root in m.spaces.roots && ph.offset + ph.filesz <= |file| && LeadTo(ws, got)
    requires vaddr % PAGE_SIZE == 0 && Vpn(vaddr) + |got| <= PAGES && |got| == PagesFor(ph.memsz)
    requires vaddr + PagesFor(ph.memsz) * PAGE_SIZE <= 0x1_0000_0000_0000_0000
    requires Ranged(mem0, m.frames, m.spaces.roots, out0, root, Vpn(vaddr), ws)
    requires Taken(m.frames, m.spaces.roots, out0, m.book.out, got)
    modifies m`frames
    ensures World(m) && m.Remaining() == old(m.Remaining())
    ensures Writing(old(m.frames), m.frames, m.spaces.roots, got, |got|, ph, file)
  {
    hide *;
    WorldParts(m);
    ghost var memA, roots, out, left := m.frames, m.spaces.roots, m.book.out, m.Remaining();
    WritingStarts(memA, roots, got, ph, file);
    var written := 0;
    ghost var j := 0;
    PageCounts(ph.memsz, 0);
    while written < ph.memsz
      invariant m.Valid() && World(m) && m.Remaining() == left
      invariant written == j * 4096 && 0 <= j <= |got| && (written < ph.memsz <==> j < |got|)
      invariant Writing(memA, m.frames, roots, got, j, ph, file)
      decreases |got| - j
    {
      WorldParts(m);
      TargetPage(mem0, memA, m.frames, roots, out0, out, root, vaddr, got, ws, ph, file, j);
      AddressFits(vaddr, ph.memsz, j);
      var phys := VmmVirtToPhys(m, root, vaddr + written);
      FrameOfAddress(got[j]);
      DataWrite(m.frames, m.spaces, m.kernelPml4, out, got[j], PackPage(PageContent(ph, file, written)));
      ghost var mem1 := m.frames;
      WriteFrame(m, phys / 4096, PackPage(PageContent(ph, file, written)));
      WritingStep(memA, mem1, m.frames, roots, got, j, ph, file);
      WorldParts(m);
      written := written + 4096;
      j := j + 1;
      PageCounts(ph.memsz, j);
    }
  }

  lemma FrameOfAddress(f: nat)
    ensures f * 4096 / 4096 == f
  {
  }

  // The frames that a segment takes: its pages and the tables they lie in.
  function SegmentFrames(ph: ProgramHeader, loadBase: nat): nat {
    FramesFor(Vpn(ph.vaddr + loadBase), PagesFor(ph.memsz))
  }

  lemma SegmentFramesIs(ph: ProgramHeader, loadBase: nat)
    ensures SegmentFrames(ph, loadBase) == FramesFor(Vpn(ph.vaddr + loadBase), PagesFor(ph.memsz))
  {
  }

  // Maps the segment's pages and fills them through the physical window.
  method LoadPhdr(m: Machine, root: nat, ph: ProgramHeader, loadBase: nat, file: seq<Byte>)
    requires World(m) && root in m.spaces.roots && ph.offset + ph.filesz <= |file|
    requires ph.load ==> Placed(ph, loadBase) && m.Remaining() >= SegmentFrames(ph, loadBase)
    modifies m`frames, m`head, m`book, m`fillEntry, m`fillOffset, m`lazyBytes
    ensures World(m) && old(m.book.out) <= m.book.out
    ensures m.Remaining() >= old(m.Remaining()) - (if ph.load then SegmentFrames(ph, loadBase) else 0)
    ensures !ph.load ==> m.frames == old(m.frames) && m.book == old(m.book)
    ensures ph.load ==> Loaded(m.frames, m.spaces.roots, m.book.out, root, Vpn(ph.vaddr + loadBase), ph, file)
    ensures ph.load ==> AllRights(m.frames, root, Vpn(ph.vaddr + loadBase), ph)
    ensures ph.load ==> OthersKept(old(m.frames), m.frames, m.spaces.roots, old(m.book.out), root, Vpn(ph.vaddr + loadBase), PagesFor(ph.memsz))
  {
    hide *;
    WorldParts(m);
    if !ph.load { return; }
    var vaddr := ph.vaddr + loadBase;
    var flags := SegmentFlags(ph);
    SegmentFlagsOk(ph);
    PlacedRoom(ph, loadBase);
    SegmentFramesIs(ph, loadBase);
    ghost var mem0, out0, roots, left := m.frames, m.book.out, m.spaces.roots, m.Remaining();
    var start;
    ghost var got;
    start, got := VmmMapRange(m, root, vaddr, ph.memsz, flags);
    LeavesLead(got, flags);
    ghost var ws := Leaves(got, flags);
    ghost var memA := m.frames;
    WorldParts(m);
    WriteSegment(m, root, vaddr, ph, file, mem0, out0, got, ws);
    OthersAfter(mem0, memA, m.frames, roots, out0, m.book.out, root, Vpn(vaddr), got, ws, ph, file);
    LoadedAfter(mem0, memA, m.frames, roots, out0, m.book.out, root, Vpn(vaddr), got, ws, ph, file);
    RightsAfter(mem0, memA, m.frames, roots, out0, root, Vpn(vaddr), got, ph, file);
  }

  ghost predicate AllRights(mem: Mem, root: nat, vp0: nat, ph: ProgramHeader) {
    forall vp: nat :: vp0 <= vp < vp0 + PagesFor(ph.memsz) ==> SegmentRights(mem, root, vp, ph)
  }

  lemma RightsAfter(mem0: Mem, memA: Mem, mem: Mem, roots: set<nat>, out0: set<nat>, root: nat, vp0: nat, got: seq<nat>, ph: ProgramHeader, file: seq<Byte>)
    requires (forall j :: 0 <= j < |got| ==> got[j] < 0x100_0000_0000) && root in roots && IsFlags(SegmentFlags(ph)) && |got| == PagesFor(ph.memsz)
    requires Ranged(mem0, memA, roots, out0, root, vp0, Leaves(got, SegmentFlags(ph))) && RangeGranted(memA, root, vp0, |got|, SegmentFlags(ph))
    requires ph.offset + ph.filesz <= |file| && Writing(memA, mem, roots, got, |got|, ph, file) && vp0 + |got| <= PAGES
    ensures AllRights(mem, root, vp0, ph)
  {
    hide Ranged; hide Writing; hide SegmentRights; hide Leaves; hide RangeGranted; hide SegmentFlags; hide PagesFor; hide Extends;
    WritingExtends(memA, mem, roots, got, |got|, ph, file);
    forall vp: nat | vp0 <= vp < vp0 + |got| ensures SegmentRights(mem, root, vp, ph) {
      RightsGiven(mem0, memA, mem, roots, out0, root, vp0, got, ph, vp);
    }
  }

  // The segment is page-aligned and lies inside the addresses that the tables index.
  ghost predicate Placed(ph: ProgramHeader, loadBase: nat) {
    var vaddr := ph.vaddr + loadBase;
    vaddr % PAGE_SIZE == 0 && vaddr + PagesFor(ph.memsz) * PAGE_SIZE < 0x1_0000_0000_0000_0000 &&
    Vpn(vaddr) + PagesFor(ph.memsz) <= PAGES
  }

  lemma PlacedRoom(ph: ProgramHeader, loadBase: nat)
    requires Placed(ph, loadBase)
    ensures var vaddr := ph.vaddr + loadBase;
      && vaddr < 0x1_0000_0000_0000_0000 && AlignUp(vaddr) == vaddr && vaddr % PAGE_SIZE == 0
      && AlignUp(vaddr) + PagesFor(ph.memsz) * PAGE_SIZE <= 0x1_0000_0000_0000_0000
      && Vpn(AlignUp(vaddr)) + PagesFor(ph.memsz) <= PAGES
  {
  }

  lemma AddressFits(vaddr: nat, size: nat, j: nat)
    requires vaddr + PagesFor(size) * PAGE_SIZE <= 0x1_0000_0000_0000_0000 && j < PagesFor(size)
    ensures vaddr + j * 4096 < 0x1_0000_0000_0000_0000
  {
  }

  lemma PageCounts(size: nat, j: nat)
    ensures j * 4096 < size <==> j < PagesFor(size)
  {
  }

  // ----- elf_load -----

  // Page `vp` is one of the segment's, if that is loaded.
  predicate OnPage(ph: ProgramHeader, loadBase: nat, vp: nat) {
    ph.load && Vpn(ph.vaddr + loadBase) <= vp < Vpn(ph.vaddr + loadBase) + PagesFor(ph.memsz)
  }

  // Segment `i` is the last of the first `n` on page `vp`.
  ghost predicate LastOn(phs: seq<ProgramHeader>, loadBase: nat, n: nat, i: nat, vp: nat)
    requires n <= |phs|
  {
    i < n && OnPage(phs[i], loadBase, vp) && forall j :: i < j < n ==> !OnPage(phs[j], loadBase, vp)
  }

  // What page `vp` of the segment has to contain.
  function ContentOn(ph: ProgramHeader, loadBase: nat, vp: nat, file: seq<Byte>): seq<Byte>
    requires OnPage(ph, loadBase, vp) && ph.offset + ph.filesz <= |file|
  {
    PageContent(ph, file, (vp - Vpn(ph.vaddr + loadBase)) * 4096)
  }

  ghost predicate FilesOk(phs: seq<ProgramHeader>, file: seq<Byte>) {
    forall i :: 0 <= i < |phs| ==> phs[i].offset + phs[i].filesz <= |file|
  }

  // After `n` program headers, every page has the bytes and the rights of the last segment on it.
  ghost predicate AllLoaded(mem: Mem, roots: set<nat>, out: set<nat>, root: nat, loadBase: nat, phs: seq<ProgramHeader>, file: seq<Byte>, n: nat)
    requires FilesOk(phs, file) && n <= |phs|
  {
    forall i: nat, vp: nat :: LastOn(phs, loadBase, n, i, vp) ==>
      PageLoaded(mem, roots, out, root, Vpn(phs[i].vaddr + loadBase), vp, phs[i], file) && SegmentRights(mem, root, vp, phs[i])
  }

  // Loading a segment on other pages leaves a loaded page.
  lemma PageStays(mem: Mem, mem': Mem, roots: set<nat>, out: set<nat>, out': set<nat>, root: nat, vp0: nat, n: nat, p: nat, vp: nat,
                  a: ProgramHeader, file: seq<Byte>)
    requires a.offset + a.filesz <= |file| && p <= vp < PAGES && !(vp0 <= vp < vp0 + n) && out <= out'
    requires PageLoaded(mem, roots, out, root, p, vp, a, file) && OthersKept(mem, mem', roots, out, root, vp0, n)
    requires SegmentRights(mem, root, vp, a)
    ensures PageLoaded(mem', roots, out', root, p, vp, a, file) && SegmentRights(mem', root, vp, a)
  {
    hide Translate; hide Fresh; hide PackPage; hide PageContent; hide SegmentRights;
  }

  lemma AllLoadedStep(mem: Mem, mem': Mem, roots: set<nat>, out: set<nat>, out': set<nat>, root: nat, loadBase: nat,
                      phs: seq<ProgramHeader>, file: seq<Byte>, n: nat)
    requires FilesOk(phs, file) && n < |phs| && forall i :: 0 <= i < |phs| && phs[i].load ==> Placed(phs[i], loadBase)
    requires phs[n].load && out <= out' && AllLoaded(mem, roots, out, root, loadBase, phs, file, n)
    requires OthersKept(mem, mem', roots, out, root, Vpn(phs[n].vaddr + loadBase), PagesFor(phs[n].memsz))
    requires Loaded(mem', roots, out', root, Vpn(phs[n].vaddr + loadBase), phs[n], file) && AllRights(mem', root, Vpn(phs[n].vaddr + loadBase), phs[n])
    ensures AllLoaded(mem', roots, out', root, loadBase, phs, file, n + 1)
  {
    hide OthersKept; hide PagesFor; hide Vpn; hide PageLoaded; hide SegmentRights;
    var m := n + 1;
    forall i: nat, vp: nat | LastOn(phs, loadBase, m, i, vp)
      ensures PageLoaded(mem', roots, out', root, Vpn(phs[i].vaddr + loadBase), vp, phs[i], file) && SegmentRights(mem', root, vp, phs[i])
    {
      if i < n {
        assert LastOn(phs, loadBase, n, i, vp);
        assert !OnPage(phs[n], loadBase, vp);
        assert Placed(phs[i], loadBase);
        PageStays(mem, mem', roots, out, out', root, Vpn(phs[n].vaddr + loadBase), PagesFor(phs[n].memsz), Vpn(phs[i].vaddr + loadBase), vp, phs[i], file);
      }
    }
  }

  // The last segment on a page that has one.
  ghost function LastIndex(phs: seq<ProgramHeader>, loadBase: nat, n: nat, i: nat, vp: nat): (j: nat)
    requires i < n <= |phs| && OnPage(phs[i], loadBase, vp)
    ensures LastOn(phs, loadBase, n, j, vp) && i <= j
  {
    if n - 1 == i || OnPage(phs[n - 1], loadBase, vp) then n - 1 else LastIndex(phs, loadBase, n - 1, i, vp)
  }

  lemma SamePage(mem: Mem, roots: set<nat>, out: set<nat>, root: nat, loadBase: nat, vp: nat, a: ProgramHeader, b: ProgramHeader, file: seq<Byte>)
    requires a.offset + a.filesz <= |file| && b.offset + b.filesz <= |file| && OnPage(a, loadBase, vp) && OnPage(b, loadBase, vp)
    requires PageLoaded(mem, roots, out, root, Vpn(b.vaddr + loadBase), vp, b, file)
    ensures PageLoaded(mem, roots, out, root, Vpn(a.vaddr + loadBase), vp, a, file) <==> ContentOn(a, loadBase, vp, file) == ContentOn(b, loadBase, vp, file)
  {
    hide Translate; hide Fresh; hide PackPage; hide PageContent; hide PagesFor; hide Vpn; hide PageByte;
    var x, y := ContentOn(a, loadBase, vp, file), ContentOn(b, loadBase, vp, file);
    if PackPage(x) == PackPage(y) {
      forall i: nat | i < 4096 ensures x[i] == y[i] {
        PackedBytes(x, i);
        PackedBytes(y, i);
      }
    }
  }

  // A segment is in memory in the end if and only if it agrees with the last segment on each of its pages.
  // In particular a segment that has its pages to itself is.
  lemma LoadedExactly(mem: Mem, roots: set<nat>, out: set<nat>, root: nat, loadBase: nat, phs: seq<ProgramHeader>, file: seq<Byte>, i: nat)
    requires FilesOk(phs, file) && AllLoaded(mem, roots, out, root, loadBase, phs, file, |phs|) && i < |phs| && phs[i].load
    ensures Loaded(mem, roots, out, root, Vpn(phs[i].vaddr + loadBase), phs[i], file) <==>
              forall j: nat, vp: nat :: LastOn(phs, loadBase, |phs|, j, vp) && OnPage(phs[i], loadBase, vp) ==>
                ContentOn(phs[j], loadBase, vp, file) == ContentOn(phs[i], loadBase, vp, file)
  {
    hide PageLoaded; hide ContentOn; hide PagesFor; hide Vpn; hide SegmentRights;
    forall j: nat, vp: nat | LastOn(phs, loadBase, |phs|, j, vp) && OnPage(phs[i], loadBase, vp)
      ensures PageLoaded(mem, roots, out, root, Vpn(phs[i].vaddr + loadBase), vp, phs[i], file) <==>
                ContentOn(phs[j], loadBase, vp, file) == ContentOn(phs[i], loadBase, vp, file)
    {
      SamePage(mem, roots, out, root, loadBase, vp, phs[i], phs[j], file);
    }
    var p := Vpn(phs[i].vaddr + loadBase);
    if forall j: nat, vp: nat :: LastOn(phs, loadBase, |phs|, j, vp) && OnPage(phs[i], loadBase, vp) ==>
         ContentOn(phs[j], loadBase, vp, file) == ContentOn(phs[i], loadBase, vp, file) {
      forall vp: nat | p <= vp < p + PagesFor(phs[i].memsz) ensures PageLoaded(mem, roots, out, root, p, vp, phs[i], file) {
        assert OnPage(phs[i], loadBase, vp);
        var j := LastIndex(phs, loadBase, |phs|, i, vp);
        assert LastOn(phs, loadBase, |phs|, j, vp);
      }
    }
  }

  // An address that is not page-aligned: the range starts at the next page, so the first page is mapped if
  // and only if the address is aligned. Otherwise `vmm_virt_to_phys` yields 0 for it, and the first bytes of
  // the segment go to frame 0.
  lemma FirstPageMapped(mem0: Mem, mem: Mem, roots: set<nat>, out0: set<nat>, root: nat, vaddr: nat, size: nat, got: seq<nat>, ws: seq<Word>)
    requires LeadTo(ws, got) && root in roots && size > 0 && |got| == PagesFor(size)
    requires AlignUp(vaddr) + |got| * 4096 <= USER_END && Translate(mem0, root, Vpn(vaddr)).None?
    requires Ranged(mem0, mem, roots, out0, root, Vpn(AlignUp(vaddr)), ws)
    ensures Translate(mem, root, Vpn(vaddr)).Some? <==> vaddr % PAGE_SIZE == 0
  {
    hide Translate; hide LeadTo; hide Ranged;
    RangedTranslate(mem0, mem, roots, out0, root, Vpn(AlignUp(vaddr)), got, ws, Vpn(vaddr));
    assert Vpn(vaddr) == vaddr / 4096 && Vpn(AlignUp(vaddr)) == (vaddr + 4095) / 4096;
  }

  function FramesNeeded(phs: seq<ProgramHeader>, loadBase: nat, n: nat): nat
    requires n <= |phs|
    decreases |phs| - n
  {
    if n == |phs| then 0 else (if phs[n].load then SegmentFrames(phs[n], loadBase) else 0) + FramesNeeded(phs, loadBase, n + 1)
  }

  // Loads every segment; afterwards every page has the bytes and the rights of the last segment on it.
  method ElfLoad(m: Machine, root: nat, phs: seq<ProgramHeader>, entry: nat, dynamic: bool, file: seq<Byte>) returns (start: nat)
    requires World(m) && root in m.spaces.roots
    requires FilesOk(phs, file) && forall i :: 0 <= i < |phs| && phs[i].load ==> Placed(phs[i], LoadBase(dynamic))
    requires m.Remaining() >= FramesNeeded(phs, LoadBase(dynamic), 0)
    modifies m`frames, m`head, m`book, m`fillEntry, m`fillOffset, m`lazyBytes
    ensures World(m) && start == entry + (if dynamic then 0x40_0000 else 0)
    ensures AllLoaded(m.frames, m.spaces.roots, m.book.out, root, LoadBase(dynamic), phs, file, |phs|)
  {
    hide World; hide Loaded; hide OthersKept; hide Machine.Valid; hide Machine.Remaining; hide Placed; hide Vpn;
    hide PagesFor; hide AllLoaded; hide SegmentFrames; hide AllRights;
    WorldParts(m);
    var loadBase := LoadBase(dynamic);
    NoneLoaded(m.frames, m.spaces.roots, m.book.out, root, loadBase, phs, file);
    for i := 0 to |phs|
      invariant m.Valid() && World(m) && m.Remaining() >= FramesNeeded(phs, loadBase, i)
      invariant AllLoaded(m.frames, m.spaces.roots, m.book.out, root, loadBase, phs, file, i)
    {
      ghost var mem0, out0 := m.frames, m.book.out;
      LoadPhdr(m, root, phs[i], loadBase, file);
      if phs[i].load {
        AllLoadedStep(mem0, m.frames, m.spaces.roots, out0, m.book.out, root, loadBase, phs, file, i);
      } else {
        NotLoaded(m.frames, m.spaces.roots, m.book.out, root, loadBase, phs, file, i);
      }
      WorldParts(m);
    }
    return entry + loadBase;
  }

  lemma NoneLoaded(mem: Mem, roots: set<nat>, out: set<nat>, root: nat, loadBase: nat, phs: seq<ProgramHeader>, file: seq<Byte>)
    requires FilesOk(phs, file)
    ensures AllLoaded(mem, roots, out, root, loadBase, phs, file, 0)
  {
  }

  lemma NotLoaded(mem: Mem, roots: set<nat>, out: set<nat>, root: nat, loadBase: nat, phs: seq<ProgramHeader>, file: seq<Byte>, n: nat)
    requires FilesOk(phs, file) && n < |phs| && !phs[n].load && AllLoaded(mem, roots, out, root, loadBase, phs, file, n)
    ensures AllLoaded(mem, roots, out, root, loadBase, phs, file, n + 1)
  {
    hide PageLoaded; hide PagesFor; hide Vpn; hide SegmentRights;
    var m := n + 1;
    forall i: nat, vp: nat | LastOn(phs, loadBase, m, i, vp)
      ensures PageLoaded(mem, roots, out, root, Vpn(phs[i].vaddr + loadBase), vp, phs[i], file) && SegmentRights(mem, root, vp, phs[i])
    {
      assert LastOn(phs, loadBase, n, i, vp);
    }
  }

  // ET_DYN images are moved to USER_LOAD_BASE.
  function LoadBase(dynamic: bool): nat { if dynamic then 0x40_0000 else 0 }
}
