/** The machine's memory state: physical frames, the globals of the frame allocator, and the set of
    address spaces. */
module Machines {
  import opened Lists
  import opened Words
  import opened PageTables
  import opened MemoryMap

  // Where the boot loader maps physical memory (the HHDM offset); chosen at boot, never null.
  type HhdmOffset = h: nat | 0 < h && h % 4096 == 0 && h <= 0xFFFF_8000_0000_0000 witness 0xFFFF_8000_0000_0000
  const HHDM: HhdmOffset

  // Frames that the HHDM window can address.
  predicate Addressable(f: nat) {
    f < 0x100_0000_0000 && HHDM + (f + 1) * PAGE_SIZE <= 0x1_0000_0000_0000_0000
  }

  // A frame's address in the HHDM window, and back.
  function Virt(f: nat): Word
    requires Addressable(f)
  {
    HHDM + f * PAGE_SIZE
  }

  function FrameAt(v: Word): nat
    requires v >= HHDM
  {
    (v - HHDM) / PAGE_SIZE
  }

  // ----- the list as it lies in memory -----

  // The pointer stored before position `i` of the list: null behind the last node.
  function Pointer(fl: seq<nat>, i: nat): Word
    requires forall f :: f in fl ==> Addressable(f)
  {
    if i < |fl| then Virt(fl[i]) else 0
  }

  // The frames `fl`, in this order, are the list that starts at `head`.
  ghost predicate Threaded(mem: Mem, head: Word, fl: seq<nat>) {
    && NoRepeats(fl)
    && (forall f :: f in fl ==> Addressable(f))
    && head == Pointer(fl, 0)
    && forall i :: 0 <= i < |fl| ==> fl[i] in mem.pages && mem.pages[fl[i]][0] == Pointer(fl, i + 1)
  }

  // ----- the fill cursor -----

  predicate CursorOk(map_: seq<Region>, entry: nat, offset: nat) {
    && entry <= |map_|
    && (offset != 0 ==>
          && entry < |map_| && Start(map_[entry]) <= map_[entry].base + offset
          && (map_[entry].base + offset - Start(map_[entry])) % PAGE_SIZE == 0
          && (map_[entry].base + offset - Start(map_[entry])) / PAGE_SIZE < PageCount(map_[entry]))
  }

  // How many pages of the enumeration the cursor has passed.
  function Consumed(map_: seq<Region>, entry: nat, offset: nat): nat
    requires CursorOk(map_, entry, offset)
  {
    |PagesUpTo(map_, entry)| +
    if offset == 0 then 0 else (map_[entry].base + offset - Start(map_[entry])) / PAGE_SIZE
  }

  // The first `n` pages of the enumeration are each on the list or handed out, never both.
  ghost predicate Accounted(all: seq<nat>, book: Book, n: nat) {
    && n <= |all| && |book.free| + |book.out| == n
    && (forall f :: f in book.free ==> f !in book.out)
    && (forall f :: f in book.free || f in book.out <==> f in all[..n])
  }

  // Where the frames are: on the free list, in this order, or handed out and not returned.
  datatype Book = Book(free: seq<nat>, out: set<nat>)

  // The top-level tables in use, and for each of them the kernel-half slots that the kernel's own
  // table had when it was created.
  datatype Spaces = Spaces(roots: set<nat>, slots: map<nat, set<nat>>)

  // ----- the machine: physical memory, the allocator's globals, and the address spaces -----

  class Machine {
    const memmap: seq<Region>          // g_lim_memmap
    var frames: Mem                    // physical memory
    var head: Word                     // freelist_pmm_head
    var fillEntry: nat                 // freelist_pmm_fill_entry
    var fillOffset: nat                // freelist_pmm_fill_offset
    var lazyBytes: nat                 // total_lazy_loaded_bytes
    var kernelPml4: nat                // kernel_pml4, as a frame

    ghost var book: Book               // the frames on the free list and those handed out
    ghost var spaces: Spaces           // the address spaces that exist

    // Nothing is filled or handed out yet, and there are no tables.
    constructor (map_: seq<Region>, memory: Mem)
      requires Disjoint(map_) && forall p :: p in AllPages(map_) ==> Addressable(p) && p in memory.pages
      ensures Valid() && memmap == map_ && frames == memory && Remaining() == |AllPages(map_)|
      ensures book == Book([], {}) && spaces == Spaces({}, map[])
    {
      memmap, frames := map_, memory;
      head, fillEntry, fillOffset, lazyBytes, kernelPml4 := 0, 0, 0, 0, 0;
      book, spaces := Book([], {}), Spaces({}, map[]);
    }

    // What the boot loader promises about the memory map.
    ghost predicate MapSane()
      reads this`frames
    {
      Disjoint(memmap) && forall p :: p in AllPages(memmap) ==> Addressable(p) && p in frames.pages
    }

    function Filled(): nat
      requires CursorOk(memmap, fillEntry, fillOffset)
      reads this`fillEntry, this`fillOffset
    {
      Consumed(memmap, fillEntry, fillOffset)
    }

    // Every page passed by the cursor is on the free list or handed out, never both, and each once.
    ghost predicate Valid()
      reads this`frames, this`head, this`fillEntry, this`fillOffset, this`lazyBytes, this`book
    {
      && MapSane() && CursorOk(memmap, fillEntry, fillOffset)
      && Threaded(frames, head, book.free)
      && Accounted(AllPages(memmap), book, Filled())
      && lazyBytes == Filled() * PAGE_SIZE
    }

    // How many frames can still be allocated.
    ghost function Remaining(): nat
      requires Valid()
      reads this`frames, this`head, this`fillEntry, this`fillOffset, this`lazyBytes, this`book
    {
      |book.free| + |AllPages(memmap)| - Filled()
    }
  }
}
