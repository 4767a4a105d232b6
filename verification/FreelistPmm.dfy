/** The physical frame allocator: a free list threaded through the frames themselves, filled lazily
    from the firmware memory map. */
module FreelistPmm {
  import opened Prelude
  import opened Lists
  import opened Words
  import opened PageTables
  import opened MemoryMap
  import opened Machines

  // Pushing the pages `ps` one after the other.
  function Push(fl: seq<nat>, ps: seq<nat>): seq<nat> {
    if ps == [] then fl else [ps[|ps| - 1]] + Push(fl, ps[..|ps| - 1])
  }

  lemma {:induction false} PushAppend(fl: seq<nat>, a: seq<nat>, b: seq<nat>)
    ensures Push(Push(fl, a), b) == Push(fl, a + b)
  {
    if b == [] {
      assert a + b == a;
    } else {
      PushAppend(fl, a, b[..|b| - 1]);
      assert (a + b)[..|a + b| - 1] == a + b[..|b| - 1];
    }
  }

  lemma {:induction false} PushContents(fl: seq<nat>, ps: seq<nat>)
    ensures |Push(fl, ps)| == |fl| + |ps|
    ensures forall x :: x in Push(fl, ps) <==> x in fl || x in ps
  {
    if ps != [] {
      PushContents(fl, ps[..|ps| - 1]);
      assert ps == ps[..|ps| - 1] + [ps[|ps| - 1]];
    }
  }

  lemma AllAt(map_: seq<Region>, entry: nat, j: nat)
    requires entry < |map_| && j < PageCount(map_[entry])
    ensures |PagesUpTo(map_, entry)| + j < |AllPages(map_)|
    ensures AllPages(map_)[|PagesUpTo(map_, entry)| + j] == Start(map_[entry]) / PAGE_SIZE + j
  {
    UpToIsPrefix(map_, entry + 1, |map_|);
    var front := PagesUpTo(map_, entry);
    assert (front + RegionPages(map_[entry]))[|front| + j] == RegionPages(map_[entry])[j];
  }

  lemma ThreadedPush(mem: Mem, head: Word, fl: seq<nat>, f: nat)
    requires Threaded(mem, head, fl) && f !in fl && Addressable(f) && f in mem.pages
    ensures Threaded(Store(mem, f, 0, head), Virt(f), [f] + fl)
  {
    var mem', fl' := Store(mem, f, 0, head), [f] + fl;
    forall i | 0 <= i < |fl'| ensures fl'[i] in mem'.pages && mem'.pages[fl'[i]][0] == Pointer(fl', i + 1) {
      if i > 0 {
        assert fl[i - 1] in fl;
      }
    }
  }

  // The inner statements of `fpmm_fill` and the body of `fpmm_free_page`: link the frame in front.
  method PushFrame(m: Machine, f: nat)
    requires Threaded(m.frames, m.head, m.book.free) && f !in m.book.free && Addressable(f) && f in m.frames.pages
    modifies m`frames, m`head, m`book
    ensures Threaded(m.frames, m.head, m.book.free) && m.book == old(m.book).(free := [f] + old(m.book.free))
    ensures m.frames == Store(old(m.frames), f, 0, old(m.head))
  {
    ThreadedPush(m.frames, m.head, m.book.free, f);
    m.frames := Store(m.frames, f, 0, m.head);
    m.head := Virt(f);
    m.book := m.book.(free := [f] + m.book.free);
  }

  // ----- fpmm_fill -----

  // The cursor at page `j` of region `entry`.
  predicate At(map_: seq<Region>, entry: nat, offset: nat, j: nat) {
    entry < |map_| && j <= PageCount(map_[entry]) && PageCount(map_[entry]) > 0 &&
    map_[entry].base + offset == Start(map_[entry]) + j * PAGE_SIZE
  }

  lemma EmptyRegion(map_: seq<Region>, entry: nat, offset: nat)
    requires CursorOk(map_, entry, offset) && entry < |map_|
    requires !map_[entry].usable || End(map_[entry]) <= Start(map_[entry])
    ensures CursorOk(map_, entry + 1, 0) && Consumed(map_, entry + 1, 0) == Consumed(map_, entry, offset)
  {
    hide AlignUp; hide AlignDown; hide Start; hide End;
  }

  // Entering a region, or coming back to one that an earlier call left half done.
  lemma Resume(map_: seq<Region>, entry: nat, offset: nat) returns (j: nat)
    requires CursorOk(map_, entry, offset) && entry < |map_|
    requires map_[entry].usable && Start(map_[entry]) < End(map_[entry])
    ensures var offset' := if offset == 0 then Start(map_[entry]) - map_[entry].base else offset;
      offset' >= 0 && At(map_, entry, offset', j)
    ensures j < PageCount(map_[entry]) && |PagesUpTo(map_, entry)| + j == Consumed(map_, entry, offset)
  {
    j := if offset == 0 then 0 else (map_[entry].base + offset - Start(map_[entry])) / PAGE_SIZE;
    hide PagesUpTo;
  }

  lemma MorePages(map_: seq<Region>, entry: nat, offset: nat, j: nat)
    requires At(map_, entry, offset, j)
    ensures entry < |map_| && j <= PageCount(map_[entry])
    ensures map_[entry].base + offset + PAGE_SIZE <= End(map_[entry]) <==> j < PageCount(map_[entry])
    ensures j < PageCount(map_[entry]) ==> At(map_, entry, offset + PAGE_SIZE, j + 1)
    ensures (map_[entry].base + offset) / PAGE_SIZE == Start(map_[entry]) / PAGE_SIZE + j
  {
    hide AlignUp; hide AlignDown;
    assert Start(map_[entry]) == Start(map_[entry]) / PAGE_SIZE * PAGE_SIZE by { StartAligned(map_[entry]); }
    hide Start; hide End; hide PageCount;
  }

  lemma StartAligned(r: Region)
    ensures Start(r) % PAGE_SIZE == 0
  {
  }

  lemma RegionDone(map_: seq<Region>, entry: nat, offset: nat, j: nat)
    requires At(map_, entry, offset, j) && offset > 0
    ensures j <= PageCount(map_[entry])
    ensures j == PageCount(map_[entry]) ==>
      CursorOk(map_, entry + 1, 0) && Consumed(map_, entry + 1, 0) == |PagesUpTo(map_, entry)| + j
    ensures j < PageCount(map_[entry]) ==>
      CursorOk(map_, entry, offset) && Consumed(map_, entry, offset) == |PagesUpTo(map_, entry)| + j
  {
    hide AlignUp; hide AlignDown; hide Start; hide End; hide PageCount;
  }

  // Halfway through a fill that began at position `n0` of the enumeration with list `fl0` and
  // memory `mem0`: the pages up to position `c` have been pushed, and nothing else was touched.
  ghost predicate Filling(m: Machine, b0: Book, mem0: Mem, n0: nat, c: nat)
    reads m`frames, m`head, m`book, m`lazyBytes
  {
    var all := AllPages(m.memmap);
    && m.MapSane() && n0 <= c <= |all|
    && (forall f :: f in b0.free ==> f in all[..n0])
    && m.book.out == b0.out && m.book.free == Push(b0.free, all[n0..c]) && Threaded(m.frames, m.head, m.book.free)
    && m.lazyBytes == c * PAGE_SIZE
    && m.frames.pages.Keys == mem0.pages.Keys
    && forall f :: f in mem0.pages && f !in all[n0..c] ==> m.frames.pages[f] == mem0.pages[f]
  }

  lemma PushOne(fl: seq<nat>, all: seq<nat>, n0: nat, c: nat)
    requires n0 <= c < |all|
    ensures all[n0..c + 1] == all[n0..c] + [all[c]]
    ensures Push(fl, all[n0..c + 1]) == [all[c]] + Push(fl, all[n0..c])
  {
    assert all[n0..c + 1][..c - n0] == all[n0..c];
  }

  lemma EnumerationDistinct(map_: seq<Region>)
    requires Disjoint(map_)
    ensures NoRepeats(AllPages(map_))
  {
    PagesDistinct(map_, |map_|);
  }

  lemma NotYetPushed(map_: seq<Region>, b0: Book, n0: nat, c: nat)
    requires Disjoint(map_) && n0 <= c < |AllPages(map_)|
    requires forall f :: f in b0.free ==> f in AllPages(map_)[..n0]
    ensures AllPages(map_)[c] !in Push(b0.free, AllPages(map_)[n0..c])
  {
    hide *;
    var all := AllPages(map_);
    EnumerationDistinct(map_);
    PushContents(b0.free, all[n0..c]);
    SplitDistinct(all, n0, c);
  }

  // One round of the inner loop: push the next page of the enumeration.
  method FillOne(m: Machine, page: nat, ghost b0: Book, ghost mem0: Mem, ghost n0: nat, ghost c: nat)
    requires Filling(m, b0, mem0, n0, c) && c < |AllPages(m.memmap)| && page == AllPages(m.memmap)[c]
    modifies m`frames, m`head, m`book, m`lazyBytes
    ensures Filling(m, b0, mem0, n0, c + 1)
  {
    hide AllPages; hide Push; hide Disjoint; hide Threaded; hide Addressable; hide Virt;
    NotYetPushed(m.memmap, b0, n0, c);
    PushOne(b0.free, AllPages(m.memmap), n0, c);
    assert page in AllPages(m.memmap);
    PushFrame(m, page);
    m.lazyBytes := m.lazyBytes + PAGE_SIZE;
  }

  lemma FillingStarts(m: Machine)
    requires m.Valid()
    ensures Filling(m, m.book, m.frames, m.Filled(), m.Filled())
    ensures CursorOk(m.memmap, m.fillEntry, m.fillOffset)
    ensures m.Filled() == Consumed(m.memmap, m.fillEntry, m.fillOffset)
    ensures Accounted(AllPages(m.memmap), m.book, m.Filled())
  {
    var all, n := AllPages(m.memmap), m.Filled();
    assert all[n..n] == [];
  }

  lemma Exhausted(map_: seq<Region>)
    ensures CursorOk(map_, |map_|, 0) && Consumed(map_, |map_|, 0) == |AllPages(map_)|
    ensures forall offset :: CursorOk(map_, |map_|, offset) ==> offset == 0
  {
  }

  // What the allocator's invariant says of the list and the handed-out frames once a fill is over.
  lemma FillingEnds(m: Machine, b0: Book, mem0: Mem, n0: nat, added: nat, pages: nat)
    requires CursorOk(m.memmap, m.fillEntry, m.fillOffset)
    requires Consumed(m.memmap, m.fillEntry, m.fillOffset) == n0 + added
    requires Filling(m, b0, mem0, n0, n0 + added)
    requires added == pages || (added < pages && m.fillEntry == |m.memmap|)
    requires Accounted(AllPages(m.memmap), b0, n0)
    ensures m.Valid() && m.frames.pages.Keys == mem0.pages.Keys
    ensures m.Filled() == Min(n0 + pages, |AllPages(m.memmap)|)
    ensures m.book.out == b0.out && m.book.free == Push(b0.free, AllPages(m.memmap)[n0..m.Filled()])
    ensures forall f :: f in mem0.pages && f !in AllPages(m.memmap)[n0..m.Filled()] ==> m.frames.pages[f] == mem0.pages[f]
  {
    hide AllPages; hide Push; hide Threaded; hide NoRepeats; hide Accounted; hide Disjoint; hide CursorOk; hide Addressable;
    EnumerationDistinct(m.memmap);
    PushAccounts(b0, AllPages(m.memmap), n0, n0 + added);
    Exhausted(m.memmap);
  }

  // Pages that are counted once before a push are counted once after it.
  lemma PushAccounts(book: Book, all: seq<nat>, n0: nat, c: nat)
    requires NoRepeats(all) && n0 <= c <= |all| && Accounted(all, book, n0)
    ensures Accounted(all, book.(free := Push(book.free, all[n0..c])), c)
  {
    hide NoRepeats; hide Push;
    PushContents(book.free, all[n0..c]);
    SplitDistinct(all, n0, c);
  }

  // The inner loop of `fpmm_fill`, on the region under the cursor, which has page `j` next.
  method FillRegion(m: Machine, added: nat, pages: nat,
                    ghost j: nat, ghost b0: Book, ghost mem0: Mem, ghost n0: nat)
    returns (added': nat, ghost j': nat)
    requires m.fillEntry < |m.memmap|
    requires At(m.memmap, m.fillEntry, m.fillOffset, j) && j < PageCount(m.memmap[m.fillEntry])
    requires added < pages && |PagesUpTo(m.memmap, m.fillEntry)| + j == n0 + added
    requires Filling(m, b0, mem0, n0, n0 + added)
    modifies m`frames, m`head, m`book, m`fillOffset, m`lazyBytes
    ensures m.fillOffset > 0 && added' <= pages
    ensures At(m.memmap, m.fillEntry, m.fillOffset, j') && |PagesUpTo(m.memmap, m.fillEntry)| + j' == n0 + added'
    ensures Filling(m, b0, mem0, n0, n0 + added')
    ensures added' == pages || j' == PageCount(m.memmap[m.fillEntry])
  {
    hide *;
    added', j' := added, j;
    MorePages(m.memmap, m.fillEntry, m.fillOffset, j);
    var entry := m.memmap[m.fillEntry];
    var end := End(entry);
    ghost var before := |PagesUpTo(m.memmap, m.fillEntry)|;
    while entry.base + m.fillOffset + PAGE_SIZE <= end && added' < pages
      invariant added' <= pages && At(m.memmap, m.fillEntry, m.fillOffset, j')
      invariant before + j' == n0 + added'
      invariant entry.base + m.fillOffset + PAGE_SIZE <= end <==> j' < PageCount(entry)
      invariant j' <= PageCount(entry)
      invariant Filling(m, b0, mem0, n0, n0 + added')
      invariant m.fillOffset > 0 || added' == added
      decreases pages - added'
    {
      MorePages(m.memmap, m.fillEntry, m.fillOffset, j');
      AllAt(m.memmap, m.fillEntry, j');
      FillOne(m, (entry.base + m.fillOffset) / PAGE_SIZE, b0, mem0, n0, n0 + added');
      added' := added' + 1;
      m.fillOffset := m.fillOffset + PAGE_SIZE;
      j' := j' + 1;
      MorePages(m.memmap, m.fillEntry, m.fillOffset, j');
    }
  }

  // Adds up to `pages` pages: exactly the next ones of the enumeration, in order, whatever earlier
  // calls have added. Only the added frames are written.
  method FpmmFill(m: Machine, pages: nat)
    requires m.Valid()
    modifies m`frames, m`head, m`book, m`fillEntry, m`fillOffset, m`lazyBytes
    ensures m.Valid() && m.frames.pages.Keys == old(m.frames).pages.Keys
    ensures m.Filled() == Min(old(m.Filled()) + pages, |AllPages(m.memmap)|)
    ensures m.book.out == old(m.book.out) && m.book.free == Push(old(m.book.free), AllPages(m.memmap)[old(m.Filled())..m.Filled()])
    ensures forall f :: f in old(m.frames).pages && f !in AllPages(m.memmap)[old(m.Filled())..m.Filled()] ==>
              m.frames.pages[f] == old(m.frames).pages[f]
  {
    hide *;
    FillingStarts(m);
    ghost var b0, mem0, n0 := m.book, m.frames, m.Filled();
    var added: nat := 0;
    while m.fillEntry < |m.memmap| && added < pages
      invariant CursorOk(m.memmap, m.fillEntry, m.fillOffset) && m.fillEntry <= |m.memmap|
      invariant added <= pages && Consumed(m.memmap, m.fillEntry, m.fillOffset) == n0 + added
      invariant Filling(m, b0, mem0, n0, n0 + added)
      decreases |m.memmap| - m.fillEntry, pages - added
    {
      var entry := m.memmap[m.fillEntry];
      if !entry.usable {
        EmptyRegion(m.memmap, m.fillEntry, m.fillOffset);
        m.fillEntry, m.fillOffset := m.fillEntry + 1, 0;
        continue;
      }
      var start, end := Start(entry), End(entry);
      if end <= start {
        EmptyRegion(m.memmap, m.fillEntry, m.fillOffset);
        m.fillEntry, m.fillOffset := m.fillEntry + 1, 0;
        continue;
      }
      ghost var j: nat := Resume(m.memmap, m.fillEntry, m.fillOffset);
      if m.fillOffset == 0 {
        m.fillOffset := start - entry.base;
      }
      added, j := FillRegion(m, added, pages, j, b0, mem0, n0);
      MorePages(m.memmap, m.fillEntry, m.fillOffset, j);
      RegionDone(m.memmap, m.fillEntry, m.fillOffset, j);
      if entry.base + m.fillOffset + PAGE_SIZE > end {
        m.fillEntry, m.fillOffset := m.fillEntry + 1, 0;
      }
    }
    FillingEnds(m, b0, mem0, n0, added, pages);
  }

  // The list that filling with `pages` more pages leaves, when `n` pages have been passed.
  function FillList(fl: seq<nat>, all: seq<nat>, n: nat, pages: nat): seq<nat>
    requires n <= |all|
  {
    Push(fl, all[n..Min(n + pages, |all|)])
  }

  // While nothing is taken, filling twice is filling once with the sum.
  lemma FillResumes(fl: seq<nat>, all: seq<nat>, n: nat, a: nat, b: nat)
    requires n <= |all|
    ensures FillList(FillList(fl, all, n, a), all, Min(n + a, |all|), b) == FillList(fl, all, n, a + b)
  {
    var c, d := Min(n + a, |all|), Min(n + a + b, |all|);
    PushAppend(fl, all[n..c], all[c..d]);
    assert all[n..c] + all[c..d] == all[n..d];
  }

  // ----- fpmm_allocate_page -----

  // Frames that were handed out before keep their contents.
  ghost predicate Keeps(mem: Mem, mem': Mem, out: set<nat>) {
    mem'.pages.Keys == mem.pages.Keys && forall f :: f in out && f in mem.pages ==> mem'.pages[f] == mem.pages[f]
  }

  lemma OutIsMemory(m: Machine, f: nat)
    requires m.Valid() && (f in m.book.out || f in m.book.free)
    ensures f in m.frames.pages && Addressable(f) && !(f in m.book.out && f in m.book.free)
  {
    assert f in AllPages(m.memmap);
  }

  lemma FillKeepsOut(m: Machine, mem0: Mem, b0: Book, n0: nat)
    requires m.Valid() && n0 <= m.Filled() && Accounted(AllPages(m.memmap), b0, n0)
    requires m.frames.pages.Keys == mem0.pages.Keys
    requires forall f :: f in mem0.pages && f !in AllPages(m.memmap)[n0..m.Filled()] ==> m.frames.pages[f] == mem0.pages[f]
    ensures Keeps(mem0, m.frames, b0.out)
  {
    hide AllPages; hide Threaded; hide NoRepeats; hide Disjoint; hide CursorOk; hide Addressable; hide Consumed;
    EnumerationDistinct(m.memmap);
    SplitDistinct(AllPages(m.memmap), n0, m.Filled());
  }

  lemma ThreadedPop(mem: Mem, head: Word, fl: seq<nat>)
    requires Threaded(mem, head, fl) && fl != []
    ensures head >= HHDM && FrameAt(head) == fl[0] && fl[0] in mem.pages && Addressable(fl[0])
    ensures fl[0] !in fl[1..]
    ensures Threaded(Zeroed(mem, fl[0]), mem.pages[fl[0]][0], fl[1..])
  {
    var f, mem', fl' := fl[0], Zeroed(mem, fl[0]), fl[1..];
    assert f in fl;
    forall i | 0 <= i < |fl'| ensures fl'[i] in mem'.pages && mem'.pages[fl'[i]][0] == Pointer(fl', i + 1) {
      assert fl'[i] == fl[i + 1];
    }
    forall x | x in fl' ensures x in fl {}
  }

  lemma AccountedPop(all: seq<nat>, book: Book, n: nat)
    requires Accounted(all, book, n) && book.free != [] && book.free[0] !in book.free[1..]
    ensures Accounted(all, Book(book.free[1..], book.out + {book.free[0]}), n)
    ensures book.free[0] !in book.out
  {
    assert book.free[0] in book.free;
    assert forall f :: f in book.free <==> f == book.free[0] || f in book.free[1..];
  }

  // Takes the frame at the head of the list.
  method PopFrame(m: Machine) returns (f: nat)
    requires m.Valid() && m.book.free != []
    modifies m`frames, m`head, m`book
    ensures m.Valid() && m.Filled() == old(m.Filled()) && f == old(m.book.free)[0]
    ensures m.book == Book(old(m.book.free)[1..], old(m.book.out) + {f}) && f !in old(m.book.out)
    ensures m.frames == Zeroed(old(m.frames), f)
    ensures f in old(m.frames).pages && Addressable(f)
  {
    hide Threaded; hide Accounted; hide Consumed; hide CursorOk; hide Addressable; hide AllPages; hide Disjoint;
    ThreadedPop(m.frames, m.head, m.book.free);
    AccountedPop(AllPages(m.memmap), m.book, m.Filled());
    f := FrameAt(m.head);
    m.head := m.frames.pages[f][0];
    m.frames := Zeroed(m.frames, f);
    m.book := Book(m.book.free[1..], m.book.out + {f});
  }

  lemma HeadMatchesList(m: Machine)
    requires m.Valid()
    ensures m.head == 0 <==> m.book.free == []
    ensures CursorOk(m.memmap, m.fillEntry, m.fillOffset)
    ensures Accounted(AllPages(m.memmap), m.book, m.Filled())
    ensures m.Remaining() == |m.book.free| + |AllPages(m.memmap)| - m.Filled()
  {
    if m.book.free != [] {
      assert m.book.free[0] in m.book.free;
    }
  }

  lemma FillAdds(fl: seq<nat>, all: seq<nat>, n: nat, pages: nat)
    requires n <= |all|
    ensures |FillList(fl, all, n, pages)| == |fl| + Min(n + pages, |all|) - n
  {
    PushContents(fl, all[n..Min(n + pages, |all|)]);
  }

  // `if (freelist_pmm_head == NULL) { fpmm_fill(512); }`
  method Refill(m: Machine)
    requires m.Valid() && m.Remaining() >= 1
    modifies m`frames, m`head, m`book, m`fillEntry, m`fillOffset, m`lazyBytes
    ensures m.Valid() && m.Remaining() == old(m.Remaining()) && m.book.free != []
    ensures m.book.out == old(m.book.out) && Keeps(old(m.frames), m.frames, m.book.out)
    ensures old(m.book.free) != [] ==> m.book.free == old(m.book.free)
    ensures m.Filled() == if old(m.book.free) == [] then Min(old(m.Filled()) + 512, |AllPages(m.memmap)|) else old(m.Filled())
  {
    hide AllPages; hide Threaded; hide Accounted; hide Consumed; hide CursorOk; hide Addressable; hide Push; hide Disjoint;
    hide Machine.Valid; hide Machine.Remaining;
    HeadMatchesList(m);
    if m.head == 0 {
      ghost var mem0, b0, n0 := m.frames, m.book, m.Filled();
      FpmmFill(m, 512);
      HeadMatchesList(m);
      FillAdds(b0.free, AllPages(m.memmap), n0, 512);
      FillKeepsOut(m, mem0, b0, n0);
    }
  }

  // Nothing below 1 MiB is ever handed out, so the null page is not.
  lemma NeverFrameZero(m: Machine)
    requires m.Valid()
    ensures 0 !in m.book.out && 0 !in m.book.free
  {
    Enumerated(m.memmap, |m.memmap|, 0);
    assert 0 !in AllPages(m.memmap);
    assert forall x :: x in AllPages(m.memmap)[..m.Filled()] ==> x in AllPages(m.memmap);
  }

  // Hands out a frame that nobody holds, cleared; frames held by others keep their contents.
  method FpmmAllocatePage(m: Machine) returns (f: nat)
    requires m.Valid() && m.Remaining() >= 1
    modifies m`frames, m`head, m`book, m`fillEntry, m`fillOffset, m`lazyBytes
    ensures m.Valid() && m.Remaining() == old(m.Remaining()) - 1
    ensures m.book.out == old(m.book.out) + {f} && f !in old(m.book.out)
    ensures f in m.frames.pages && Addressable(f) && f > 0 && m.frames.pages[f] == ZeroPage() && forall i :: 0 <= i < 512 ==> m.frames.pages[f][i] == 0
    ensures Keeps(old(m.frames), m.frames, old(m.book.out))
    ensures old(m.book.free) != [] ==> f == old(m.book.free)[0] && m.book.free == old(m.book.free)[1..]
    ensures m.Filled() == if old(m.book.free) == [] then Min(old(m.Filled()) + 512, |AllPages(m.memmap)|) else old(m.Filled())
  {
    hide AllPages; hide Threaded; hide Accounted; hide Consumed; hide CursorOk; hide Addressable; hide Push; hide Disjoint;
    hide Machine.Valid; hide Machine.Filled; hide Machine.Remaining;
    Refill(m);
    HeadMatchesList(m);
    f := PopFrame(m);
    HeadMatchesList(m);
    NeverFrameZero(m);
  }

  // ----- fpmm_free_page -----

  lemma AccountedPush(all: seq<nat>, book: Book, n: nat, f: nat)
    requires Accounted(all, book, n) && f in book.out
    ensures f !in book.free && f in all[..n]
    ensures Accounted(all, Book([f] + book.free, book.out - {f}), n)
  {
    assert forall x :: x in [f] + book.free <==> x == f || x in book.free;
  }

  // Takes back a frame that was handed out: it becomes the head of the list, and only its first
  // word is overwritten.
  method FpmmFreePage(m: Machine, f: nat)
    requires m.Valid() && f in m.book.out
    modifies m`frames, m`head, m`book
    ensures m.Valid() && m.Remaining() == old(m.Remaining()) + 1 && m.Filled() == old(m.Filled())
    ensures m.book == Book([f] + old(m.book.free), old(m.book.out) - {f})
    ensures f in old(m.frames).pages && m.frames.pages == old(m.frames).pages[f := old(m.frames).pages[f][0 := old(m.head)]]
    ensures Keeps(old(m.frames), m.frames, m.book.out)
  {
    hide AllPages; hide Threaded; hide Accounted; hide Consumed; hide CursorOk; hide Addressable; hide Push; hide Disjoint;
    OutIsMemory(m, f);
    AccountedPush(AllPages(m.memmap), m.book, m.Filled(), f);
    PushFrame(m, f);
    m.book := m.book.(out := m.book.out - {f});
  }

  // ----- getmemused -----

  // Walks the list; what is in use is exactly what was handed out and not returned, as far as an
  // `int` holds it.
  method GetMemUsed(m: Machine) returns (bytes: int)
    requires m.Valid()
    ensures bytes == CInt(PAGE_SIZE * |m.book.out|)
  {
    hide AllPages; hide CInt;
    var count, current: nat := 0, m.head;
    while current != 0
      invariant 0 <= count <= |m.book.free| && current == Pointer(m.book.free, count)
      decreases |m.book.free| - count
    {
      NextNode(m, count);
      count := count + 1;
      current := m.frames.pages[FrameAt(current)][0];
    }
    ListEnd(m, count);
    var free := count * PAGE_SIZE;
    if m.lazyBytes < free {
      return 0;
    }
    return CInt(m.lazyBytes - free);
  }

  lemma NextNode(m: Machine, count: nat)
    requires m.Valid() && count <= |m.book.free| && Pointer(m.book.free, count) != 0
    ensures count < |m.book.free| && m.book.free[count] in m.frames.pages && Pointer(m.book.free, count) >= HHDM
    ensures FrameAt(Pointer(m.book.free, count)) == m.book.free[count]
    ensures m.frames.pages[m.book.free[count]][0] == Pointer(m.book.free, count + 1)
  {
    assert m.book.free[count] in m.book.free;
  }

  // The walk has counted all free frames; the rest of the filled ones are handed out.
  lemma ListEnd(m: Machine, count: nat)
    requires m.Valid() && count <= |m.book.free| && Pointer(m.book.free, count) == 0
    ensures m.lazyBytes - count * PAGE_SIZE == PAGE_SIZE * |m.book.out|
  {
  }
}
