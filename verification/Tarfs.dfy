/** Reading the boot archive into the tree. */
module Tarfs {
  import opened Strings
  import opened Paths
  import opened Ustar
  import opened TarTree

  function Segs(e: Entry): seq<string> { Segments(StoredPath(e.name)) }

  // An entry for the root folder, or one with a path of good names.
  ghost predicate EntryOk(e: Entry) {
    (StoredPath(e.name) == "" && e.isDir) || (0 < |Segs(e)| <= 32 && GoodNames(Segs(e)))
  }

  // A file has no entries below it, and no folder has its path.
  ghost predicate WellFormed(es: seq<Entry>) {
    && (forall k :: 0 <= k < |es| ==> EntryOk(es[k]))
    && (forall j, k :: 0 <= j < |es| && 0 <= k < |es| && !es[j].isDir && Segs(es[j]) <= Segs(es[k]) ==>
          Segs(es[j]) == Segs(es[k]) && !es[k].isDir)
  }

  // No file has this path.
  ghost predicate FileFree(es: seq<Entry>, p: seq<string>) {
    forall k :: 0 <= k < |es| && Segs(es[k]) == p ==> es[k].isDir
  }

  ghost predicate LastFor(es: seq<Entry>, k: nat, n: nat)
    requires k < |es| && n <= |es|
  {
    forall j :: k < j < n ==> Segs(es[j]) != Segs(es[k])
  }

  // The node of entry `k` holds its content, unless a later entry has replaced it.
  ghost predicate Stored(t: Tree, es: seq<Entry>, k: nat, n: nat, x: nat)
    requires ParentsOk(t) && k < |es| && n <= |es|
  {
    && x < |t.nodes| && PathOf(t, x) == Segs(es[k])
    && (!es[k].isDir && LastFor(es, k, n) ==> t.nodes[x].size == |es[k].content| && t.nodes[x].offset == HeaderOf(0, es, k) + BLOCK)
  }

  ghost predicate IsStored(t: Tree, es: seq<Entry>, k: nat, n: nat)
    requires ParentsOk(t) && k < |es| && n <= |es|
  {
    exists x :: Stored(t, es, k, n, x)
  }

  // The tree after `n` of the entries.
  ghost predicate Loaded(t: Tree, es: seq<Entry>, n: nat)
    requires n <= |es|
  {
    && TreeOk(t)
    && (forall y :: 0 <= y < |t.nodes| ==> TypeOk(t, es, y))
    && (forall k :: 0 <= k < n ==> IsStored(t, es, k, n))
  }

  // A node is a folder exactly if no file has its path, and its path leads to some entry.
  ghost predicate TypeOk(t: Tree, es: seq<Entry>, y: nat)
    requires ParentsOk(t) && y < |t.nodes|
  {
    && (t.nodes[y].isDir <==> FileFree(es, PathOf(t, y)))
    && (y > 0 ==> exists k :: 0 <= k < |es| && PathOf(t, y) <= Segs(es[k]))
  }

  // Entry with path `segs` has been added; its node is `x`.
  ghost predicate Added(t: Tree, t': Tree, segs: seq<string>, isDir: bool, offset: nat, size: nat, x: nat) {
    && ParentsOk(t) && TreeOk(t') && |t.nodes| <= |t'.nodes| && x < |t'.nodes| && PathOf(t', x) == segs
    && (!isDir ==> t'.nodes[x].size == size && t'.nodes[x].offset == offset)
    && (forall y :: 0 <= y < |t.nodes| ==> SameNode(t.nodes[y], t'.nodes[y]) && (y != x || isDir ==> SameContent(t.nodes[y], t'.nodes[y])))
    && (forall y :: |t.nodes| <= y < |t'.nodes| ==> OnPath(t', y, segs, isDir))
  }

  predicate SameNode(a: Node, b: Node) { a.name == b.name && a.isDir == b.isDir && a.parent == b.parent }

  predicate SameContent(a: Node, b: Node) { a.size == b.size && a.offset == b.offset }

  ghost predicate OnPath(t: Tree, y: nat, segs: seq<string>, isDir: bool)
    requires ParentsOk(t) && y < |t.nodes|
  {
    PathOf(t, y) <= segs && t.nodes[y].isDir == (|PathOf(t, y)| < |segs| || isDir)
  }

  lemma {:induction false} TypeAt(t: Tree, es: seq<Entry>, n: nat, y: nat)
    requires n <= |es| && Loaded(t, es, n) && y < |t.nodes|
    ensures ParentsOk(t) && TypeOk(t, es, y)
  {
  }

  lemma {:induction false} StoredAt(t: Tree, es: seq<Entry>, n: nat, k: nat) returns (x: nat)
    requires n <= |es| && Loaded(t, es, n) && k < n
    ensures ParentsOk(t) && Stored(t, es, k, n, x)
  {
    assert IsStored(t, es, k, n);
    x :| Stored(t, es, k, n, x);
  }

  lemma {:induction false} TypeKept(t: Tree, t': Tree, es: seq<Entry>, y: nat)
    requires ParentsOk(t) && ParentsOk(t') && y < |t.nodes| <= |t'.nodes| && TypeOk(t, es, y)
    requires forall z :: 0 <= z < |t.nodes| ==> SameNode(t.nodes[z], t'.nodes[z])
    ensures TypeOk(t', es, y)
  {
    PathKept(t, t', y);
    assert SameNode(t.nodes[y], t'.nodes[y]);
  }

  lemma {:induction false} TypeNew(t: Tree, es: seq<Entry>, n: nat, y: nat)
    requires WellFormed(es) && n < |es| && ParentsOk(t) && y < |t.nodes| && OnPath(t, y, Segs(es[n]), es[n].isDir)
    ensures TypeOk(t, es, y)
  {
    hide Segs;
    var p := PathOf(t, y);
    assert |p| == |Segs(es[n])| ==> p == Segs(es[n]);
  }

  lemma {:induction false} StepTypes(t: Tree, t': Tree, es: seq<Entry>, n: nat, offset: nat, size: nat, x: nat)
    requires WellFormed(es) && n < |es| && Loaded(t, es, n) && Added(t, t', Segs(es[n]), es[n].isDir, offset, size, x)
    ensures forall y :: 0 <= y < |t'.nodes| ==> TypeOk(t', es, y)
  {
    hide Segs; hide TreeOk; hide HeaderOf; hide TypeOk; hide WellFormed; hide Loaded; hide OnPath; hide SameNode; hide SameContent;
    LoadedTree(t, es, n);
    TreesParents(t); TreesParents(t');
    forall y | 0 <= y < |t'.nodes| ensures TypeOk(t', es, y) {
      if y < |t.nodes| {
        TypeAt(t, es, n, y);
        TypeKept(t, t', es, y);
      } else {
        TypeNew(t', es, n, y);
      }
    }
  }

  lemma {:induction false} LoadedTree(t: Tree, es: seq<Entry>, n: nat)
    requires n <= |es| && Loaded(t, es, n)
    ensures TreeOk(t)
  {
  }

  lemma {:induction false} TreesParents(t: Tree)
    requires TreeOk(t)
    ensures ParentsOk(t)
  {
  }

  lemma {:induction false} StepStored(t: Tree, t': Tree, es: seq<Entry>, n: nat, size: nat, x: nat, k: nat)
    requires WellFormed(es) && n < |es| && Loaded(t, es, n) && k <= n
    requires Added(t, t', Segs(es[n]), es[n].isDir, HeaderOf(0, es, n) + BLOCK, |es[n].content|, x)
    ensures IsStored(t', es, k, n + 1)
  {
    hide Segs; hide TreeOk; hide HeaderOf; hide TypeOk; hide Loaded; hide WellFormed; hide OnPath;
    TreesParents(t'); LoadedTree(t, es, n); TreesParents(t);
    if k == n {
      assert Stored(t', es, k, n + 1, x);
    } else {
      var z := StoredAt(t, es, n, k);
      assert SameNode(t.nodes[z], t'.nodes[z]);
      PathKept(t, t', z);
      LastBefore(es, k, n);
      assert Stored(t', es, k, n + 1, z);
    }
  }

  lemma {:induction false} LastBefore(es: seq<Entry>, k: nat, n: nat)
    requires k < n < |es|
    ensures LastFor(es, k, n + 1) ==> LastFor(es, k, n) && Segs(es[n]) != Segs(es[k])
  {
  }

  lemma {:induction false} LoadStep(t: Tree, t': Tree, es: seq<Entry>, n: nat, x: nat)
    requires WellFormed(es) && n < |es| && Loaded(t, es, n)
    requires Added(t, t', Segs(es[n]), es[n].isDir, HeaderOf(0, es, n) + BLOCK, |es[n].content|, x)
    ensures Loaded(t', es, n + 1)
  {
    hide Segs; hide TypeOk; hide HeaderOf; hide IsStored; hide TreeOk; hide WellFormed; hide Loaded; hide Added;
    AddedTree(t, t', Segs(es[n]), es[n].isDir, HeaderOf(0, es, n) + BLOCK, |es[n].content|, x);
    StepTypes(t, t', es, n, HeaderOf(0, es, n) + BLOCK, |es[n].content|, x);
    TreesParents(t');
    var m := n + 1;
    forall k | 0 <= k < m ensures IsStored(t', es, k, m) {
      StepStored(t, t', es, n, |es[n].content|, x, k);
    }
    LoadedNext(t', es, m);
  }

  lemma {:induction false} AddedTree(t: Tree, t': Tree, segs: seq<string>, isDir: bool, offset: nat, size: nat, x: nat)
    requires Added(t, t', segs, isDir, offset, size, x)
    ensures TreeOk(t')
  {
  }

  lemma {:induction false} LoadedNext(t: Tree, es: seq<Entry>, n: nat)
    requires n <= |es| && TreeOk(t) && (forall y :: 0 <= y < |t.nodes| ==> TypeOk(t, es, y))
    requires forall k :: 0 <= k < n ==> IsStored(t, es, k, n)
    ensures Loaded(t, es, n)
  {
  }

  // The entry for the root folder changes nothing.
  lemma {:induction false} RootStep(t: Tree, es: seq<Entry>, n: nat)
    requires n < |es| && Loaded(t, es, n) && Segs(es[n]) == [] && es[n].isDir
    ensures Loaded(t, es, n + 1)
  {
    hide TypeOk; hide HeaderOf; hide TreeOk;
    TreesParents(t);
    var m := n + 1;
    forall k | 0 <= k < m ensures IsStored(t, es, k, m) {
      if k == n {
        assert Stored(t, es, k, n + 1, 0);
      } else {
        var z := StoredAt(t, es, n, k);
        LastBefore(es, k, n);
        assert Stored(t, es, k, n + 1, z);
      }
    }
  }

  // ----- the reader -----

  const WORD: nat := 0x1_0000_0000_0000_0000
  const UINT: nat := 0x1_0000_0000

  // The size field as a `size_t`.
  function SizeOf(b: string, off: nat): nat { Number(b, off + SIZE_AT, 8) % WORD }

  // Where the reader looks for the next header. It counts with 32 bits.
  function NextHeader(off: nat, size: nat): (r: nat)
    ensures r < UINT
    ensures off + BLOCK + Aligned(size) < UINT ==> r == off + BLOCK + Aligned(size)
  {
    NoWrap(off, size);
    (off + BLOCK + (size + 511) % WORD / 512 * 512 % UINT) % UINT
  }

  lemma NoWrap(off: nat, size: nat)
    ensures off + BLOCK + Aligned(size) < UINT ==>
      && (size + 511) % WORD == size + 511 && Aligned(size) % UINT == Aligned(size)
      && (off + BLOCK + Aligned(size)) % UINT == off + BLOCK + Aligned(size)
  {
    SmallMod(size + 511, WORD);
    SmallMod(Aligned(size), UINT);
    SmallMod(off + BLOCK + Aligned(size), UINT);
  }

  lemma SmallMod(x: nat, m: nat)
    requires m > 0
    ensures x < m ==> x % m == x
  {
  }

  predicate HasMagic(b: string, off: nat) {
    CharAt(b, off + MAGIC_AT) == 'u' && CharAt(b, off + MAGIC_AT + 1) == 's' && CharAt(b, off + MAGIC_AT + 2) == 't' &&
    CharAt(b, off + MAGIC_AT + 3) == 'a' && CharAt(b, off + MAGIC_AT + 4) == 'r'
  }

  lemma MagicIs(b: string, off: nat)
    ensures HasMagic(b, off) <==> off + 262 <= |b| && b[off + 257..off + 262] == "ustar"
  {
    if off + 262 <= |b| {
      var m := b[off + 257..off + 262];
      assert m == [b[off + 257], b[off + 258], b[off + 259], b[off + 260], b[off + 261]];
      assert "ustar" == ['u', 's', 't', 'a', 'r'];
      assert m[0] == b[off + 257] && m[1] == b[off + 258] && m[2] == b[off + 259] && m[3] == b[off + 260] && m[4] == b[off + 261];
    }
  }

  lemma {:induction false} MagicRead(b: string, off: nat, e: Entry)
    requires HeaderAt(b, off, e)
    ensures HasMagic(b, off) && (CharAt(b, off + TYPE_AT) == '5' <==> e.isDir) && CharAt(b, off) != '\0' && off < |b|
  {
    var m := b[off + MAGIC_AT..off + MAGIC_AT + 5];
    assert m[0] == 'u' && m[1] == 's' && m[2] == 't' && m[3] == 'a' && m[4] == 'r';
    assert b[off..off + |e.name|][0] == e.name[0];
  }

  // The entry whose header is at `off` is in the tree.
  ghost predicate EntryDone(t: Tree, t': Tree, e: Entry, off: nat, x: nat) {
    if Segs(e) == [] then t' == t else Added(t, t', Segs(e), e.isDir, off + BLOCK, |e.content|, x)
  }

  // A header that the reader accepts.
  predicate Readable(b: string, off: nat) {
    var path := StoredPath(CString(b, off));
    HasMagic(b, off) && (path == "" || Segments(path) != [])
  }

  // The chain of headers stops within `n` of them: at the end, at a header without a name, or at one
  // that the reader does not accept.
  predicate Stops(b: string, off: nat, n: nat)
    decreases n
  {
    off >= |b| || b[off] == '\0' || !Readable(b, off) || (n > 0 && Stops(b, NextHeader(off, SizeOf(b, off)), n - 1))
  }

  // The reader accepts all headers up to there.
  predicate Accepted(b: string, off: nat, n: nat)
    decreases n
  {
    off >= |b| || b[off] == '\0' || (Readable(b, off) && n > 0 && Accepted(b, NextHeader(off, SizeOf(b, off)), n - 1))
  }

  // Reads one header. An invalid magic or a path without segments stops the reader.
  method ReadEntry(f: Files, b: string, off: nat) returns (ok: bool, size: nat, x: nat)
    requires TreeOk(f.tree)
    modifies f
    ensures TreeOk(f.tree) && (ok ==> size == SizeOf(b, off)) && (ok <==> Readable(b, off))
    ensures forall e :: HeaderAt(b, off, e) && EntryOk(e) ==> ok && size == |e.content|
    ensures !ok || StoredPath(CString(b, off)) == "" ==> f.tree == old(f.tree)
    ensures ok && StoredPath(CString(b, off)) != "" ==>
      Added(old(f.tree), f.tree, Front(Segments(StoredPath(CString(b, off))), 32), CharAt(b, off + 156) == '5', off + 512, size, x)
    ensures forall e :: HeaderAt(b, off, e) && EntryOk(e) ==> EntryDone(old(f.tree), f.tree, e, off, x)
  {
    hide TreeOk; hide HeaderAt; hide Number; hide CString; hide Segments; hide GoodNames;
    x := 0;
    forall e | HeaderAt(b, off, e)
      ensures HasMagic(b, off) && CString(b, off) == e.name && SizeOf(b, off) == |e.content| && (CharAt(b, off + TYPE_AT) == '5' <==> e.isDir)
    {
      HeaderRead(b, off, e);
      ContentSize(b, off, e);
      MagicRead(b, off, e);
    }
    if !HasMagic(b, off) {
      return false, 0, x;
    }
    var number, _ := Strtol(b, off + SIZE_AT, 8);
    size := number % WORD;
    var path := StoredPath(CString(b, off));
    assert Segments("") == [] by { EmptyPath(); }
    if path == "" {
      return true, size, x;
    }
    var segments := SplitPath(path, 32);
    if segments == [] {
      return false, 0, x;
    }
    var isDir := CharAt(b, off + TYPE_AT) == '5';
    x := Place(f, segments, isDir, off + BLOCK, size);
    return true, size, x;
  }

  // Adds a path; a file gets its content.
  method Place(f: Files, segments: seq<string>, isDir: bool, offset: nat, size: nat) returns (x: nat)
    requires TreeOk(f.tree) && segments != []
    modifies f
    ensures TreeOk(f.tree) && Added(old(f.tree), f.tree, segments, isDir, offset, size, x)
  {
    hide TreeOk;
    ghost var was := f.tree;
    TreesParents(was);
    x := f.AddPath(segments, isDir);
    ghost var along := f.tree;
    TreesParents(along);
    if !isDir {
      Refilled(f.tree, x, size, offset);
      f.tree := Tree(f.tree.nodes[x := f.tree.nodes[x].(size := size, offset := offset)]);
      TreesParents(f.tree);
    }
    forall y | |was.nodes| <= y < |f.tree.nodes| ensures OnPath(f.tree, y, segments, isDir) {
      assert AlongAt(along, y, segments, isDir);
      PathKept(along, f.tree, y);
    }
    PathKept(along, f.tree, x);
  }

  lemma {:induction false} EmptyPath()
    ensures Segments("") == []
  {
  }

  lemma {:induction false} Refilled(t: Tree, x: nat, size: nat, offset: nat)
    requires TreeOk(t) && x < |t.nodes|
    ensures TreeOk(Tree(t.nodes[x := t.nodes[x].(size := size, offset := offset)]))
  {
    var t' := Tree(t.nodes[x := t.nodes[x].(size := size, offset := offset)]);
    forall d, n, c ensures IsChild(t', d, n, c) <==> IsChild(t, d, n, c) {}
    forall d, c ensures Below(t', d, c) <==> Below(t, d, c) {}
  }

  // A well-formed archive that ends below 4 GiB.
  ghost predicate GoodArchive(b: string, es: seq<Entry>) {
    Archive(b, 0, es) && WellFormed(es) && HeaderOf(0, es, |es|) < UINT
  }

  // `n` of its entries are read and the next header is at `off`.
  ghost predicate Reading(b: string, es: seq<Entry>, t: Tree, n: nat, off: nat) {
    GoodArchive(b, es) && n <= |es| && off == HeaderOf(0, es, n) && Loaded(t, es, n)
  }

  lemma {:induction false} ReadingStep(b: string, es: seq<Entry>, t: Tree, t': Tree, n: nat, off: nat, ok: bool, size: nat, x: nat)
    requires Reading(b, es, t, n, off) && off < |b| && b[off] != '\0'
    requires forall e :: HeaderAt(b, off, e) && EntryOk(e) ==> ok && size == |e.content|
    requires forall e :: HeaderAt(b, off, e) && EntryOk(e) ==> EntryDone(t, t', e, off, x)
    ensures ok && Reading(b, es, t', n + 1, NextHeader(off, size))
  {
    hide TreeOk; hide HeaderAt; hide Added; hide WellFormed; hide Loaded; hide EntryOk; hide HeaderOf; hide Archive; hide Segs; hide NextHeader;
    NextEntry(b, off, es, n);
    HeadersGrow(b, 0, es, n + 1);
    if Segs(es[n]) == [] {
      RootEntry(es, n);
      RootStep(t, es, n);
    } else {
      LoadStep(t, t', es, n, x);
    }
  }

  lemma {:induction false} HeadersGrow(b: string, off: nat, es: seq<Entry>, k: nat)
    requires Archive(b, off, es) && k <= |es|
    ensures HeaderOf(off, es, k) <= HeaderOf(off, es, |es|)
    decreases |es| - k
  {
    hide HeaderOf; hide HeaderAt; hide Archive;
    if k < |es| {
      EntryAt(b, off, es, k);
      HeadersGrow(b, off, es, k + 1);
    }
  }

  // The reader stops behind the last entry.
  lemma {:induction false} ArchiveStops(b: string, es: seq<Entry>, k: nat)
    requires GoodArchive(b, es) && k <= |es|
    ensures Stops(b, HeaderOf(0, es, k), |es| - k)
    decreases |es| - k
  {
    hide HeaderAt; hide Number; hide Readable; hide WellFormed; hide HeaderOf; hide Stops;
    EntryAt(b, 0, es, k);
    var off := HeaderOf(0, es, k);
    if k < |es| {
      assert es[k..][0] == es[k];
      ContentSize(b, off, es[k]);
      HeadersGrow(b, 0, es, k + 1);
      hide Archive;
      assert NextHeader(off, SizeOf(b, off)) == HeaderOf(0, es, k + 1);
      ArchiveStops(b, es, k + 1);
      StopsNext(b, off, |es| - k);
    } else {
      StopsHere(b, off);
    }
  }

  lemma {:induction false} StopsNext(b: string, off: nat, n: nat)
    requires n > 0 && Stops(b, NextHeader(off, SizeOf(b, off)), n - 1)
    ensures Stops(b, off, n)
  {
    hide Readable; hide NextHeader; hide SizeOf;
  }

  lemma {:induction false} StopsHere(b: string, off: nat)
    requires off >= |b| || b[off] == '\0'
    ensures Stops(b, off, 0)
  {
  }

  lemma {:induction false} ContentSize(b: string, off: nat, e: Entry)
    requires HeaderAt(b, off, e)
    ensures SizeOf(b, off) == |e.content|
  {
    hide Number;
    HeaderRead(b, off, e);
  }

  // Reads the whole archive `b`; `steps` bounds the number of headers. If the archive is well-formed,
  // with the entries `es`, the tree holds them all.
  method TarfsInit(b: string, ghost es: seq<Entry>, ghost steps: nat) returns (f: Files?)
    requires Stops(b, 0, steps)
    ensures f != null ==> fresh(f) && TreeOk(f.tree)
    ensures f != null <==> Accepted(b, 0, steps)
    ensures GoodArchive(b, es) ==> f != null && Loaded(f.tree, es, |es|)
  {
    hide TreeOk; hide HeaderAt; hide Number; hide EntryDone; hide EntryOk; hide Reading; hide GoodArchive; hide Loaded; hide Readable;
    var files := new Files();
    var offset: nat := 0;
    ghost var n: nat := 0;
    ghost var left := steps;
    ghost var good := GoodArchive(b, es);
    if good { StartLoaded(b, files.tree, es); }
    while offset < |b|
      invariant Stops(b, offset, left) && TreeOk(files.tree) && fresh(files)
      invariant Accepted(b, offset, left) <==> Accepted(b, 0, steps)
      invariant good ==> Reading(b, es, files.tree, n, offset)
      decreases left
    {
      if b[offset] == '\0' {
        break;
      }
      ghost var was := files.tree;
      var ok, size, x := ReadEntry(files, b, offset);
      if good { ReadingStep(b, es, was, files.tree, n, offset, ok, size, x); }
      if !ok {
        return null;
      }
      var aligned := (size + 511) % WORD / 512 * 512 % UINT;
      offset := (offset + BLOCK + aligned) % UINT;
      n, left := n + 1, left - 1;
    }
    if good { AllRead(b, es, files.tree, n, offset); }
    return files;
  }

  lemma {:induction false} StartLoaded(b: string, t: Tree, es: seq<Entry>)
    requires TreeOk(t) && |t.nodes| == 1 && t.nodes[0].isDir && GoodArchive(b, es)
    ensures Reading(b, es, t, 0, 0)
  {
    forall k | 0 <= k < |es| && Segs(es[k]) == [] ensures es[k].isDir {
      assert EntryOk(es[k]);
    }
  }

  lemma {:induction false} RootEntry(es: seq<Entry>, n: nat)
    requires WellFormed(es) && n < |es| && Segs(es[n]) == []
    ensures es[n].isDir
  {
    assert EntryOk(es[n]);
  }

  // At a header with a name there is an entry left to read.
  lemma {:induction false} NextEntry(b: string, off: nat, es: seq<Entry>, n: nat)
    requires Archive(b, 0, es) && WellFormed(es) && n <= |es| && off == HeaderOf(0, es, n) && off < |b| && b[off] != '\0'
    ensures n < |es| && HeaderAt(b, off, es[n]) && EntryOk(es[n])
    ensures HeaderOf(0, es, n + 1) == off + BLOCK + Aligned(|es[n].content|)
  {
    EntryAt(b, 0, es, n);
    assert n < |es| ==> es[n..][0] == es[n];
  }

  lemma {:induction false} AllRead(b: string, es: seq<Entry>, t: Tree, n: nat, off: nat)
    requires Reading(b, es, t, n, off) && (off >= |b| || b[off] == '\0')
    ensures Loaded(t, es, |es|)
  {
    hide HeaderAt; hide Loaded;
    EntryAt(b, 0, es, n);
    if n < |es| { MagicRead(b, off, es[n..][0]); }
  }
}
