/** Path lookup through the boot archive and the device tree, reading through descriptors, and the
    working directory. */
module Vfs {
  import opened Prelude
  import opened Paths
  import opened Ustar
  import opened TarTree
  import opened Tarfs

  const MAX_SEGMENTS: nat := 32
  const MAX_TEXT: nat := 511

  // ----- lookup -----

  // The archive, the device tree, and the archive's folder that the device tree covers.
  datatype View = View(files: Tree, devices: Tree, mount: Option<nat>)

  datatype Loc = Archived(node: nat) | Device(node: nat)

  function TreeOf(v: View, at: Loc): Tree { if at.Archived? then v.files else v.devices }

  ghost predicate At(v: View, at: Loc) {
    ParentsOk(v.files) && ParentsOk(v.devices) && at.node < |TreeOf(v, at).nodes|
  }

  predicate IsFolder(v: View, at: Loc)
    requires at.node < |TreeOf(v, at).nodes|
  {
    TreeOf(v, at).nodes[at.node].isDir
  }

  ghost function LocPath(v: View, at: Loc): seq<string>
    requires At(v, at)
  {
    PathOf(TreeOf(v, at), at.node)
  }

  ghost predicate ViewOk(v: View) {
    && TreeOk(v.files) && TreeOk(v.devices) && v.devices.nodes[0].isDir
    && (v.mount.Some? ==> 0 < v.mount.value < |v.files.nodes|)
  }

  // Location `at` is not covered by the device tree.
  ghost predicate Visible(v: View, at: Loc)
    requires ViewOk(v)
  {
    && At(v, at)
    && (at.Archived? && v.mount.Some? ==> !(PathOf(v.files, v.mount.value) <= PathOf(v.files, at.node)))
  }

  // One segment: the folder itself, its parent (the root is its own), or the child of that name.
  ghost function Enter(t: Tree, dir: nat, name: string): (r: Option<nat>)
    requires ParentsOk(t) && dir < |t.nodes|
    ensures r.Some? ==> r.value < |t.nodes|
  {
    if name == "." then Some(dir)
    else if name == ".." then Some(t.nodes[dir].parent)
    else if c :| IsChild(t, dir, name, c) then Some(c) else None
  }

  // The covered folder stands for the root of the device tree.
  function Crossed(v: View, at: Loc): Loc {
    if at.Archived? && v.mount == Some(at.node) then Device(0) else at
  }

  ghost function EnterAt(v: View, at: Loc, name: string): (r: Option<Loc>)
    requires At(v, at)
    ensures r.Some? ==> At(v, r.value)
  {
    var n := Enter(TreeOf(v, at), at.node, name);
    if n.None? then None else Some(Crossed(v, at.(node := n.value)))
  }

  // All segments; only folders are walked through.
  ghost function Resolve(v: View, cur: Loc, segs: seq<string>): (r: Option<Loc>)
    requires At(v, cur)
    ensures r.Some? ==> At(v, r.value)
    decreases |segs|
  {
    if segs == [] then Some(cur) else
    var n := EnterAt(v, cur, segs[0]);
    if n.None? || (!IsFolder(v, n.value) && |segs| > 1) then None else Resolve(v, n.value, segs[1..])
  }

  ghost function Lookup(v: View, cwd: Loc, path: string): (r: Option<Loc>)
    requires At(v, cwd)
    ensures r.Some? ==> At(v, r.value)
  {
    Resolve(v, if path != "" && IsDelim(path[0]) then Archived(0) else cwd, Front(Segments(path), MAX_SEGMENTS))
  }

  // `tarfs_lookup` and `devfs_lookup`.
  method TreeLookup(t: Tree, dir: nat, name: string) returns (r: Option<nat>)
    requires TreeOk(t) && dir < |t.nodes|
    ensures r == Enter(t, dir, name)
    ensures name == "." ==> r == Some(dir)
    ensures name == ".." ==> r == Some(t.nodes[dir].parent)
    ensures name != "." && name != ".." ==> (r.Some? <==> HasChild(t, dir, name)) && (r.Some? ==> IsChild(t, dir, name, r.value))
  {
    if name == "." {
      return Some(dir);
    }
    if name == ".." {
      return Some(t.nodes[dir].parent);
    }
    var cs := t.nodes[dir].children;
    for i := 0 to |cs|
      invariant forall j :: 0 <= j < i ==> 0 < cs[j] < |t.nodes| && t.nodes[cs[j]].name != name
    {
      assert cs[i] in cs;
      assert Below(t, dir, cs[i]);
      if t.nodes[cs[i]].name == name {
        assert IsChild(t, dir, name, cs[i]);
        return Some(cs[i]);
      }
    }
    forall c ensures !IsChild(t, dir, name, c) {
      assert Below(t, dir, c) ==> c in cs;
    }
    return None;
  }

  method VfsLookup(v: View, cwd: Loc, path: string) returns (r: Option<Loc>)
    requires ViewOk(v) && At(v, cwd)
    ensures r == Lookup(v, cwd, path)
  {
    hide TreeOk; hide Enter; hide Segments; hide HasChild; hide IsChild; hide EnterAt; hide Resolve; hide Crossed;
    var current := cwd;
    if path != "" && IsDelim(path[0]) {
      current := Archived(0);
      if |path| == 1 {
        OneDelim(path);
        ResolveEnd(v, current, []);
        return Some(current);
      }
    }
    var segments := SplitPath(path, MAX_SEGMENTS);
    ghost var start := current;
    ResolveEnd(v, start, segments);
    for i := 0 to |segments|
      invariant At(v, current) && Resolve(v, start, segments) == Resolve(v, current, segments[i..])
    {
      ResolveStep(v, current, segments, i);
      EnterAtIs(v, current, segments[i]);
      var next := TreeLookup(TreeOf(v, current), current.node, segments[i]);
      if next.None? {
        return None;
      }
      current := current.(node := next.value);
      if current.Archived? && v.mount == Some(current.node) {
        current := Device(0);
      }
      if !IsFolder(v, current) && i < |segments| - 1 {
        return None;
      }
    }
    ResolveEnd(v, current, segments);
    return Some(current);
  }

  lemma {:induction false} ResolveStep(v: View, cur: Loc, segs: seq<string>, i: nat)
    requires At(v, cur) && i < |segs|
    ensures Resolve(v, cur, segs[i..]) ==
      var n := EnterAt(v, cur, segs[i]); if n.None? || (!IsFolder(v, n.value) && i < |segs| - 1) then None else Resolve(v, n.value, segs[i + 1..])
  {
    hide EnterAt; hide IsFolder; hide At;
    assert segs[i..][0] == segs[i] && segs[i..][1..] == segs[i + 1..];
  }

  lemma {:induction false} EnterAtIs(v: View, at: Loc, name: string)
    requires At(v, at)
    ensures var n := Enter(TreeOf(v, at), at.node, name);
      if n.None? then EnterAt(v, at, name).None?
      else EnterAt(v, at, name) == Some(if at.Archived? && v.mount == Some(n.value) then Device(0) else at.(node := n.value))
  {
    hide Enter;
  }

  lemma {:induction false} ResolveEnd(v: View, cur: Loc, segs: seq<string>)
    requires At(v, cur)
    ensures Resolve(v, cur, segs[|segs|..]) == Some(cur) && segs[0..] == segs
  {
  }

  lemma OneDelim(path: string)
    requires |path| == 1 && IsDelim(path[0])
    ensures Segments(path) == []
  {
    assert path[1..] == "";
  }

  // ----- the folder itself -----

  // "." is where one is. Only the covered folder gives way to the root of the device tree.
  lemma {:induction false} Dot(v: View, at: Loc)
    requires At(v, at)
    ensures Lookup(v, at, ".") == Some(if at.Archived? && v.mount == Some(at.node) then Device(0) else at)
  {
    SplitPiece(".", "");
    assert "." + "" == "." && Segments(".") == ["."];
    assert ["."][1..] == [] && Front(["."], MAX_SEGMENTS) == ["."];
    hide Segments;
  }

  // Taking a "." out of a walk that starts in a folder changes nothing, unless it asks whether what the
  // walk ends at is a folder.
  lemma {:induction false} DotVanishes(v: View, cur: Loc, a: seq<string>, b: seq<string>)
    requires ViewOk(v) && Visible(v, cur) && IsFolder(v, cur)
    ensures Resolve(v, cur, a + ["."] + b) == UnlessFile(v, b, Resolve(v, cur, a + b))
    decreases |a|
  {
    hide ViewOk; hide Visible; hide EnterAt; hide IsFolder; hide At;
    VisibleAt(v, cur);
    var segs := a + ["."] + b;
    if a == [] {
      assert segs == ["."] + b && segs[0] == "." && segs[1..] == b && a + b == b;
      DotStays(v, cur);
    } else {
      assert segs[0] == a[0] && segs[1..] == a[1..] + ["."] + b && (a + b)[1..] == a[1..] + b;
      var n := EnterAt(v, cur, a[0]);
      if n.Some? {
        EnterVisible(v, cur, a[0]);
        VisibleAt(v, n.value);
        if IsFolder(v, n.value) {
          DotVanishes(v, n.value, a[1..], b);
        } else if |a| == 1 && b == [] {
          assert a + b == a && a[1..] == [];
        }
      }
    }
  }

  // What the path ends at without the "."; with it at the end, a file is refused.
  ghost function UnlessFile(v: View, b: seq<string>, r: Option<Loc>): Option<Loc>
    requires r.Some? ==> At(v, r.value)
  {
    if b == [] && r.Some? && !IsFolder(v, r.value) then None else r
  }

  lemma {:induction false} DotStays(v: View, at: Loc)
    requires ViewOk(v) && Visible(v, at)
    ensures At(v, at) && EnterAt(v, at, ".") == Some(at)
  {
    NotCovered(v, at);
  }

  // The same for the text of a path.
  lemma {:induction false} DotSkipped(v: View, cwd: Loc, front: string, back: string)
    requires ViewOk(v) && Visible(v, cwd) && At(v, cwd) && IsFolder(v, cwd) && v.files.nodes[0].isDir
    requires front != "" && IsDelim(front[|front| - 1]) && (back == "" || IsDelim(back[0]))
    requires |Segments(front)| + |Segments(back)| < MAX_SEGMENTS
    ensures Lookup(v, cwd, front + "." + back) == UnlessFile(v, Segments(back), Lookup(v, cwd, front + back))
  {
    hide Segments; hide Resolve; hide TreeOk;
    var k := |front| - 1;
    var p, d := front[..k], front[k];
    SplitPiece(".", back);
    SplitJoin(p, d, "." + back);
    SplitJoin(p, d, back);
    SplitJoin(p, d, "");
    assert front + "." + back == p + [d] + ("." + back) && front + back == p + [d] + back && p + [d] + "" == front;
    assert Segments("") == [] by { NoSegments(); }
    assert Segments(front + "." + back) == Segments(front) + ["."] + Segments(back) && (front + "." + back)[0] == front[0];
    assert Segments(front + back) == Segments(front) + Segments(back) && (front + back)[0] == front[0];
    var start := if IsDelim(front[0]) then Archived(0) else cwd;
    assert Visible(v, start) && IsFolder(v, start);
    DotVanishes(v, start, Segments(front), Segments(back));
  }

  lemma NoSegments()
    ensures Segments("") == []
  {
  }

  // All nodes above `x` are folders.
  ghost predicate Reachable(t: Tree, x: nat)
    requires ParentsOk(t) && x < |t.nodes|
  {
    forall a :: 0 <= a < |t.nodes| && PathOf(t, a) < PathOf(t, x) ==> t.nodes[a].isDir
  }

  // Walking down the names of a visible path leads to its node.
  lemma {:induction false} ResolveDown(v: View, x: nat, a: nat, rest: seq<string>)
    requires ViewOk(v) && Visible(v, Archived(x)) && a < |v.files.nodes| && Reachable(v.files, x)
    requires PathOf(v.files, x) == PathOf(v.files, a) + rest && GoodNames(rest)
    ensures Resolve(v, Archived(a), rest) == Some(Archived(x))
    decreases |rest|
  {
    hide NamesApart; hide Downwards; hide Upwards;
    var t := v.files;
    if rest == [] {
      PathUnique(t, x, a);
    } else {
      var p, q := PathOf(t, a), PathOf(t, x);
      var b := Ancestor(t, x, |p| + 1);
      assert q[..|p| + 1] == p + [rest[0]];
      OneDown(t, a, b, rest[0]);
      assert GoodName(rest[0]);
      assert p + [rest[0]] + rest[1..] == q;
      if |rest| > 1 { assert PathOf(t, b) < PathOf(t, x); }
      assert PathOf(t, b) <= PathOf(t, x);
      assert EnterAt(v, Archived(a), rest[0]) == Some(Archived(b));
      ResolveDown(v, x, b, rest[1..]);
    }
  }

  // Walking down the mount's path leads to the root of the device tree.
  lemma {:induction false} CrossDown(v: View, a: nat, names: seq<string>, rest: seq<string>)
    requires ViewOk(v) && v.mount.Some? && a < |v.files.nodes| && Reachable(v.files, v.mount.value)
    requires names != [] && PathOf(v.files, v.mount.value) == PathOf(v.files, a) + names && GoodNames(names)
    ensures Resolve(v, Archived(a), names + rest) == Resolve(v, Device(0), rest)
    decreases |names|
  {
    hide NamesApart; hide Downwards; hide Upwards;
    var t, m := v.files, v.mount.value;
    var p, q := PathOf(t, a), PathOf(t, m);
    var b := Ancestor(t, m, |p| + 1);
    assert q[..|p| + 1] == p + [names[0]];
    OneDown(t, a, b, names[0]);
    assert GoodName(names[0]);
    assert (names + rest)[1..] == names[1..] + rest;
    if |names| == 1 {
      assert PathOf(t, b) == q;
      PathUnique(t, b, m);
      assert names[1..] + rest == rest;
      assert EnterAt(v, Archived(a), names[0]) == Some(Device(0));
    } else {
      assert p + [names[0]] + names[1..] == q;
      assert PathOf(t, b) < PathOf(t, m);
      assert EnterAt(v, Archived(a), names[0]) == Some(Archived(b));
      CrossDown(v, b, names[1..], rest);
    }
  }

  // The node whose path is one name longer is the child of that name.
  lemma {:induction false} OneDown(t: Tree, a: nat, b: nat, name: string)
    requires TreeOk(t) && a < |t.nodes| && b < |t.nodes| && PathOf(t, b) == PathOf(t, a) + [name] && GoodName(name)
    ensures Enter(t, a, name) == Some(b)
  {
    var p := PathOf(t, t.nodes[b].parent);
    assert (p + [t.nodes[b].name])[..|p|] == p && (PathOf(t, a) + [name])[..|p|] == PathOf(t, a);
    assert (p + [t.nodes[b].name])[|p|] == t.nodes[b].name;
    PathUnique(t, t.nodes[b].parent, a);
    assert IsChild(t, a, name, b);
  }

  // A walk through the device tree stays in it.
  lemma {:induction false} DevicesStay(v: View, x: nat, segs: seq<string>)
    requires At(v, Device(x)) && Resolve(v, Device(x), segs).Some?
    ensures Resolve(v, Device(x), segs).value.Device?
    decreases |segs|
  {
    hide Enter; hide IsFolder;
    if segs != [] {
      var n := EnterAt(v, Device(x), segs[0]).value;
      DevicesStay(v, n.node, segs[1..]);
    }
  }

  // Nothing covered is ever reached.
  lemma {:induction false} ResolveVisible(v: View, a: Loc, segs: seq<string>)
    requires ViewOk(v) && Visible(v, a) && Resolve(v, a, segs).Some?
    ensures Visible(v, Resolve(v, a, segs).value)
    decreases |segs|
  {
    hide ViewOk; hide Visible; hide EnterAt; hide IsFolder; hide At;
    VisibleAt(v, a);
    if segs != [] {
      EnterVisible(v, a, segs[0]);
      ResolveVisible(v, EnterAt(v, a, segs[0]).value, segs[1..]);
    }
  }

  lemma {:induction false} EnterVisible(v: View, a: Loc, name: string)
    requires ViewOk(v) && Visible(v, a) && EnterAt(v, a, name).Some?
    ensures Visible(v, EnterAt(v, a, name).value)
  {
    hide NamesApart; hide Downwards; hide Upwards;
    if a.Archived? && v.mount.Some? {
      var t, x, m := v.files, Enter(v.files, a.node, name).value, v.mount.value;
      ParentPath(t, PathOf(t, m), a.node);
      if name != "." && name != ".." && x != m { ChildPath(t, m, a.node, x); }
    }
  }

  lemma {:induction false} ParentPath(t: Tree, p: seq<string>, x: nat)
    requires ParentsOk(t) && x < |t.nodes|
    ensures p <= PathOf(t, t.nodes[x].parent) ==> p <= PathOf(t, x)
  {
  }

  lemma {:induction false} ChildPath(t: Tree, m: nat, x: nat, c: nat)
    requires TreeOk(t) && m < |t.nodes| && x < |t.nodes| && 0 < c < |t.nodes| && t.nodes[c].parent == x && c != m
    ensures PathOf(t, m) <= PathOf(t, c) ==> PathOf(t, m) <= PathOf(t, x)
  {
    var p, q := PathOf(t, m), PathOf(t, x) + [t.nodes[c].name];
    if p <= q {
      if p == q { PathUnique(t, m, c); }
      assert q[..|q| - 1] == PathOf(t, x);
    }
  }

  // A lookup never gets deeper, in names or in characters, than what it was given; one that crosses into
  // the device tree stays strictly less deep.
  lemma {:induction false} ResolveBounds(v: View, a: Loc, segs: seq<string>)
    requires At(v, a) && Resolve(v, a, segs).Some?
    ensures var x := Resolve(v, a, segs).value;
      && |LocPath(v, x)| <= |LocPath(v, a)| + |segs| && |Text(LocPath(v, x))| <= |Text(LocPath(v, a))| + |Text(segs)|
      && (a.Archived? && x.Device? ==> |LocPath(v, x)| < |LocPath(v, a)| + |segs| && |Text(LocPath(v, x))| < |Text(LocPath(v, a))| + |Text(segs)|)
    decreases |segs|
  {
    hide EnterAt; hide LocPath; hide At; hide IsFolder;
    if segs != [] {
      var n := EnterAt(v, a, segs[0]).value;
      EnterBounds(v, a, segs[0]);
      ResolveBounds(v, n, segs[1..]);
      assert segs == [segs[0]] + segs[1..];
      TextAppend([segs[0]], segs[1..]);
    }
  }

  lemma {:induction false} EnterBounds(v: View, a: Loc, name: string)
    requires At(v, a) && EnterAt(v, a, name).Some?
    ensures var x := EnterAt(v, a, name).value;
      && |LocPath(v, x)| <= |LocPath(v, a)| + 1 && |Text(LocPath(v, x))| <= |Text(LocPath(v, a))| + |Text([name])|
      && (a.Archived? && x.Device? ==> |LocPath(v, x)| < |LocPath(v, a)| + 1 && |Text(LocPath(v, x))| < |Text(LocPath(v, a))| + |Text([name])|)
      && (a.Device? ==> x.Device?)
  {
    var t, n := TreeOf(v, a), Enter(TreeOf(v, a), a.node, name).value;
    if name == ".." && a.node > 0 {
      TextAppend(PathOf(t, t.nodes[a.node].parent), [t.nodes[a.node].name]);
    } else if name != "." && name != ".." {
      TextAppend(PathOf(t, a.node), [name]);
    }
  }

  // ----- start-up -----

  // `devfs_create` and `devfs_create_dir`.
  method DevfsCreate(f: Files, dir: nat, name: string, isDir: bool) returns (x: nat)
    requires TreeOk(f.tree) && dir < |f.tree.nodes| && forall c :: !IsChild(f.tree, dir, name, c)
    modifies f
    ensures TreeOk(f.tree) && f.tree == Linked(old(f.tree), dir, name, isDir) && x == |old(f.tree).nodes|
    ensures forall y, n, c :: IsChild(f.tree, y, n, c) <==> IsChild(old(f.tree), y, n, c) || (c == x && y == dir && n == name)
  {
    LinkedChild(f.tree, dir, name, isDir);
    LinkedOk(f.tree, dir, name, isDir);
    x := |f.tree.nodes|;
    f.tree := Linked(f.tree, dir, name, isDir);
  }

  ghost predicate HasChild(t: Tree, dir: nat, name: string) { exists c :: IsChild(t, dir, name, c) }

  // The devices: three files and a folder for terminals.
  method DevfsInit() returns (f: Files)
    ensures fresh(f) && TreeOk(f.tree) && f.tree.nodes[0].isDir
    ensures forall name :: HasChild(f.tree, 0, name) <==> name in {"about", "console", "ptymx", "pty"}
    ensures forall name, c: nat :: IsChild(f.tree, 0, name, c) ==> (f.tree.nodes[c].isDir <==> name == "pty")
  {
    hide TreeOk;
    f := new Files();
    assert forall y, n, c :: !IsChild(f.tree, y, n, c);
    var about := DevfsCreate(f, 0, "about", false);
    var console := DevfsCreate(f, 0, "console", false);
    var terminals := DevfsCreate(f, 0, "ptymx", false);
    var folder := DevfsCreate(f, 0, "pty", true);
    assert IsChild(f.tree, 0, "about", about) && IsChild(f.tree, 0, "console", console);
    assert IsChild(f.tree, 0, "ptymx", terminals) && IsChild(f.tree, 0, "pty", folder);
  }

  // `vfs_init`: the device tree covers the archive's folder `dev`, if there is one.
  method VfsInit(files: Tree, devices: Tree) returns (v: View)
    requires TreeOk(files) && TreeOk(devices) && devices.nodes[0].isDir
    ensures v == View(files, devices, v.mount) && ViewOk(v)
    ensures forall x: nat :: v.mount == Some(x) <==> x < |files.nodes| && PathOf(files, x) == ["dev"] && files.nodes[x].isDir
  {
    hide TreeOk;
    TreesParents(files);
    TreesParents(devices);
    v := View(files, devices, None);
    var mountpoint := VfsLookup(v, Archived(0), "/dev");
    DevFolder(v);
    if mountpoint.Some? && IsFolder(v, mountpoint.value) {
      v := View(files, devices, Some(mountpoint.value.node));
    }
  }

  lemma {:induction false} DevFolder(v: View)
    requires ViewOk(v) && v.mount.None?
    ensures forall x: nat :: Lookup(v, Archived(0), "/dev") == Some(Archived(x)) <==> x < |v.files.nodes| && PathOf(v.files, x) == ["dev"]
    ensures Lookup(v, Archived(0), "/dev").Some? ==> Lookup(v, Archived(0), "/dev").value.Archived?
  {
    DevSegments();
    hide Segments; hide Downwards; hide Upwards; hide NamesApart;
    var r := Enter(v.files, 0, "dev");
    assert Resolve(v, Archived(0), ["dev"]) == if r.None? then None else Some(Archived(r.value));
    forall x: nat | x < |v.files.nodes| ensures PathOf(v.files, x) == ["dev"] <==> IsChild(v.files, 0, "dev", x) {
      PathOne(v.files, x, "dev");
    }
    forall x: nat | IsChild(v.files, 0, "dev", x) ensures r == Some(x) {
      OneDown(v.files, 0, x, "dev");
    }
  }

  lemma {:induction false} PathOne(t: Tree, x: nat, name: string)
    requires ParentsOk(t) && x < |t.nodes|
    ensures PathOf(t, x) == [name] <==> IsChild(t, 0, name, x)
  {
    if x > 0 {
      var p := PathOf(t, t.nodes[x].parent);
      assert (p + [t.nodes[x].name])[|p|] == t.nodes[x].name;
      assert |p + [t.nodes[x].name]| == |p| + 1;
    }
  }

  lemma DevSegments()
    ensures Segments("/dev") == ["dev"] && GoodNames(["dev"])
  {
    assert Text(["dev"]) == "/dev";
    SplitText(["dev"]);
  }

  // After start-up the console is found wherever the process is.
  lemma {:induction false} ConsoleFound(v: View, cwd: Loc)
    requires ViewOk(v) && At(v, cwd) && v.mount.Some? && PathOf(v.files, v.mount.value) == ["dev"] && v.files.nodes[0].isDir
    ensures var c := Enter(v.devices, 0, "console"); Lookup(v, cwd, "/dev/console") == if c.None? then None else Some(Device(c.value))
  {
    hide *;
    DevSegments();
    ConsoleSegments();
    CoveredParts(v, ["dev"]);
    DevReachable(v);
    StartsAtRoot(v, cwd, "/dev/console", ["dev"] + ["console"]);
    CrossDown(v, 0, ["dev"], ["console"]);
    ConsoleWalk(v);
  }

  lemma ConsoleSegments()
    ensures Segments("/dev/console") == ["dev"] + ["console"] && IsDelim("/dev/console"[0]) && |["dev"] + ["console"]| <= MAX_SEGMENTS
  {
    var names := ["dev"] + ["console"];
    assert names[1..] == ["console"] && ["console"][1..] == [];
    assert Text(["console"]) == "/console";
    assert Text(names) == "/dev/console";
    SplitText(names);
  }

  lemma {:induction false} DevReachable(v: View)
    requires ViewOk(v) && v.mount.Some? && PathOf(v.files, v.mount.value) == ["dev"] && v.files.nodes[0].isDir
    ensures Reachable(v.files, v.mount.value) && Covered(v, ["dev"])
  {
    hide TreeOk;
    TreesParents(v.files);
    forall a | 0 <= a < |v.files.nodes| && PathOf(v.files, a) < ["dev"] ensures a == 0 {}
  }

  lemma {:induction false} ConsoleWalk(v: View)
    requires At(v, Device(0))
    ensures var c := Enter(v.devices, 0, "console"); Resolve(v, Device(0), ["console"]) == if c.None? then None else Some(Device(c.value))
  {
    hide Enter;
    assert ["console"][1..] == [];
  }

  // ----- the stored files -----

  lemma {:induction false} StoredReachable(t: Tree, es: seq<Entry>, x: nat)
    requires WellFormed(es) && Loaded(t, es, |es|) && x < |t.nodes|
    ensures Reachable(t, x) && GoodNames(PathOf(t, x))
  {
    hide Segs;
    assert TypeOk(t, es, x);
    forall a | 0 <= a < |t.nodes| && PathOf(t, a) < PathOf(t, x) ensures t.nodes[a].isDir {
      assert TypeOk(t, es, a);
      var k :| 0 <= k < |es| && PathOf(t, x) <= Segs(es[k]);
      assert PathOf(t, a) < Segs(es[k]);
    }
    if x > 0 {
      var k :| 0 <= k < |es| && PathOf(t, x) <= Segs(es[k]);
      assert EntryOk(es[k]);
      EntryNames(es[k]);
      PrefixNames(PathOf(t, x), Segs(es[k]));
    }
  }

  lemma {:induction false} EntryNames(e: Entry)
    requires EntryOk(e)
    ensures GoodNames(Segs(e))
  {
    assert Segments("") == [];
  }

  lemma {:induction false} PrefixNames(a: seq<string>, b: seq<string>)
    requires a <= b && GoodNames(b)
    ensures GoodNames(a)
  {
    forall i | 0 <= i < |a| ensures GoodName(a[i]) {
      assert a[i] == b[i];
    }
  }

  // Whether the device tree covers what has these names.
  ghost predicate Covered(v: View, names: seq<string>)
    requires ViewOk(v)
  {
    v.mount.Some? && PathOf(v.files, v.mount.value) <= names
  }

  // In a loaded archive, looking up the path of an entry leads to a node of the archive if and only if the
  // mount's path is no prefix of it. That node has the entry's type, and for the last file of that path its
  // bytes are the entry's content. Otherwise the rest of the path is looked up among the devices.
  lemma {:induction false} StoredFound(b: string, v: View, es: seq<Entry>, k: nat, cwd: Loc, path: string)
    requires ViewOk(v) && Archive(b, 0, es) && WellFormed(es) && Loaded(v.files, es, |es|) && k < |es| && At(v, cwd)
    requires Segments(path) == Segs(es[k]) && ((path != "" && IsDelim(path[0])) || cwd == Archived(0))
    ensures (exists x :: Lookup(v, cwd, path) == Some(Archived(x))) <==> !Covered(v, Segs(es[k]))
    ensures !Covered(v, Segs(es[k])) ==> FoundEntry(b, v, es, k, Lookup(v, cwd, path).value.node)
    ensures Covered(v, Segs(es[k])) ==>
      Lookup(v, cwd, path) == Resolve(v, Device(0), Segs(es[k])[|PathOf(v.files, v.mount.value)|..])
  {
    hide *;
    var names := Segs(es[k]);
    StoredDepth(es, k);
    LoadedTree(v.files, es, |es|);
    TreesParents(v.files);
    if Covered(v, names) {
      CoveredParts(v, names);
      var m := v.mount.value;
      StoredReachable(v.files, es, m);
      var p := PathOf(v.files, m);
      StartsAtRoot(v, cwd, path, names);
      CrossDown(v, 0, p, names[|p|..]);
      assert p + names[|p|..] == names;
      NoneArchived(v, names[|p|..]);
    } else {
      var x := StoredAt(v.files, es, |es|, k);
      StoredNode(v.files, es, k, x);
      StoredReachable(v.files, es, x);
      FoundAt(v, x, names, cwd, path);
      StoredType(v.files, es, k, x);
      StoredBytes(b, es, k);
      FoundIs(b, v, es, k, x);
    }
  }

  // Node `x` of the archive is what entry `k` stored.
  ghost predicate FoundEntry(b: string, v: View, es: seq<Entry>, k: nat, x: nat)
    requires k < |es|
  {
    && x < |v.files.nodes| && v.files.nodes[x].isDir == es[k].isDir
    && (!es[k].isDir && LastFor(es, k, |es|) ==>
         v.files.nodes[x].offset + v.files.nodes[x].size <= |b| && b[v.files.nodes[x].offset..v.files.nodes[x].offset + v.files.nodes[x].size] == es[k].content)
  }

  lemma {:induction false} FoundIs(b: string, v: View, es: seq<Entry>, k: nat, x: nat)
    requires k < |es| && x < |v.files.nodes| && v.files.nodes[x].isDir == es[k].isDir
    requires !es[k].isDir && LastFor(es, k, |es|) ==> v.files.nodes[x].size == |es[k].content| && v.files.nodes[x].offset == HeaderOf(0, es, k) + BLOCK
    requires var off := HeaderOf(0, es, k) + BLOCK; off + |es[k].content| <= |b| && b[off..off + |es[k].content|] == es[k].content
    ensures FoundEntry(b, v, es, k, x)
  {
  }

  lemma {:induction false} CoveredParts(v: View, names: seq<string>)
    requires ViewOk(v) && Covered(v, names)
    ensures v.mount.Some? && 0 < v.mount.value < |v.files.nodes| && PathOf(v.files, v.mount.value) != []
    ensures PathOf(v.files, v.mount.value) <= names && PathOf(v.files, 0) + PathOf(v.files, v.mount.value) == PathOf(v.files, v.mount.value)
    ensures At(v, Device(0)) && At(v, Archived(0))
  {
  }

  lemma {:induction false} NoneArchived(v: View, segs: seq<string>)
    requires At(v, Device(0))
    ensures forall x :: Resolve(v, Device(0), segs) != Some(Archived(x))
  {
    if Resolve(v, Device(0), segs).Some? { DevicesStay(v, 0, segs); }
  }

  lemma {:induction false} StartsAtRoot(v: View, cwd: Loc, path: string, names: seq<string>)
    requires At(v, cwd) && At(v, Archived(0)) && Segments(path) == names && |names| <= MAX_SEGMENTS
    requires (path != "" && IsDelim(path[0])) || cwd == Archived(0)
    ensures Lookup(v, cwd, path) == Resolve(v, Archived(0), names)
  {
    hide Resolve; hide Segments;
  }

  lemma {:induction false} StoredNode(t: Tree, es: seq<Entry>, k: nat, x: nat)
    requires ParentsOk(t) && k < |es| && Stored(t, es, k, |es|, x)
    ensures x < |t.nodes| && PathOf(t, x) == Segs(es[k])
    ensures !es[k].isDir && LastFor(es, k, |es|) ==> t.nodes[x].size == |es[k].content| && t.nodes[x].offset == HeaderOf(0, es, k) + BLOCK
  {
  }

  // A path of good names that is not too deep and not covered is found by its segments.
  lemma {:induction false} FoundAt(v: View, x: nat, names: seq<string>, cwd: Loc, path: string)
    requires ViewOk(v) && At(v, cwd) && x < |v.files.nodes| && PathOf(v.files, x) == names && GoodNames(names) && Reachable(v.files, x)
    requires !Covered(v, names)
    requires Segments(path) == names && |names| <= MAX_SEGMENTS && ((path != "" && IsDelim(path[0])) || cwd == Archived(0))
    ensures Lookup(v, cwd, path) == Some(Archived(x))
  {
    hide TreeOk; hide Segments; hide Resolve; hide GoodNames; hide Reachable;
    assert PathOf(v.files, 0) + names == names;
    StartsAtRoot(v, cwd, path, names);
    ResolveDown(v, x, 0, names);
  }

  lemma {:induction false} StoredDepth(es: seq<Entry>, k: nat)
    requires WellFormed(es) && k < |es|
    ensures |Segs(es[k])| <= MAX_SEGMENTS
  {
    assert EntryOk(es[k]);
    assert Segments("") == [];
  }

  lemma {:induction false} StoredType(t: Tree, es: seq<Entry>, k: nat, x: nat)
    requires WellFormed(es) && Loaded(t, es, |es|) && k < |es| && x < |t.nodes| && ParentsOk(t) && PathOf(t, x) == Segs(es[k])
    ensures t.nodes[x].isDir == es[k].isDir
  {
    hide Segs;
    assert TypeOk(t, es, x);
  }

  lemma {:induction false} StoredBytes(b: string, es: seq<Entry>, k: nat)
    requires Archive(b, 0, es) && k < |es|
    ensures var off := HeaderOf(0, es, k) + BLOCK;
      off + |es[k].content| <= |b| && b[off..off + |es[k].content|] == es[k].content
  {
    EntryAt(b, 0, es, k);
    assert es[k..][0] == es[k];
  }

  // ----- reading -----

  // An open file of the archive `b`.
  class Descriptor {
    const node: nat
    const readable: bool
    var offset: nat

    // The bytes of the file.
    function Content(t: Tree, b: string): string
      requires node < |t.nodes| && t.nodes[node].offset + t.nodes[node].size <= |b|
    {
      b[t.nodes[node].offset..t.nodes[node].offset + t.nodes[node].size]
    }

    // Copies what is left, at most `size` bytes, and moves on. The result is the number of bytes or
    // minus an error.
    method VfsRead(t: Tree, b: string, size: nat) returns (ret: int, data: string)
      requires node < |t.nodes| && t.nodes[node].offset + t.nodes[node].size <= |b|
      modifies this
      ensures t.nodes[node].isDir ==> ret == -PROTO_ERR_IS_A_DIRECTORY && data == "" && offset == old(offset)
      ensures !t.nodes[node].isDir && !readable ==> ret == -PROTO_ERR_FILE_UNAUTHORIZED_OP && data == "" && offset == old(offset)
      ensures !t.nodes[node].isDir && readable ==> ret == |data| && Chunk(Content(t, b), old(offset), size, offset, data)
    {
      var n := t.nodes[node];
      if n.isDir {
        return -PROTO_ERR_IS_A_DIRECTORY, "";
      }
      if !readable {
        return -PROTO_ERR_FILE_UNAUTHORIZED_OP, "";
      }
      if offset > n.size {
        offset := n.size;
      }
      if offset >= n.size {
        return 0, "";
      }
      var remaining := n.size - offset;
      var toRead := if size < remaining then size else remaining;
      data := b[n.offset + offset..n.offset + offset + toRead];
      assert data == Content(t, b)[offset..offset + toRead];
      offset := offset + toRead;
      return toRead, data;
    }

    // Chunks of any sizes concatenate to the file from the old position on.
    method ReadChunks(t: Tree, b: string, sizes: seq<nat>) returns (data: string)
      requires node < |t.nodes| && t.nodes[node].offset + t.nodes[node].size <= |b| && offset <= t.nodes[node].size
      requires !t.nodes[node].isDir && readable
      modifies this
      ensures offset <= t.nodes[node].size && old(offset) <= offset
      ensures data == Content(t, b)[old(offset)..offset]
      ensures offset == if old(offset) + Sum(sizes) < |Content(t, b)| then old(offset) + Sum(sizes) else |Content(t, b)|
    {
      data := "";
      assert sizes[..0] == [];
      for i := 0 to |sizes|
        invariant old(offset) <= offset <= t.nodes[node].size && data == Content(t, b)[old(offset)..offset]
        invariant offset == if old(offset) + Sum(sizes[..i]) < |Content(t, b)| then old(offset) + Sum(sizes[..i]) else |Content(t, b)|
      {
        var _, chunk := VfsRead(t, b, sizes[i]);
        data := data + chunk;
        assert sizes[..i + 1][..i] == sizes[..i];
        assert Sum(sizes[..i + 1]) == Sum(sizes[..i]) + sizes[i];
      }
      assert sizes[..|sizes|] == sizes;
    }
  }

  // `data` is what comes next at `start`, and only the end of the file makes it short. A position
  // behind the end counts as the end.
  ghost predicate Chunk(content: string, start: nat, size: nat, end: nat, data: string) {
    var from := if start < |content| then start else |content|;
    end == from + |data| && end <= |content| && data == content[from..end] && |data| <= size && (|data| == size || end == |content|)
  }

  function Sum(ns: seq<nat>): nat {
    if ns == [] then 0 else Sum(ns[..|ns| - 1]) + ns[|ns| - 1]
  }

  // ----- the working directory -----

  // What fits a 512-byte buffer with its terminator.
  function Cut(s: string): string { Front(s, MAX_TEXT) }

  // The printed path of a folder.
  function Printed(names: seq<string>): string {
    if names == [] then "/" else Cut(Text(names))
  }

  class Process {
    var cwd: Loc

    method SysChdir(v: View, path: string) returns (res: int)
      requires ViewOk(v) && Visible(v, cwd)
      modifies this
      ensures Visible(v, cwd)
      ensures var r := Lookup(v, old(cwd), path);
        if r.None? then res == PROTO_ERR_FILE_NOT_FOUND && cwd == old(cwd)
        else if !IsFolder(v, r.value) then res == PROTO_ERR_NOT_A_DIRECTORY && cwd == old(cwd)
        else res == PROTO_OK && cwd == r.value
    {
      hide ViewOk;
      var r := VfsLookup(v, cwd, path);
      if r.None? {
        return PROTO_ERR_FILE_NOT_FOUND;
      }
      if !IsFolder(v, r.value) {
        return PROTO_ERR_NOT_A_DIRECTORY;
      }
      LookupVisible(v, cwd, path);
      cwd := r.value;
      return PROTO_OK;
    }

    // Climbs until a folder is its own parent, putting each name in front of what is printed so far.
    method SysGetcwd(v: View, bufSize: nat) returns (res: int, text: string)
      requires ViewOk(v) && Visible(v, cwd)
      ensures res == if |Printed(LocPath(v, cwd))| + 1 > bufSize then PROTO_ERR_OUT_OF_MEMORY else PROTO_OK
      ensures res == PROTO_OK ==> text == Printed(LocPath(v, cwd))
    {
      hide ViewOk; hide Text; hide Visible;
      VisibleAt(v, cwd);
      var x := cwd;
      var acc := "";
      ghost var names: seq<string> := [];
      EmptyText();
      while true
        invariant Visible(v, x) && At(v, x) && LocPath(v, cwd) == LocPath(v, x) + names && acc == Cut(Text(names))
        decreases x.node
      {
        var parent := VfsLookup(v, x, "..");
        DotDot(v, x);
        if parent.None? || parent.value == x {
          assert LocPath(v, cwd) == names;
          break;
        }
        var here := VfsLookup(v, x, ".");
        Dot(v, x);
        NotCovered(v, x);
        if here.Some? {
          var name := TreeOf(v, here.value).nodes[here.value.node].name;
          CutAgain(name, names);
          acc := Cut("/" + name + acc);
          names := [name] + names;
        }
        x := parent.value;
      }
      text := acc;
      TextEmpty(names);
      if |text| == 0 {
        text := "/";
      }
      if |text| + 1 > bufSize {
        return PROTO_ERR_OUT_OF_MEMORY, "";
      }
      return PROTO_OK, text;
    }
  }

  lemma {:induction false} VisibleAt(v: View, at: Loc)
    requires ViewOk(v) && Visible(v, at)
    ensures At(v, at)
  {
  }

  lemma {:induction false} NotCovered(v: View, at: Loc)
    requires ViewOk(v) && Visible(v, at)
    ensures !(at.Archived? && v.mount == Some(at.node))
  {
  }

  lemma {:induction false} LookupVisible(v: View, cwd: Loc, path: string)
    requires ViewOk(v) && Visible(v, cwd) && Lookup(v, cwd, path).Some?
    ensures Visible(v, Lookup(v, cwd, path).value)
  {
    hide Segments; hide Resolve;
    var start := if path != "" && IsDelim(path[0]) then Archived(0) else cwd;
    assert Visible(v, start);
    ResolveVisible(v, start, Front(Segments(path), MAX_SEGMENTS));
  }

  lemma EmptyText()
    ensures Text([]) == "" && Cut("") == ""
  {
  }

  lemma TextEmpty(names: seq<string>)
    ensures |Cut(Text(names))| == 0 <==> names == []
  {
  }

  // The parent of what is visible is in the same tree and visible.
  lemma {:induction false} DotDot(v: View, at: Loc)
    requires ViewOk(v) && Visible(v, at)
    ensures At(v, at) && var r := Lookup(v, at, "..");
      && r == Some(at.(node := TreeOf(v, at).nodes[at.node].parent)) && Visible(v, r.value)
      && (if r.value == at then LocPath(v, at) == [] else r.value.node < at.node && LocPath(v, at) == LocPath(v, r.value) + [TreeOf(v, at).nodes[at.node].name])
  {
    DotDotSegments();
    hide Segments;
    var r := EnterAt(v, at, "..").value;
    EnterVisible(v, at, "..");
    CrossedVisible(v, at);
    assert [".."][1..] == [];
    assert Resolve(v, at, [".."]) == Resolve(v, r, []);
    assert Front([".."], MAX_SEGMENTS) == [".."];
  }

  lemma {:induction false} CrossedVisible(v: View, at: Loc)
    requires ViewOk(v) && Visible(v, at)
    ensures EnterAt(v, at, "..") == Some(at.(node := TreeOf(v, at).nodes[at.node].parent))
  {
    if at.Archived? && v.mount.Some? { ParentPath(v.files, PathOf(v.files, v.mount.value), at.node); }
  }

  lemma DotDotSegments()
    ensures Segments("..") == [".."]
  {
    var s := "..";
    PieceIs(s, 2);
    assert s[..2] == s && s[2..] == "";
    assert Segments(s) == [s[..2]] + Segments(s[2..]);
  }

  // Cutting what has been cut before gives the cut whole.
  lemma CutAgain(name: string, names: seq<string>)
    ensures Cut("/" + name + Cut(Text(names))) == Cut(Text([name] + names))
  {
    assert ([name] + names)[1..] == names;
    assert Text([name] + names) == "/" + name + Text(names);
  }

  // Looking up the printed path leads back exactly if the folder is in the archive and its path was
  // printed whole and is not too deep. The path of a folder of the device tree is printed without that of
  // the mount.
  lemma {:induction false} GetcwdRoundTrip(v: View, at: Loc, cwd: Loc)
    requires ViewOk(v) && Visible(v, at) && At(v, cwd) && GoodNames(LocPath(v, at)) && Reachable(TreeOf(v, at), at.node)
    ensures Lookup(v, cwd, Printed(LocPath(v, at))) == Some(at) <==>
              at.Archived? && |Text(LocPath(v, at))| <= MAX_TEXT && |LocPath(v, at)| <= MAX_SEGMENTS
  {
    hide *;
    VisibleAt(v, at);
    var names := LocPath(v, at);
    StartAt(v);
    if names == [] {
      RootPrinted(v, at, cwd);
    } else {
      PrintedWalk(v, cwd, names);
      if at.Archived? && |Text(names)| <= MAX_TEXT && |names| <= MAX_SEGMENTS {
        WholeBack(v, at, names);
      } else {
        CutLess(names);
        Shallower(v, at, names);
      }
    }
  }

  lemma {:induction false} StartAt(v: View)
    requires ViewOk(v)
    ensures At(v, Archived(0)) && PathOf(v.files, 0) == []
  {
  }

  lemma {:induction false} RootPrinted(v: View, at: Loc, cwd: Loc)
    requires ViewOk(v) && At(v, at) && At(v, cwd) && At(v, Archived(0)) && LocPath(v, at) == []
    ensures Lookup(v, cwd, Printed([])) == Some(at) <==> at.Archived? && |Text([])| <= MAX_TEXT && 0 <= MAX_SEGMENTS
  {
    hide Segments; hide Resolve; hide TreeOk;
    OneDelim("/");
    EmptyWalk(v);
  }

  // What is printed of a path is an absolute path.
  lemma {:induction false} PrintedWalk(v: View, cwd: Loc, names: seq<string>)
    requires At(v, cwd) && At(v, Archived(0)) && names != []
    ensures Lookup(v, cwd, Printed(names)) == Resolve(v, Archived(0), Front(Segments(Cut(Text(names))), MAX_SEGMENTS))
  {
    hide Segments; hide Resolve; hide At;
    TextStart(names);
  }

  lemma {:induction false} WholeBack(v: View, at: Loc, names: seq<string>)
    requires ViewOk(v) && At(v, at) && Visible(v, at) && at.Archived? && LocPath(v, at) == names && GoodNames(names) && Reachable(TreeOf(v, at), at.node)
    requires At(v, Archived(0)) && PathOf(v.files, 0) == [] && |Text(names)| <= MAX_TEXT && |names| <= MAX_SEGMENTS
    ensures Resolve(v, Archived(0), Front(Segments(Cut(Text(names))), MAX_SEGMENTS)) == Some(at)
  {
    hide Segments; hide Resolve; hide ViewOk; hide Visible; hide Reachable; hide GoodNames; hide Text;
    SplitText(names);
    assert PathOf(v.files, 0) + names == names;
    assert at == Archived(at.node) && TreeOf(v, at) == v.files;
    ResolveDown(v, at.node, 0, names);
  }

  // What is left of the path is shorter or less deep, if it is not printed whole.
  lemma {:induction false} CutLess(names: seq<string>)
    requires GoodNames(names) && names != []
    ensures var segs := Front(Segments(Cut(Text(names))), MAX_SEGMENTS);
      |segs| <= MAX_SEGMENTS && |Text(segs)| <= MAX_TEXT && (|Text(names)| <= MAX_TEXT && |names| <= MAX_SEGMENTS ==> segs == names)
  {
    hide Segments; hide Text; hide GoodNames;
    var text := Cut(Text(names));
    TextStart(names);
    SplitText(names);
    FrontText(Segments(text), MAX_SEGMENTS);
    TextShortest(text);
  }

  lemma {:induction false} Shallower(v: View, at: Loc, names: seq<string>)
    requires At(v, at) && At(v, Archived(0)) && PathOf(v.files, 0) == [] && LocPath(v, at) == names
    requires !(at.Archived? && |Text(names)| <= MAX_TEXT && |names| <= MAX_SEGMENTS)
    requires var segs := Front(Segments(Cut(Text(names))), MAX_SEGMENTS);
      |segs| <= MAX_SEGMENTS && |Text(segs)| <= MAX_TEXT && (|Text(names)| <= MAX_TEXT && |names| <= MAX_SEGMENTS ==> segs == names)
    ensures Resolve(v, Archived(0), Front(Segments(Cut(Text(names))), MAX_SEGMENTS)) != Some(at)
  {
    hide Segments; hide Resolve; hide Cut; hide At;
    var segs := Front(Segments(Cut(Text(names))), MAX_SEGMENTS);
    assert LocPath(v, Archived(0)) == [] && |Text([])| == 0;
    if Resolve(v, Archived(0), segs).Some? { ResolveBounds(v, Archived(0), segs); }
  }

  lemma {:induction false} EmptyWalk(v: View)
    requires At(v, Archived(0))
    ensures Resolve(v, Archived(0), []) == Some(Archived(0))
  {
  }

  lemma TextStart(names: seq<string>)
    requires names != []
    ensures Cut(Text(names)) != "" && Cut(Text(names))[0] == '/' && |Cut(Text(names))| <= MAX_TEXT
  {
  }

  lemma FrontText(segs: seq<string>, n: nat)
    ensures |Text(Front(segs, n))| <= |Text(segs)|
  {
    if n < |segs| {
      TextAppend(segs[..n], segs[n..]);
      assert segs == segs[..n] + segs[n..];
    }
  }
}
