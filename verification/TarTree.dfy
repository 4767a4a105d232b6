/** The directory tree of the boot archive: nodes linked to their parent and their children. */
module TarTree {

  // `children` lists the newest first. Node 0 is the root, its own parent here; `offset` and `size`
  // say where the content lies in memory.
  datatype Node = Node(name: string, isDir: bool, parent: nat, children: seq<nat>, size: nat, offset: nat)

  datatype Tree = Tree(nodes: seq<Node>)

  ghost predicate IsChild(t: Tree, dir: nat, name: string, c: nat) {
    0 < c < |t.nodes| && t.nodes[c].parent == dir && t.nodes[c].name == name
  }

  ghost predicate ParentsOk(t: Tree) {
    && |t.nodes| > 0 && t.nodes[0].parent == 0
    && forall x :: 0 < x < |t.nodes| ==> t.nodes[x].parent < x
  }

  predicate Below(t: Tree, x: nat, c: nat) { 0 < c < |t.nodes| && t.nodes[c].parent == x }

  // Child lists hold children,
  ghost predicate Downwards(t: Tree) {
    forall x, c :: 0 <= x < |t.nodes| && c in t.nodes[x].children ==> Below(t, x, c)
  }

  // all of them,
  ghost predicate Upwards(t: Tree) {
    forall c: nat, x: nat :: Below(t, x, c) && x < |t.nodes| ==> c in t.nodes[x].children
  }

  // with different names.
  ghost predicate NamesApart(t: Tree) {
    forall x, name, c, d :: IsChild(t, x, name, c) && IsChild(t, x, name, d) ==> c == d
  }

  ghost predicate TreeOk(t: Tree) {
    ParentsOk(t) && Downwards(t) && Upwards(t) && NamesApart(t)
  }

  // The names from the root to a node.
  ghost function PathOf(t: Tree, x: nat): (p: seq<string>)
    requires ParentsOk(t) && x < |t.nodes|
    ensures p == [] <==> x == 0
  {
    if x == 0 then [] else PathOf(t, t.nodes[x].parent) + [t.nodes[x].name]
  }

  lemma {:induction false} PathUnique(t: Tree, x: nat, y: nat)
    requires TreeOk(t) && x < |t.nodes| && y < |t.nodes| && PathOf(t, x) == PathOf(t, y)
    ensures x == y
  {
    if x > 0 && y > 0 {
      var p, q := PathOf(t, t.nodes[x].parent), PathOf(t, t.nodes[y].parent);
      assert PathOf(t, x)[..|p|] == p && PathOf(t, y)[..|q|] == q;
      assert PathOf(t, x)[|p|] == t.nodes[x].name && PathOf(t, y)[|q|] == t.nodes[y].name;
      PathUnique(t, t.nodes[x].parent, t.nodes[y].parent);
      assert IsChild(t, t.nodes[x].parent, t.nodes[x].name, x) && IsChild(t, t.nodes[x].parent, t.nodes[x].name, y);
    }
  }

  // The ancestor at depth `n`.
  ghost function Ancestor(t: Tree, x: nat, n: nat): (a: nat)
    requires ParentsOk(t) && x < |t.nodes| && n <= |PathOf(t, x)|
    ensures a < |t.nodes| && PathOf(t, a) == PathOf(t, x)[..n]
  {
    if n == |PathOf(t, x)| then x
    else
      assert PathOf(t, x)[..n] == PathOf(t, t.nodes[x].parent)[..n];
      Ancestor(t, t.nodes[x].parent, n)
  }

  // ----- growth -----

  // Nodes keep their place, name, type and content; new ones may come.
  ghost predicate Grew(t: Tree, t': Tree) {
    |t.nodes| <= |t'.nodes| && forall x :: 0 <= x < |t.nodes| ==> t'.nodes[x].(children := []) == t.nodes[x].(children := [])
  }

  lemma {:induction false} PathKept(t: Tree, t': Tree, x: nat)
    requires ParentsOk(t) && ParentsOk(t') && x < |t.nodes| <= |t'.nodes|
    requires forall y :: 0 <= y <= x ==> t'.nodes[y].parent == t.nodes[y].parent && t'.nodes[y].name == t.nodes[y].name
    ensures PathOf(t', x) == PathOf(t, x)
  {
    if x > 0 { PathKept(t, t', t.nodes[x].parent); }
  }

  // A new node in front of the children of `dir`.
  function Linked(t: Tree, dir: nat, name: string, isDir: bool): Tree
    requires dir < |t.nodes|
  {
    var x := |t.nodes|;
    Tree(t.nodes[dir := t.nodes[dir].(children := [x] + t.nodes[dir].children)] + [Node(name, isDir, dir, [], 0, 0)])
  }

  lemma LinkedOk(t: Tree, dir: nat, name: string, isDir: bool)
    requires TreeOk(t) && dir < |t.nodes| && forall c :: !IsChild(t, dir, name, c)
    ensures TreeOk(Linked(t, dir, name, isDir)) && Grew(t, Linked(t, dir, name, isDir))
    ensures IsChild(Linked(t, dir, name, isDir), dir, name, |t.nodes|)
  {
    LinkedParents(t, dir, name, isDir);
    LinkedLists(t, dir, name, isDir);
    LinkedNames(t, dir, name, isDir);
  }

  lemma LinkedParents(t: Tree, dir: nat, name: string, isDir: bool)
    requires ParentsOk(t) && dir < |t.nodes|
    ensures ParentsOk(Linked(t, dir, name, isDir)) && Grew(t, Linked(t, dir, name, isDir))
    ensures IsChild(Linked(t, dir, name, isDir), dir, name, |t.nodes|)
  {
  }

  lemma LinkedLists(t: Tree, dir: nat, name: string, isDir: bool)
    requires ParentsOk(t) && Downwards(t) && Upwards(t) && dir < |t.nodes|
    ensures Downwards(Linked(t, dir, name, isDir)) && Upwards(Linked(t, dir, name, isDir))
  {
    var t' := Linked(t, dir, name, isDir);
    forall x, c | 0 <= x < |t'.nodes| && c in t'.nodes[x].children ensures Below(t', x, c) {
      assert x < |t.nodes| && c in t.nodes[x].children ==> Below(t, x, c);
    }
    forall c: nat, x: nat | Below(t', x, c) && x < |t'.nodes| ensures c in t'.nodes[x].children {
      assert c < |t.nodes| && x < |t.nodes| ==> Below(t, x, c);
    }
  }

  lemma LinkedChild(t: Tree, dir: nat, name: string, isDir: bool)
    requires dir < |t.nodes|
    ensures forall x, n, c :: IsChild(Linked(t, dir, name, isDir), x, n, c) <==> IsChild(t, x, n, c) || (c == |t.nodes| && x == dir && n == name)
  {
  }

  lemma LinkedNames(t: Tree, dir: nat, name: string, isDir: bool)
    requires NamesApart(t) && dir < |t.nodes| && forall c :: !IsChild(t, dir, name, c)
    ensures NamesApart(Linked(t, dir, name, isDir))
  {
    LinkedChild(t, dir, name, isDir);
  }

  class Files {
    var tree: Tree

    // Only the root.
    constructor ()
      ensures TreeOk(tree) && |tree.nodes| == 1 && tree.nodes[0].isDir
    {
      tree := Tree([Node("", true, 0, [], 0, 0)]);
    }

    // The child with this name; it is created if there is none.
    method FindOrCreateChild(dir: nat, name: string, isDir: bool) returns (x: nat)
      requires TreeOk(tree) && dir < |tree.nodes|
      modifies this
      ensures TreeOk(tree) && Grew(old(tree), tree) && IsChild(tree, dir, name, x)
      ensures x < |old(tree).nodes| ==> tree == old(tree)
      ensures x >= |old(tree).nodes| ==> x == |old(tree).nodes| == |tree.nodes| - 1 && tree.nodes[x] == Node(name, isDir, dir, [], 0, 0)
    {
      var cs := tree.nodes[dir].children;
      for i := 0 to |cs|
        invariant forall j :: 0 <= j < i ==> 0 < cs[j] < |tree.nodes| && tree.nodes[cs[j]].name != name
      {
        assert cs[i] in cs;
        assert Below(tree, dir, cs[i]);
        if tree.nodes[cs[i]].name == name {
          return cs[i];
        }
      }
      forall c ensures !IsChild(tree, dir, name, c) {
        assert Below(tree, dir, c) ==> c in cs;
      }
      LinkedOk(tree, dir, name, isDir);
      x := |tree.nodes|;
      tree := Linked(tree, dir, name, isDir);
    }

    // Follows the path, creating folders on the way and the last node with the given type.
    method AddPath(segs: seq<string>, isDir: bool) returns (x: nat)
      requires TreeOk(tree) && segs != []
      modifies this
      ensures TreeOk(tree) && Grew(old(tree), tree) && 0 < x < |tree.nodes| && PathOf(tree, x) == segs
      ensures NewAlong(old(tree), tree, segs, isDir)
    {
      var current := 0;
      ghost var was := tree;
      for i := 0 to |segs| - 1
        invariant TreeOk(tree) && Grew(was, tree) && current < |tree.nodes| && PathOf(tree, current) == segs[..i]
        invariant NewAlong(was, tree, segs, isDir)
      {
        current := Descend(was, current, segs, i, true, isDir);
      }
      x := Descend(was, current, segs, |segs| - 1, isDir, isDir);
      assert segs[..|segs| - 1 + 1] == segs;
    }

    method Descend(ghost was: Tree, current: nat, segs: seq<string>, i: nat, kind: bool, ghost isDir: bool) returns (x: nat)
      requires TreeOk(was) && TreeOk(tree) && Grew(was, tree) && i < |segs|
      requires current < |tree.nodes| && PathOf(tree, current) == segs[..i] && NewAlong(was, tree, segs, isDir)
      requires kind == (i < |segs| - 1 || isDir)
      modifies this
      ensures TreeOk(tree) && Grew(was, tree) && 0 < x < |tree.nodes| && PathOf(tree, x) == segs[..i + 1] && NewAlong(was, tree, segs, isDir)
    {
      ghost var before := tree;
      x := FindOrCreateChild(current, segs[i], kind);
      assert IsChild(tree, current, segs[i], x);
      PathKept(before, tree, current);
      assert segs[..i] + [segs[i]] == segs[..i + 1];
      forall y | |was.nodes| <= y < |tree.nodes| ensures AlongAt(tree, y, segs, isDir) {
        if y < |before.nodes| {
          assert AlongAt(before, y, segs, isDir);
          PathKept(before, tree, y);
        }
      }
    }
  }

  // A node on the path; a folder unless it is the end of the path and that is no folder.
  ghost predicate AlongAt(t: Tree, y: nat, segs: seq<string>, isDir: bool)
    requires ParentsOk(t) && y < |t.nodes|
  {
    var p := PathOf(t, y);
    0 < |p| <= |segs| && p == segs[..|p|] && t.nodes[y].isDir == (|p| < |segs| || isDir) && t.nodes[y].size == t.nodes[y].offset == 0
  }

  ghost predicate NewAlong(t: Tree, t': Tree, segs: seq<string>, isDir: bool)
    requires ParentsOk(t')
  {
    forall y :: |t.nodes| <= y < |t'.nodes| ==> AlongAt(t', y, segs, isDir)
  }
}
