/** Path names: splitting at either delimiter, and the text that `getcwd` prints. */
module Paths {
  import opened Strings

  predicate IsDelim(c: char) { c == '/' || c == '\\' }

  // The length of the leading piece without a delimiter.
  function PieceLength(p: string): (n: nat)
    ensures n <= |p| && (n < |p| ==> IsDelim(p[n])) && forall i :: 0 <= i < n ==> !IsDelim(p[i])
  {
    if p == "" || IsDelim(p[0]) then 0 else 1 + PieceLength(p[1..])
  }

  lemma {:induction false} PieceIs(p: string, n: nat)
    requires n <= |p| && (n == |p| || IsDelim(p[n])) && forall i :: 0 <= i < n ==> !IsDelim(p[i])
    ensures PieceLength(p) == n
  {
    if n > 0 {
      PieceIs(p[1..], n - 1);
    }
  }

  // The non-empty pieces between delimiters.
  function Segments(p: string): seq<string>
    decreases |p|
  {
    if p == "" then []
    else if IsDelim(p[0]) then Segments(p[1..])
    else [p[..PieceLength(p)]] + Segments(p[PieceLength(p)..])
  }

  function Front<T>(s: seq<T>, n: nat): seq<T> { if n < |s| then s[..n] else s }

  // The first `max` segments.
  method SplitPath(path: string, max: nat) returns (segments: seq<string>)
    ensures segments == Front(Segments(path), max)
  {
    segments := [];
    var p := 0;
    assert path[0..] == path;
    while p < |path| && |segments| < max
      invariant p <= |path| && |segments| <= max && Segments(path) == segments + Segments(path[p..])
      decreases |path| - p
    {
      assert path[p..][1..] == path[p + 1..];
      if IsDelim(path[p]) {
        p := p + 1;
        continue;
      }
      var len := 0;
      while p + len < |path| && !IsDelim(path[p + len])
        invariant p + len <= |path| && forall i :: p <= i < p + len ==> !IsDelim(path[i])
      {
        len := len + 1;
      }
      PieceIs(path[p..], len);
      assert path[p..][..len] == path[p..p + len] && path[p..][len..] == path[p + len..];
      if len > 0 {
        segments := segments + [path[p..p + len]];
      }
      p := p + len;
    }
  }

  // A name that a directory entry may have: no delimiter in it, and none of the two special names.
  predicate GoodName(s: string) {
    s != "" && Clean(s) && s != "." && s != ".." && forall i :: 0 <= i < |s| ==> !IsDelim(s[i])
  }

  predicate GoodNames(names: seq<string>) {
    forall i :: 0 <= i < |names| ==> GoodName(names[i])
  }

  // Each name behind a slash.
  function Text(names: seq<string>): (s: string)
    ensures s == "" <==> names == []
  {
    if names == [] then "" else "/" + names[0] + Text(names[1..])
  }

  lemma {:induction false} TextAppend(a: seq<string>, b: seq<string>)
    ensures Text(a + b) == Text(a) + Text(b)
  {
    if a == [] {
      assert a + b == b;
    } else {
      assert (a + b)[1..] == a[1..] + b;
      TextAppend(a[1..], b);
    }
  }

  lemma PieceOf(name: string, rest: string)
    requires (forall i :: 0 <= i < |name| ==> !IsDelim(name[i])) && (rest == "" || IsDelim(rest[0]))
    ensures PieceLength(name + rest) == |name|
  {
    PieceIs(name + rest, |name|);
  }

  // A path splits at each of its delimiters.
  lemma {:induction false} SplitJoin(p: string, d: char, q: string)
    requires IsDelim(d)
    ensures Segments(p + [d] + q) == Segments(p) + Segments(q)
    decreases |p|
  {
    var s := p + [d] + q;
    if p == "" {
      assert s == [d] + q && s[1..] == q;
    } else if IsDelim(p[0]) {
      assert s[1..] == p[1..] + [d] + q;
      SplitJoin(p[1..], d, q);
    } else {
      var n := PieceLength(p);
      PieceIs(s, n);
      assert s[..n] == p[..n] && s[n..] == p[n..] + [d] + q;
      SplitJoin(p[n..], d, q);
    }
  }

  lemma {:induction false} SplitPiece(name: string, rest: string)
    requires name != "" && (forall i :: 0 <= i < |name| ==> !IsDelim(name[i])) && (rest == "" || IsDelim(rest[0]))
    ensures Segments(name + rest) == [name] + Segments(rest)
  {
    PieceOf(name, rest);
    assert (name + rest)[..|name|] == name && (name + rest)[|name|..] == rest;
  }

  lemma SplitDelim(d: char, s: string)
    requires IsDelim(d)
    ensures Segments([d] + s) == Segments(s)
  {
    assert ([d] + s)[1..] == s;
  }

  // Splitting undoes printing.
  lemma {:induction false} SplitText(names: seq<string>)
    requires GoodNames(names)
    ensures Segments(Text(names)) == names
  {
    if names != [] {
      hide Segments;
      var rest := Text(names[1..]);
      assert GoodName(names[0]);
      assert rest != "" ==> rest[0] == '/';
      SplitPiece(names[0], rest);
      SplitDelim('/', names[0] + rest);
      assert Text(names) == ['/'] + (names[0] + rest);
      SplitText(names[1..]);
    }
  }

  // A text has as many characters as its segments have, and one delimiter each at least.
  lemma {:induction false} TextShortest(p: string)
    requires p != "" && IsDelim(p[0])
    ensures |Text(Segments(p))| <= |p|
    decreases |p|
  {
    var q := p[1..];
    if q != "" && !IsDelim(q[0]) {
      var n := PieceLength(q);
      assert Segments(q) == [q[..n]] + Segments(q[n..]);
      assert Segments(q)[1..] == Segments(q[n..]);
      if q[n..] != "" { TextShortest(q[n..]); }
    } else if q != "" {
      TextShortest(q);
    }
  }
}
