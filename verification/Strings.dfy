/** C strings: characters up to a terminating NUL. */
module Strings {
  // A string without its terminator.
  predicate Clean(s: string) { forall i :: 0 <= i < |s| ==> s[i] != '\0' }

  // The character that the program reads at `i`.
  function CharAt(s: string, i: nat): char { if i < |s| then s[i] else '\0' }

  function Prefix(s: string, n: nat): (p: string)
    ensures |p| == (if |s| <= n then |s| else n) && p <= s && (|s| <= n ==> p == s)
  {
    if |s| <= n then s else s[..n]
  }

  lemma CleanPrefix(s: string, n: nat)
    requires Clean(s)
    ensures Clean(Prefix(s, n))
  {
  }

  // Zero exactly if the first `n` characters agree, and else the difference of the first two that do not.
  method StrNCmp(a: string, b: string, n: nat) returns (r: int)
    requires Clean(a) && Clean(b)
    ensures r == 0 <==> Prefix(a, n) == Prefix(b, n)
    ensures r != 0 ==> exists i :: 0 <= i < n && FirstDifference(a, b, i) && r == CharAt(a, i) as int - CharAt(b, i) as int
  {
    var i := 0;
    while i < n
      invariant i <= n && i <= |a| && i <= |b| && a[..i] == b[..i]
    {
      var x, y := CharAt(a, i), CharAt(b, i);
      if x != y {
        assert Prefix(a, n) == Prefix(b, n) ==> CharAt(Prefix(a, n), i) == CharAt(Prefix(b, n), i);
        assert FirstDifference(a, b, i);
        return x as int - y as int;
      }
      if x == '\0' {
        assert a == a[..i] && b == b[..i];
        return 0;
      }
      i := i + 1;
    }
    assert Prefix(a, n) == a[..n] && Prefix(b, n) == b[..n];
    return 0;
  }

  // Two strings agree up to `i` and differ there, the terminator counting as a character.
  predicate FirstDifference(a: string, b: string, i: nat) {
    CharAt(a, i) != CharAt(b, i) && i <= |a| && i <= |b| && a[..i] == b[..i]
  }
}
