/** The archive format: 512-byte headers with character fields, each followed by the content padded to
    whole 512-byte blocks ("ustar Interchange Format", pax utility, IEEE Std 1003.1). */
module Ustar {
  import opened Strings

  const BLOCK: nat := 512
  const NAME_SIZE: nat := 100
  const SIZE_AT: nat := 124
  const TYPE_AT: nat := 156
  const MAGIC_AT: nat := 257
  const PREFIX_AT: nat := 345
  const PREFIX_SIZE: nat := 155

  // The string in memory at `off`, up to its NUL.
  function CString(b: string, off: nat): (s: string)
    ensures Clean(s)
    decreases |b| - off
  {
    if off >= |b| || b[off] == '\0' then "" else [b[off]] + CString(b, off + 1)
  }

  lemma {:induction false} CStringIs(b: string, off: nat, n: nat)
    requires off + n <= |b| && CharAt(b, off + n) == '\0' && forall i :: off <= i < off + n ==> b[i] != '\0'
    ensures CString(b, off) == b[off..off + n]
    decreases n
  {
    if n > 0 {
      CStringIs(b, off + 1, n - 1);
      assert b[off..off + n] == [b[off]] + b[off + 1..off + n];
    }
  }

  // ----- numbers -----

  function DigitValue(c: char): int {
    if '0' <= c <= '9' then c as int - '0' as int
    else if 'a' <= c <= 'z' then c as int - 'a' as int + 10
    else if 'A' <= c <= 'Z' then c as int - 'A' as int + 10
    else -1
  }

  predicate IsSpace(c: char) { c == ' ' || c == '\t' || c == '\n' || c == 11 as char || c == 12 as char || c == '\r' }

  predicate IsDigit(c: char, base: int) { 0 <= DigitValue(c) < base }

  // Digits from `i` on, accumulated in a 64-bit word.
  function Accumulated(b: string, i: nat, base: int, acc: nat): nat
    decreases |b| - i
  {
    if !IsDigit(CharAt(b, i), base) then acc
    else Accumulated(b, i + 1, base, (acc * base + DigitValue(CharAt(b, i))) % 0x1_0000_0000_0000_0000)
  }

  function DigitsEnd(b: string, i: nat, base: int): (j: nat)
    ensures i <= j
    decreases |b| - i
  {
    if IsDigit(CharAt(b, i), base) then DigitsEnd(b, i + 1, base) else i
  }

  function SkipSpaces(b: string, i: nat): nat
    decreases |b| - i
  {
    if IsSpace(CharAt(b, i)) then SkipSpaces(b, i + 1) else i
  }

  function Signed(acc: nat): (r: int)
    ensures acc < 0x1_0000_0000_0000_0000 ==> -0x8000_0000_0000_0000 <= r < 0x8000_0000_0000_0000 && (r == acc || r == acc - 0x1_0000_0000_0000_0000)
  {
    if acc < 0x8000_0000_0000_0000 then acc else acc - 0x1_0000_0000_0000_0000
  }

  // Behind the spaces and the sign.
  function NumberStart(b: string, off: nat): nat {
    var i := SkipSpaces(b, off);
    if CharAt(b, i) == '-' || CharAt(b, i) == '+' then i + 1 else i
  }

  predicate HexMark(b: string, i: nat) { CharAt(b, i) == '0' && (CharAt(b, i + 1) == 'x' || CharAt(b, i + 1) == 'X') }

  // Base 0 is decided by the prefix.
  function RealBase(b: string, i: nat, base: int): int {
    if base != 0 then base else if HexMark(b, i) then 16 else if CharAt(b, i) == '0' then 8 else 10
  }

  function DigitsStart(b: string, i: nat, base: int): (j: nat)
    ensures i <= j
  {
    if (base == 0 || base == 16) && HexMark(b, i) then i + 2 else if base == 0 && CharAt(b, i) == '0' then i + 1 else i
  }

  // Spaces, a sign, a prefix, digits.
  function Number(b: string, off: nat, base: int): int {
    var i := NumberStart(b, off);
    var res := Signed(Accumulated(b, DigitsStart(b, i, base), RealBase(b, i, base), 0));
    if CharAt(b, SkipSpaces(b, off)) == '-' then -res else res
  }

  // Behind the last digit, or `off` if there is none.
  function NumberEnd(b: string, off: nat, base: int): nat {
    var i := NumberStart(b, off);
    var j := DigitsStart(b, i, base);
    var end := DigitsEnd(b, j, RealBase(b, i, base));
    if end == j then off else end
  }

  // The digits of `strtol` from `start` on.
  method ReadDigits(b: string, start: nat, base: int) returns (acc: nat, end: nat)
    ensures acc == Accumulated(b, start, base, 0) && end == DigitsEnd(b, start, base)
  {
    hide DigitValue;
    acc, end := 0, start;
    while true
      invariant start <= end && DigitsEnd(b, end, base) == DigitsEnd(b, start, base)
      invariant Accumulated(b, end, base, acc) == Accumulated(b, start, base, 0)
      decreases |b| - end
    {
      PastEnd(b, end);
      var v := DigitValue(CharAt(b, end));
      if v < 0 || v >= base {
        break;
      }
      acc := (acc * base + v) % 0x1_0000_0000_0000_0000;
      end := end + 1;
    }
  }

  lemma PastEnd(b: string, i: nat)
    ensures i >= |b| ==> DigitValue(CharAt(b, i)) < 0
  {
  }

  // `strtol`; `end` is what it stores through its second argument.
  method Strtol(b: string, off: nat, base: int) returns (res: int, end: nat)
    ensures res == Number(b, off, base) && end == NumberEnd(b, off, base)
  {
    hide DigitsEnd; hide Accumulated; hide Signed;
    var s := off;
    while IsSpace(CharAt(b, s))
      invariant SkipSpaces(b, s) == SkipSpaces(b, off)
      decreases |b| - s
    {
      s := s + 1;
    }
    assert s == SkipSpaces(b, off);
    hide IsSpace; hide SkipSpaces;
    var neg := CharAt(b, s) == '-';
    if CharAt(b, s) == '-' || CharAt(b, s) == '+' {
      s := s + 1;
    }
    assert s == NumberStart(b, off);
    var radix := base;
    if base == 0 {
      if CharAt(b, s) == '0' && (CharAt(b, s + 1) == 'x' || CharAt(b, s + 1) == 'X') {
        s, radix := s + 2, 16;
      } else if CharAt(b, s) == '0' {
        s, radix := s + 1, 8;
      } else {
        radix := 10;
      }
    } else if base == 16 && CharAt(b, s) == '0' && (CharAt(b, s + 1) == 'x' || CharAt(b, s + 1) == 'X') {
      s := s + 2;
    }
    var acc, last := ReadDigits(b, s, radix);
    res := Signed(acc);
    if neg {
      res := -res;
    }
    end := if last != s then last else off;
  }

  // ----- what numbers mean -----

  // The character stands for digit `d`, in either case.
  predicate Writes(c: char, d: nat, radix: nat) {
    d < radix && if d < 10 then c as int == '0' as int + d else d < 36 && (c as int == 'a' as int + d - 10 || c as int == 'A' as int + d - 10)
  }

  function Value(ds: seq<nat>, radix: nat): nat {
    if ds == [] then 0 else Value(ds[..|ds| - 1], radix) * radix + ds[|ds| - 1]
  }

  predicate Blank(c: char) { c in [' ', '\t', '\n', 11 as char, 12 as char, '\r'] }

  lemma DigitMeans(c: char, radix: nat)
    requires radix <= 36
    ensures forall d :: Writes(c, d, radix) ==> IsDigit(c, radix) && DigitValue(c) == d && !IsSpace(c) && c != '-' && c != '+'
    ensures NoDigit(c, radix) ==> !IsDigit(c, radix)
  {
    if IsDigit(c, radix) { assert Writes(c, DigitValue(c), radix); }
  }

  // The prefix that a base may have, and the radix of the digits behind it.
  predicate Prefixed(base: int, prefix: string, radix: nat, first: nat) {
    || (base == 0 && prefix in ["0x", "0X"] && radix == 16)
    || (base == 0 && prefix == "0" && radix == 8)
    || (base == 0 && prefix == "" && radix == 10 && first != 0)
    || (base == 16 && prefix in ["0x", "0X", ""] && radix == 16)
    || (2 <= base <= 36 && base != 16 && prefix == "" && radix == base)
  }

  lemma {:induction false} BlanksSkipped(b: string, i: nat, n: nat)
    requires i + n <= |b| && (forall k :: i <= k < i + n ==> Blank(b[k])) && !IsSpace(CharAt(b, i + n))
    ensures SkipSpaces(b, i) == i + n
    decreases n
  {
    if n > 0 { BlanksSkipped(b, i + 1, n - 1); }
  }

  lemma ModStep(x: nat, radix: nat, d: nat)
    ensures (x % 0x1_0000_0000_0000_0000 * radix + d) % 0x1_0000_0000_0000_0000 == (x * radix + d) % 0x1_0000_0000_0000_0000
  {
    var m := 0x1_0000_0000_0000_0000;
    var q, r := x / m, x % m;
    var y, z := q * radix, r * radix + d;
    assert x * radix + d == y * m + z by {
      assert x == q * m + r;
      assert (q * m + r) * radix == q * radix * m + r * radix;
    }
    var u, w := z / m, z % m;
    assert y * m + z == (y + u) * m + w by { assert z == u * m + w; }
    Remainder(y + u, w);
  }

  lemma Remainder(q: nat, r: nat)
    requires r < 0x1_0000_0000_0000_0000
    ensures (q * 0x1_0000_0000_0000_0000 + r) % 0x1_0000_0000_0000_0000 == r
  {
  }

  ghost predicate Digits(b: string, i: nat, ds: seq<nat>, radix: nat) {
    && i + |ds| <= |b| && (forall k :: 0 <= k < |ds| ==> Writes(b[i + k], ds[k], radix))
    && NoDigit(CharAt(b, i + |ds|), radix)
  }

  predicate NoDigit(c: char, radix: nat) {
    forall d: nat :: d < radix ==> !Writes(c, d, radix)
  }

  // From digit `n` on: the digits before it have been read.
  lemma {:induction false} DigitsRead(b: string, i: nat, ds: seq<nat>, radix: nat, n: nat)
    requires Digits(b, i, ds, radix) && n <= |ds| && radix <= 36
    ensures Accumulated(b, i + n, radix, Value(ds[..n], radix) % 0x1_0000_0000_0000_0000) == Value(ds, radix) % 0x1_0000_0000_0000_0000
    ensures DigitsEnd(b, i + n, radix) == i + |ds|
    decreases |ds| - n
  {
    hide IsDigit; hide DigitValue; hide Writes; hide NoDigit;
    DigitMeans(CharAt(b, i + n), radix);
    if n == |ds| {
      assert ds[..n] == ds;
    } else {
      DigitsRead(b, i, ds, radix, n + 1);
      assert ds[..n + 1][..n] == ds[..n];
      assert Writes(b[i + n], ds[n], radix);
      ModStep(Value(ds[..n], radix), radix, ds[n]);
    }
  }

  // Where the blanks end and where the sign does. What follows is neither.
  lemma SignRead(b: string, off: nat, blanks: string, sign: string)
    requires var s := off + |blanks|; s + |sign| <= |b| && b[off..s + |sign|] == blanks + sign
    requires (forall k :: 0 <= k < |blanks| ==> Blank(blanks[k])) && sign in ["", "+", "-"]
    requires var c := CharAt(b, off + |blanks| + |sign|); !IsSpace(c) && c != '+' && c != '-'
    ensures var s := off + |blanks|;
      SkipSpaces(b, off) == s && (CharAt(b, s) == '-' <==> sign == "-") && NumberStart(b, off) == s + |sign|
  {
    hide SkipSpaces;
    var s, t := off + |blanks|, blanks + sign;
    forall k | off <= k < s + |sign| ensures b[k] == t[k - off] {
      assert b[k] == b[off..s + |sign|][k - off];
    }
    assert sign != "" ==> b[s] == sign[0];
    BlanksSkipped(b, off, |blanks|);
  }

  // Where the digits start.
  lemma PrefixRead(b: string, j: nat, prefix: string, base: int, radix: nat, ds: seq<nat>)
    requires var i := j + |prefix|; i <= |b| && b[j..i] == prefix && Digits(b, i, ds, radix)
    requires ds != [] && Prefixed(base, prefix, radix, ds[0])
    requires base == 16 && prefix == "" && ds == [0] ==> CharAt(b, j + 1) !in ['x', 'X']
    ensures DigitsStart(b, j, base) == j + |prefix| && RealBase(b, j, base) == radix
    ensures !IsSpace(CharAt(b, j)) && CharAt(b, j) != '+' && CharAt(b, j) != '-'
  {
    hide NoDigit;
    var i := j + |prefix|;
    assert prefix != "" ==> b[j] == b[j..i][0] && (|prefix| == 2 ==> b[j + 1] == b[j..i][1]);
    assert Writes(b[i + 0], ds[0], radix);
    if |ds| > 1 { assert Writes(b[i + 1], ds[1], radix); }
  }

  // Blanks, a sign, a prefix and digits are read as the number that they write, modulo 2^64, in every base.
  lemma NumberReads(b: string, off: nat, blanks: string, sign: string, prefix: string, base: int, radix: nat, ds: seq<nat>)
    requires var i := off + |blanks| + |sign| + |prefix|; i <= |b| && b[off..i] == blanks + sign + prefix && Digits(b, i, ds, radix)
    requires (forall k :: 0 <= k < |blanks| ==> Blank(blanks[k])) && sign in ["", "+", "-"]
    requires ds != [] && Prefixed(base, prefix, radix, ds[0])
    requires base == 16 && prefix == "" && ds == [0] ==> CharAt(b, off + |blanks| + |sign| + 1) !in ['x', 'X']
    ensures NumberEnd(b, off, base) == off + |blanks| + |sign| + |prefix| + |ds|
    ensures var r := Signed(Value(ds, radix) % 0x1_0000_0000_0000_0000); Number(b, off, base) == if sign == "-" then -r else r
    ensures Value(ds, radix) < 0x8000_0000_0000_0000 ==> Number(b, off, base) == if sign == "-" then 0 - Value(ds, radix) else Value(ds, radix)
  {
    hide Writes; hide Prefixed; hide IsSpace; hide Blank; hide Digits; hide SkipSpaces; hide Accumulated; hide DigitsEnd; hide DigitsStart; hide RealBase; hide NumberStart; hide Value;
    var i := off + |blanks| + |sign| + |prefix|;
    var j := off + |blanks| + |sign|;
    var t := blanks + sign;
    assert b[off..j] == b[off..i][..j - off] == (t + prefix)[..|t|] == t && b[j..i] == b[off..i][j - off..] == (t + prefix)[|t|..] == prefix;
    PrefixRead(b, j, prefix, base, radix, ds);
    SignRead(b, off, blanks, sign);
    RadixSmall(base, prefix, radix, ds[0]);
    DigitsRead(b, i, ds, radix, 0);
    NoValue(ds, radix);
  }

  // Without a digit behind blanks and sign the number is zero, and the end is where reading began.
  lemma NumberMissing(b: string, off: nat, blanks: string, sign: string, base: nat)
    requires var s := off + |blanks|; s + |sign| <= |b| && b[off..s + |sign|] == blanks + sign
    requires (forall k :: 0 <= k < |blanks| ==> Blank(blanks[k])) && sign in ["", "+", "-"]
    requires var c := CharAt(b, off + |blanks| + |sign|); !Blank(c) && c != '+' && c != '-' && NoDigit(c, base)
    requires 2 <= base <= 36
    ensures Number(b, off, base) == 0 && NumberEnd(b, off, base) == off
  {
    var c := CharAt(b, off + |blanks| + |sign|);
    SignRead(b, off, blanks, sign);
    DigitMeans(c, base);
    assert c == '0' ==> Writes(c, 0, base);
  }

  lemma RadixSmall(base: int, prefix: string, radix: nat, first: nat)
    requires Prefixed(base, prefix, radix, first)
    ensures 2 <= radix <= 36
  {
  }

  lemma NoValue(ds: seq<nat>, radix: nat)
    ensures Value(ds[..0], radix) == 0
  {
  }

  // `n` in `w` octal digits.
  function Octal(n: nat, w: nat): (s: string)
    ensures |s| == w
  {
    if w == 0 then "" else Octal(n / 8, w - 1) + [('0' as int + n % 8) as char]
  }

  function Power8(w: nat): nat { if w == 0 then 1 else 8 * Power8(w - 1) }

  function Places(n: nat, w: nat): (ds: seq<nat>)
    ensures |ds| == w
  {
    if w == 0 then [] else Places(n / 8, w - 1) + [n % 8]
  }

  lemma {:induction false} PlacesWrite(n: nat, w: nat)
    ensures forall k :: 0 <= k < w ==> Writes(Octal(n, w)[k], Places(n, w)[k], 8)
  {
    if w > 0 { PlacesWrite(n / 8, w - 1); }
  }

  lemma {:induction false} PlacesValue(n: nat, w: nat)
    requires n < Power8(w)
    ensures Value(Places(n, w), 8) == n
  {
    if w > 0 { PlacesValue(n / 8, w - 1); }
  }

  lemma EightToTheEleventh()
    ensures Power8(11) == 0x2_0000_0000
  {
    assert Power8(5) == 0x8000 && Power8(6) == 0x4_0000;
    assert Power8(8) == 0x100_0000;
  }

  // Reading undoes printing: eleven octal digits before a space or a NUL.
  lemma OctalRoundTrip(b: string, off: nat, n: nat)
    requires off + 12 <= |b| && b[off..off + 11] == Octal(n, 11) && (b[off + 11] == '\0' || b[off + 11] == ' ') && n < 0x2_0000_0000
    ensures Number(b, off, 8) == n
  {
    hide Number; hide Octal; hide Places; hide Value;
    EightToTheEleventh();
    PlacesValue(n, 11);
    PlacesWrite(n, 11);
    forall k | 0 <= k < 11 ensures Writes(b[off + k], Places(n, 11)[k], 8) {
      assert b[off + k] == b[off..off + 11][k];
    }
    assert Digits(b, off, Places(n, 11), 8);
    NumberReads(b, off, "", "", "", 8, 8, Places(n, 11));
  }

  // ----- headers -----

  datatype Entry = Entry(name: string, isDir: bool, content: string)

  function Aligned(size: nat): (a: nat)
    ensures a % BLOCK == 0 && size <= a < size + BLOCK
  {
    (size + 511) / 512 * 512
  }

  // The header of an entry whose name the format puts into the name field alone, ended by a NUL.
  ghost predicate HeaderAt(b: string, off: nat, e: Entry) {
    && off + BLOCK + |e.content| <= |b| && |e.content| < 0x2_0000_0000
    && 0 < |e.name| < NAME_SIZE && Clean(e.name) && b[off..off + |e.name|] == e.name && b[off + |e.name|] == '\0' && b[off + PREFIX_AT] == '\0'
    && b[off + SIZE_AT..off + SIZE_AT + 11] == Octal(|e.content|, 11)
    && (b[off + SIZE_AT + 11] == '\0' || b[off + SIZE_AT + 11] == ' ')
    && (e.isDir <==> b[off + TYPE_AT] == '5') && b[off + MAGIC_AT..off + MAGIC_AT + 5] == "ustar"
    && b[off + BLOCK..off + BLOCK + |e.content|] == e.content
  }

  // The entries one after the other, ended by the end of the memory or a header without a name.
  ghost predicate Archive(b: string, off: nat, es: seq<Entry>)
    decreases |es|
  {
    if es == [] then off >= |b| || b[off] == '\0'
    else HeaderAt(b, off, es[0]) && Archive(b, off + BLOCK + Aligned(|es[0].content|), es[1..])
  }

  // Where the header of entry `k` starts.
  function HeaderOf(off: nat, es: seq<Entry>, k: nat): nat
    requires k <= |es|
    decreases k
  {
    if k == 0 then off else HeaderOf(off + BLOCK + Aligned(|es[0].content|), es[1..], k - 1)
  }

  lemma {:induction false} EntryAt(b: string, off: nat, es: seq<Entry>, k: nat)
    requires Archive(b, off, es) && k <= |es|
    ensures Archive(b, HeaderOf(off, es, k), es[k..])
    ensures k < |es| ==> HeaderOf(off, es, k + 1) == HeaderOf(off, es, k) + BLOCK + Aligned(|es[k].content|)
    decreases k
  {
    if k == 0 {
      assert es[0..] == es;
    } else {
      EntryAt(b, off + BLOCK + Aligned(|es[0].content|), es[1..], k - 1);
      assert es[1..][k - 1..] == es[k..];
    }
  }

  // A field of `n` characters, up to a NUL if there is one.
  function Field(b: string, off: nat, n: nat): (s: string)
    ensures |s| <= n && Clean(s) && s <= CString(b, off)
    ensures |s| < n ==> s == CString(b, off)
    decreases n
  {
    if n == 0 || off >= |b| || b[off] == '\0' then "" else [b[off]] + Field(b, off + 1, n - 1)
  }

  // The name by the format: the prefix field, if it is used, a slash, and the name field.
  function FormatName(b: string, off: nat): string {
    var prefix, name := Field(b, off + PREFIX_AT, PREFIX_SIZE), Field(b, off, NAME_SIZE);
    if prefix == "" then name else prefix + "/" + name
  }

  // What the reader takes from a header.
  lemma HeaderRead(b: string, off: nat, e: Entry)
    requires HeaderAt(b, off, e)
    ensures CString(b, off) == e.name == FormatName(b, off) && Number(b, off + SIZE_AT, 8) == |e.content|
  {
    forall i | off <= i < off + |e.name| ensures b[i] != '\0' {
      assert b[i] == b[off..off + |e.name|][i - off];
    }
    CStringIs(b, off, |e.name|);
    OctalRoundTrip(b, off + SIZE_AT, |e.content|);
  }

  function Slashes(s: string): nat {
    if s == "" then 0 else (if s[0] == '/' then 1 else 0) + Slashes(s[1..])
  }

  lemma {:induction false} SlashesAppend(a: string, b: string)
    ensures Slashes(a + b) == Slashes(a) + Slashes(b)
  {
    if a == "" {
      assert a + b == b;
    } else {
      assert (a + b)[1..] == a[1..] + b;
      SlashesAppend(a[1..], b);
    }
  }

  lemma {:induction false} NoSlash(s: string)
    requires '/' !in s
    ensures Slashes(s) == 0
  {
    if s != "" { NoSlash(s[1..]); }
  }

  // A full field is read together with what follows it.
  lemma {:induction false} FieldThen(b: string, off: nat, n: nat)
    ensures |Field(b, off, n)| == n ==> CString(b, off) == Field(b, off, n) + CString(b, off + n)
    decreases n
  {
    if n > 0 && off < |b| && b[off] != '\0' { FieldThen(b, off + 1, n - 1); }
  }

  // The reader takes the name of the format exactly if the header does not use the prefix field, and a
  // name that fills all of the name field is followed by a NUL. The numbers behind the name field contain
  // no slash.
  lemma NameRead(b: string, off: nat)
    requires off + BLOCK <= |b| && '/' !in CString(b, off + NAME_SIZE)
    ensures CString(b, off) == FormatName(b, off) <==>
              b[off + PREFIX_AT] == '\0' && (|Field(b, off, NAME_SIZE)| < NAME_SIZE || b[off + NAME_SIZE] == '\0')
  {
    hide CString; hide Field;
    var prefix, name, rest := Field(b, off + PREFIX_AT, PREFIX_SIZE), Field(b, off, NAME_SIZE), CString(b, off + NAME_SIZE);
    FieldThen(b, off, NAME_SIZE);
    FieldEmpty(b, off + PREFIX_AT, PREFIX_SIZE);
    StringEmpty(b, off + NAME_SIZE);
    NoSlash(rest);
    SlashesAppend(name, rest);
    SlashesAppend(prefix + "/", name);
    SlashesAppend(prefix, "/");
    if |name| == NAME_SIZE && prefix == "" && CString(b, off) == name {
      assert |name + rest| == |name| + |rest|;
    }
  }

  lemma FieldEmpty(b: string, off: nat, n: nat)
    requires off < |b| && n > 0
    ensures Field(b, off, n) == "" <==> b[off] == '\0'
  {
  }

  lemma StringEmpty(b: string, off: nat)
    requires off < |b|
    ensures CString(b, off) == "" <==> b[off] == '\0'
  {
  }

  // A leading "./" is not part of the stored path.
  function StoredPath(name: string): (p: string)
    ensures |p| <= |name|
  {
    if |name| >= 2 && name[0] == '.' && name[1] == '/' then name[2..] else name
  }
}
