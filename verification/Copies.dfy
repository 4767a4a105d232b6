/** The word-at-a-time memory routines against the plain byte loops they replace. */
module Copies {
  import opened Words
  import opened Bytes

  function Repeated(b: Byte, n: nat): (s: seq<Byte>)
    ensures |s| == n
  {
    seq(n, _ => b)
  }

  // A 64-bit store.
  method Store64(buf: array<Byte>, i: nat, w: Word)
    requires i + 8 <= buf.Length
    modifies buf
    ensures buf[..] == old(buf[..i]) + UnpackWord(w) + old(buf[i + 8..])
  {
    ghost var was := buf[..];
    var bytes := UnpackWord(w);
    for k := 0 to 8
      invariant buf[..] == was[..i] + bytes[..k] + was[i + k..]
    {
      buf[i + k] := bytes[k];
    }
  }

  // The pattern of eight equal bytes, doubled up from one. The shifted copies do not overlap, so that
  // adding them is the same as joining their bits.
  function Pattern(b: Byte): (w: Word) {
    var p2 := b + b * 0x100;
    var p4 := p2 + p2 * 0x1_0000;
    p4 + p4 * 0x1_0000_0000
  }

  function Ones(n: nat): nat { if n == 0 then 0 else 1 + 256 * Ones(n - 1) }

  lemma {:induction false} RepeatedWord(b: Byte, n: nat)
    ensures WordOf(Repeated(b, n)) == b * Ones(n)
  {
    if n > 0 {
      RepeatedWord(b, n - 1);
      assert Repeated(b, n)[1..] == Repeated(b, n - 1);
    }
  }

  lemma PatternIs(b: Byte)
    ensures UnpackWord(Pattern(b)) == Repeated(b, 8)
  {
    assert Ones(4) == 0x0101_0101;
    assert Ones(8) == 0x0101_0101_0101_0101;
    RepeatedWord(b, 8);
    UnpackPack(Repeated(b, 8));
  }

  lemma UnpackPack(bs: seq<Byte>)
    requires |bs| == 8
    ensures UnpackWord(PackWord(bs)) == bs
  {
    forall k | 0 <= k < 8 ensures UnpackWord(PackWord(bs))[k] == bs[k] {
      WordBytes(bs, k);
    }
  }

  // The first `n` bytes of `row` have replaced those of `was`.
  ghost predicate Done(a: seq<Byte>, was: seq<Byte>, row: seq<Byte>, n: nat) {
    |a| == |was| && n <= |row| <= |was| && forall k :: 0 <= k < |a| ==> a[k] == if k < n then row[k] else was[k]
  }

  lemma OneMore(a: seq<Byte>, was: seq<Byte>, row: seq<Byte>, n: nat, a': seq<Byte>)
    requires Done(a, was, row, n) && n < |row| && a' == a[n := row[n]]
    ensures Done(a', was, row, n + 1)
  {
  }

  lemma EightMore(a: seq<Byte>, was: seq<Byte>, row: seq<Byte>, n: nat, a': seq<Byte>)
    requires Done(a, was, row, n) && n + 8 <= |row| && a' == a[..n] + row[n..n + 8] + a[n + 8..]
    ensures Done(a', was, row, n + 8)
  {
  }

  lemma AllDone(a: seq<Byte>, was: seq<Byte>, row: seq<Byte>)
    requires Done(a, was, row, |row|)
    ensures a == row + was[|row|..]
  {
  }

  // `address` is where the buffer lies; bytes up to a multiple of eight come first, then words.
  method Memset(buf: array<Byte>, address: nat, value: int, size: nat)
    requires size <= buf.Length
    modifies buf
    ensures buf[..] == Repeated(value % 256, size) + old(buf[..])[size..]
  {
    hide UnpackWord; hide Pattern; hide Done;
    var byte: Byte := value % 256;
    ghost var was, row := buf[..], Repeated(byte, size);
    var i := 0;
    assert Done(buf[..], was, row, 0) by { NoneDone(was, row); }
    while (address + i) % 8 != 0 && size - i > 0
      invariant i <= size && Done(buf[..], was, row, i)
      decreases size - i
    {
      ghost var before := buf[..];
      buf[i] := byte;
      OneMore(before, was, row, i, buf[..]);
      i := i + 1;
    }
    var pattern := Pattern(byte);
    PatternIs(byte);
    while size - i >= 8
      invariant i <= size && Done(buf[..], was, row, i)
    {
      ghost var before := buf[..];
      Store64(buf, i, pattern);
      assert row[i..i + 8] == Repeated(byte, 8);
      EightMore(before, was, row, i, buf[..]);
      i := i + 8;
    }
    while size - i > 0
      invariant i <= size && Done(buf[..], was, row, i)
    {
      ghost var before := buf[..];
      buf[i] := byte;
      OneMore(before, was, row, i, buf[..]);
      i := i + 1;
    }
    AllDone(buf[..], was, row);
  }

  lemma NoneDone(was: seq<Byte>, row: seq<Byte>)
    requires |row| <= |was|
    ensures Done(was, was, row, 0)
  {
  }

  // Buffers are the same or do not overlap. Words are used when both addresses agree modulo eight.
  method Memcpy(dst: array<Byte>, dstAddress: nat, src: array<Byte>, srcAddress: nat, size: nat)
    requires size <= dst.Length && size <= src.Length
    modifies dst
    ensures dst[..] == old(src[..size]) + old(dst[..])[size..]
  {
    hide UnpackWord; hide PackWord; hide Done;
    if size == 0 || dst == src {
      return;
    }
    ghost var was, row := dst[..], src[..size];
    var i := 0;
    assert Done(dst[..], was, row, 0) by { NoneDone(was, row); }
    while (dstAddress + i) % 8 != 0 && size - i > 0
      invariant i <= size && Done(dst[..], was, row, i)
      decreases size - i
    {
      ghost var before := dst[..];
      dst[i] := src[i];
      OneMore(before, was, row, i, dst[..]);
      i := i + 1;
    }
    if (srcAddress + i) % 8 == 0 {
      while size - i >= 8
        invariant i <= size && Done(dst[..], was, row, i)
      {
        ghost var before := dst[..];
        var word := PackWord(src[i..i + 8]);
        UnpackPack(src[i..i + 8]);
        Store64(dst, i, word);
        assert row[i..i + 8] == src[i..i + 8];
        EightMore(before, was, row, i, dst[..]);
        i := i + 8;
      }
    }
    while size - i > 0
      invariant i <= size && Done(dst[..], was, row, i)
    {
      ghost var before := dst[..];
      dst[i] := src[i];
      OneMore(before, was, row, i, dst[..]);
      i := i + 1;
    }
    AllDone(dst[..], was, row);
  }

  // Overlapping ranges of one memory: forwards when the destination lies below the source, else
  // backwards, so that no byte is overwritten before it is read.
  method Memmove(mem: array<Byte>, d: nat, s: nat, size: nat)
    requires d + size <= mem.Length && s + size <= mem.Length
    modifies mem
    ensures mem[d..d + size] == old(mem[s..s + size])
    ensures mem[..d] == old(mem[..d]) && mem[d + size..] == old(mem[d + size..])
  {
    if d < s {
      for i := 0 to size
        invariant forall k :: 0 <= k < mem.Length ==> mem[k] == if d <= k < d + i then old(mem[s + (k - d)]) else old(mem[k])
      {
        mem[d + i] := mem[s + i];
      }
    } else {
      for i := size downto 0
        invariant forall k :: 0 <= k < mem.Length ==> mem[k] == if d + i <= k < d + size then old(mem[s + (k - d)]) else old(mem[k])
      {
        mem[d + i] := mem[s + i];
      }
    }
  }
}
