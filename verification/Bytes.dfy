/** Words as the eight bytes that hold them, least significant first. */
module Bytes {
  import opened Words

  type Byte = b: nat | b < 256

  function ByteOf(w: nat, k: nat): nat {
    if k == 0 then w % 256 else ByteOf(w / 256, k - 1)
  }

  function WordOf(bs: seq<Byte>): nat {
    if bs == [] then 0 else bs[0] + 256 * WordOf(bs[1..])
  }

  function Power(k: nat): nat { if k == 0 then 1 else 256 * Power(k - 1) }

  lemma {:induction false} WordBound(bs: seq<Byte>)
    ensures WordOf(bs) < Power(|bs|)
  {
    if bs != [] {
      WordBound(bs[1..]);
    }
  }

  lemma {:induction false} WordBytes(bs: seq<Byte>, k: nat)
    requires k < |bs|
    ensures ByteOf(WordOf(bs), k) == bs[k]
  {
    var rest := WordOf(bs[1..]);
    assert (bs[0] + 256 * rest) % 256 == bs[0] && (bs[0] + 256 * rest) / 256 == rest;
    if k > 0 {
      WordBytes(bs[1..], k - 1);
    }
  }

  lemma EightBytes()
    ensures Power(8) == 0x1_0000_0000_0000_0000
  {
    assert Power(4) == 0x1_0000_0000;
  }

  function PackWord(bs: seq<Byte>): (w: Word)
    requires |bs| == 8
  {
    WordBound(bs);
    EightBytes();
    WordOf(bs)
  }

  function UnpackWord(w: Word): (bs: seq<Byte>)
    ensures |bs| == 8
  {
    ByteBounds(w);
    seq<Byte>(8, k requires 0 <= k < 8 => ByteOf(w, k))
  }

  lemma {:induction false} ByteBound(w: nat, k: nat)
    ensures ByteOf(w, k) < 256
  {
    if k > 0 {
      ByteBound(w / 256, k - 1);
    }
  }

  lemma ByteBounds(w: nat)
    ensures forall k: nat :: ByteOf(w, k) < 256
  {
    forall k: nat ensures ByteOf(w, k) < 256 {
      ByteBound(w, k);
    }
  }

  // A word below 256^n is given back by its n bytes.
  lemma {:induction false} BytesOfWord(w: nat, bs: seq<Byte>)
    requires w < Power(|bs|) && forall k :: 0 <= k < |bs| ==> bs[k] == ByteOf(w, k)
    ensures WordOf(bs) == w
  {
    if bs != [] {
      assert bs[0] == w % 256;
      forall k | 0 <= k < |bs| - 1 ensures bs[1..][k] == ByteOf(w / 256, k) {
        assert bs[1..][k] == bs[k + 1];
      }
      BytesOfWord(w / 256, bs[1..]);
    }
  }

  lemma PackUnpack(w: Word)
    ensures PackWord(UnpackWord(w)) == w
  {
    EightBytes();
    BytesOfWord(w, UnpackWord(w));
  }
}
