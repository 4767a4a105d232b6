/** Machine words, their alignment macros, and the bit fields of a page-table entry.
    A bit field of a word is what the C union makes it: the word divided by a power of two,
    modulo another. */
module Words {
  type Word = w: nat | w < 0x1_0000_0000_0000_0000

  const PAGE_SIZE: nat := 4096

  // ----- alignment (include/utils/utils.h) -----

  function AlignUp(x: nat): (r: nat)
    ensures r % PAGE_SIZE == 0 && x <= r < x + PAGE_SIZE
  {
    (x + PAGE_SIZE - 1) / PAGE_SIZE * PAGE_SIZE
  }

  function AlignDown(x: nat): (r: nat)
    ensures r % PAGE_SIZE == 0 && r <= x < r + PAGE_SIZE
  {
    x / PAGE_SIZE * PAGE_SIZE
  }

  // The number of pages that `PAGE_ROUND(size) / PAGE_SIZE` computes.
  function PagesFor(size: nat): (n: nat)
    ensures n * PAGE_SIZE == AlignUp(size)
  {
    AlignUp(size) / PAGE_SIZE
  }

  // ----- page-table entries (include/memory/vmm.h) -----

  const F_PRESENT: Word := 1
  const F_WRITE: Word := 2
  const F_USER: Word := 4
  const F_NX: Word := 0x8000_0000_0000_0000

  predicate Present(w: Word) { w % 2 == 1 }

  predicate Writable(w: Word) { w / 2 % 2 == 1 }

  predicate UserBit(w: Word) { w / 4 % 2 == 1 }

  // Bit 63.
  predicate NoExecute(w: Word) { w >= 0x8000_0000_0000_0000 }

  // The 40-bit frame number in bits 12 to 51 of an entry or of a physical address.
  function FrameOf(w: Word): nat { w / 4096 % 0x100_0000_0000 }

  // Flag words carry no address bits.
  predicate IsFlags(w: Word) { FrameOf(w) == 0 }

  // A word from its three parts: bits 52 to 63, the frame number, bits 0 to 11.
  function Pack(high: nat, frame: nat, low: nat): (w: Word)
    requires high < 0x1000 && frame < 0x100_0000_0000 && low < 4096
    ensures FrameOf(w) == frame && w % 4096 == low && w / 0x10_0000_0000_0000 == high
  {
    var upper := high * 0x100_0000_0000 + frame;
    assert upper / 0x100_0000_0000 == high && upper % 0x100_0000_0000 == frame;
    assert (upper * 4096 + low) / 4096 == upper;
    upper * 4096 + low
  }

  lemma Parity(a: nat, b: nat)
    ensures (2 * a + b) % 2 == b % 2
  {
  }

  lemma LowBits(w: Word)
    ensures Present(w) == Present(w % 4096)
    ensures Writable(w) == Writable(w % 4096)
    ensures UserBit(w) == UserBit(w % 4096)
  {
    var q, l := w / 4096, w % 4096;
    assert w == q * 4096 + l;
    Parity(q * 2048, l);
    assert w / 2 == 2 * (q * 1024) + l / 2;
    Parity(q * 1024, l / 2);
    assert w / 4 == 2 * (q * 512) + l / 4;
    Parity(q * 512, l / 4);
  }

  lemma HighBit(w: Word)
    ensures NoExecute(w) == (w / 0x10_0000_0000_0000 >= 0x800)
  {
  }

  lemma Digits(rest: nat, b2: nat, b1: nat, b0: nat)
    requires b0 < 2 && b1 < 2 && b2 < 2
    ensures var r := rest * 8 + b2 * 4 + b1 * 2 + b0;
            r % 2 == b0 && r / 2 % 2 == b1 && r / 4 % 2 == b2
  {
    var r := rest * 8 + b2 * 4 + b1 * 2 + b0;
    Parity(rest * 4 + b2 * 2 + b1, b0);
    assert r / 2 == 2 * (rest * 2 + b2) + b1;
    Parity(rest * 2 + b2, b1);
    assert r / 4 == 2 * rest + b2;
    Parity(rest, b2);
  }

  // The low twelve bits with F_WRITE set if asked for, and with F_USER set if asked for.
  function WidenLow(low: nat, write: bool, user: bool): (r: nat)
    requires low < 4096
    ensures r < 4096 && r % 2 == low % 2
    ensures r / 2 % 2 == (if write then 1 else low / 2 % 2)
    ensures r / 4 % 2 == (if user then 1 else low / 4 % 2)
  {
    var b1 := if write then 1 else low / 2 % 2;
    var b2 := if user then 1 else low / 4 % 2;
    Digits(low / 8, b2, b1, low % 2);
    low / 8 * 8 + b2 * 4 + b1 * 2 + low % 2
  }

  lemma Quarter(x: nat)
    ensures x / 4 == x / 2 / 2
  {
  }

  function SetPresent(low: nat): (r: nat)
    requires low < 4096
    ensures r < 4096 && r % 2 == 1 && r / 2 == low / 2
  {
    low / 2 * 2 + 1
  }

  // `(phys & 0x000FFFFFFFFFF000) | flags | F_PRESENT`
  function Leaf(phys: Word, flags: Word): (e: Word)
    requires IsFlags(flags)
    ensures Present(e) && FrameOf(e) == FrameOf(phys)
    ensures Writable(e) == Writable(flags) && UserBit(e) == UserBit(flags)
  {
    var e := Pack(flags / 0x10_0000_0000_0000, FrameOf(phys), SetPresent(flags % 4096));
    LowBits(flags); LowBits(e);
    Quarter(flags % 4096); Quarter(e % 4096);
    e
  }

  // The other bits are those of the flags: no-execute among bits 52 to 63, the cache bits among 1 to 11.
  lemma LeafFlags(phys: Word, flags: Word)
    requires IsFlags(flags)
    ensures Leaf(phys, flags) / 0x10_0000_0000_0000 == flags / 0x10_0000_0000_0000
    ensures Leaf(phys, flags) % 4096 / 2 == flags % 4096 / 2
    ensures NoExecute(Leaf(phys, flags)) == NoExecute(flags)
  {
    HighBit(flags);
    HighBit(Leaf(phys, flags));
  }

  // `(phys & 0x000FFFFFFFFFF000) | F_PRESENT | F_WRITE | (flags & F_USER)`
  function TableEntry(frame: nat, flags: Word): (e: Word)
    requires frame < 0x100_0000_0000
    ensures Present(e) && FrameOf(e) == frame && Writable(e)
    ensures UserBit(e) == UserBit(flags)
  {
    var low := if UserBit(flags) then 7 else 3;
    var e := Pack(0, frame, low);
    LowBits(e);
    assert Present(low) && Writable(low) && UserBit(low) == UserBit(flags);
    e
  }

  // `entry | (flags & (F_USER | F_WRITE))`
  function Widen(entry: Word, flags: Word): (e: Word)
    ensures Present(e) == Present(entry) && FrameOf(e) == FrameOf(entry)
    ensures Writable(e) == (Writable(entry) || Writable(flags))
    ensures UserBit(e) == (UserBit(entry) || UserBit(flags))
  {
    var low := WidenLow(entry % 4096, Writable(flags), UserBit(flags));
    var e := Pack(entry / 0x10_0000_0000_0000, FrameOf(entry), low);
    LowBits(entry); LowBits(e);
    e
  }

  // All other bits: none in a new entry, those of the old one in a wider one.
  lemma TableBits(frame: nat, entry: Word, flags: Word)
    requires frame < 0x100_0000_0000
    ensures TableEntry(frame, flags) / 0x10_0000_0000_0000 == 0 && TableEntry(frame, flags) % 4096 == if UserBit(flags) then 7 else 3
    ensures Widen(entry, flags) / 0x10_0000_0000_0000 == entry / 0x10_0000_0000_0000
    ensures Widen(entry, flags) % 4096 / 8 == entry % 4096 / 8
    ensures !NoExecute(TableEntry(frame, flags)) && NoExecute(Widen(entry, flags)) == NoExecute(entry)
  {
    HighBit(TableEntry(frame, flags));
    HighBit(entry);
    HighBit(Widen(entry, flags));
  }
}
