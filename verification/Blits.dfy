/** Clipped drawing: the routines that move two pixels in one word, and the inverted outline. */
module Blits {
  import opened Prelude

  type Pixel = bv32

  // The visible part of the framebuffer memory. A row takes `pitch` pixels, of which `width` are seen.
  class Framebuffer {
    const width: nat
    const height: nat
    const pitch: nat
    const pixels: array<Pixel>

    ghost predicate Valid() {
      0 < width <= pitch && height * pitch <= pixels.Length
    }
  }

  predicate Within(v: int, from: int, length: int) { from <= v < from + length }

  // The pixel at memory index `i` lies in the rectangle.
  predicate InRect(i: int, pitch: nat, x: int, y: int, w: int, h: int) {
    pitch > 0 && Within(i % pitch, x, w) && Within(i / pitch, y, h)
  }

  // In the rectangle, in the clip, and seen.
  predicate Drawn(i: int, pitch: nat, width: nat, height: nat, x: int, y: int, w: int, h: int, cx: int, cy: int, cw: int, ch: int) {
    InRect(i, pitch, x, y, w, h) && InRect(i, pitch, cx, cy, cw, ch) && InRect(i, pitch, 0, 0, width, height)
  }

  datatype Clip = Nothing | Visible(x: nat, y: nat, w: nat, h: nat)

  // Exactly the points in the rectangle, the clip and the framebuffer.
  method ClipRect(width: nat, height: nat, x: int, y: int, w: int, h: int, cx: int, cy: int, cw: int, ch: int) returns (r: Clip)
    ensures r.Visible? ==> r.w > 0 && r.h > 0 && r.x + r.w <= width && r.y + r.h <= height && x <= r.x && y <= r.y && r.x + r.w <= x + w && r.y + r.h <= y + h
    ensures Clips(r, width, height, x, y, w, h, cx, cy, cw, ch)
  {
    if w <= 0 || h <= 0 || cw <= 0 || ch <= 0 {
      return Nothing;
    }
    var left, top := Max(x, cx), Max(y, cy);
    var right, bottom := Min(x + w, cx + cw), Min(y + h, cy + ch);
    left, top := Max(left, 0), Max(top, 0);
    right, bottom := Min(right, width), Min(bottom, height);
    if left >= right || top >= bottom {
      return Nothing;
    }
    return Visible(left, top, right - left, bottom - top);
  }

  // ----- rows in memory -----

  // Where a pixel lies.
  function PixelAt(pitch: nat, x: int, y: int): int { y * pitch + x }

  lemma RowIs(i: nat, pitch: nat, r: nat, x: nat, w: nat)
    requires pitch > 0 && x + w <= pitch
    ensures i / pitch == r && Within(i % pitch, x, w) <==> r * pitch + x <= i < r * pitch + x + w
  {
    var q, m := i / pitch, i % pitch;
    assert i == q * pitch + m;
    if r * pitch + x <= i < r * pitch + x + w {
      assert (r - 1) * pitch + pitch == r * pitch && (r + 1) * pitch == r * pitch + pitch;
      if q < r { Ordered(q + 1, r, pitch); }
      if q > r { Ordered(r + 1, q, pitch); }
    }
  }

  lemma Ordered(a: nat, b: nat, k: nat)
    requires a <= b
    ensures a * k <= b * k
  {
  }

  lemma RowFits(x: nat, y: nat, length: nat, height: nat, pitch: nat, total: nat)
    requires y < height && x + length <= pitch && height * pitch <= total
    ensures 0 <= PixelAt(pitch, x, y) && PixelAt(pitch, x, y) + length <= total
  {
    Ordered(y + 1, height, pitch);
    Ordered(0, y, pitch);
    assert (y + 1) * pitch == y * pitch + pitch;
  }

  // ----- two pixels in a word -----

  function Pair(low: Pixel, high: Pixel): bv64 {
    (low as bv64) | ((high as bv64) << 32)
  }

  lemma PairParts(low: Pixel, high: Pixel)
    ensures (Pair(low, high) & 0xFFFF_FFFF) as Pixel == low && (Pair(low, high) >> 32) as Pixel == high
  {
  }

  method StorePair(a: array<Pixel>, i: nat, word: bv64)
    requires i + 1 < a.Length
    modifies a
    ensures a[..] == old(a[..])[i := (word & 0xFFFF_FFFF) as Pixel][i + 1 := (word >> 32) as Pixel]
  {
    a[i] := (word & 0xFFFF_FFFF) as Pixel;
    a[i + 1] := (word >> 32) as Pixel;
  }

  // The pixels of `was` with `n` of them, from `at` on, replaced by those of `row`.
  ghost predicate RowDone(a: array<Pixel>, was: seq<Pixel>, at: nat, row: seq<Pixel>, n: nat)
    reads a
  {
    |was| == a.Length && at + |row| <= a.Length && n <= |row| &&
    forall i :: 0 <= i < a.Length ==> a[i] == if at <= i < at + n then row[i - at] else was[i]
  }

  method CopyPair(a: array<Pixel>, ghost was: seq<Pixel>, at: nat, row: seq<Pixel>, col: nat)
    requires RowDone(a, was, at, row, 2 * col) && 2 * col + 2 <= |row|
    modifies a
    ensures RowDone(a, was, at, row, 2 * col + 2)
  {
    hide Pair;
    PairParts(row[2 * col], row[2 * col + 1]);
    StorePair(a, at + 2 * col, Pair(row[2 * col], row[2 * col + 1]));
  }

  // One row: words two by two, a last word, and the odd pixel.
  method CopyRow(a: array<Pixel>, at: nat, row: seq<Pixel>)
    requires at + |row| <= a.Length
    modifies a
    ensures RowDone(a, old(a[..]), at, row, |row|)
  {
    hide RowDone;
    ghost var was := a[..];
    NothingDone(a, at, row);
    var pairs := |row| / 2;
    var col := 0;
    while col + 1 < pairs
      invariant col <= pairs && RowDone(a, was, at, row, 2 * col)
    {
      CopyPair(a, was, at, row, col);
      CopyPair(a, was, at, row, col + 1);
      col := col + 2;
    }
    while col < pairs
      invariant col <= pairs && RowDone(a, was, at, row, 2 * col)
    {
      CopyPair(a, was, at, row, col);
      col := col + 1;
    }
    if |row| % 2 == 1 {
      OddPixel(a, was, at, row);
    }
  }

  method OddPixel(a: array<Pixel>, ghost was: seq<Pixel>, at: nat, row: seq<Pixel>)
    requires |row| > 0 && RowDone(a, was, at, row, |row| - 1)
    modifies a
    ensures RowDone(a, was, at, row, |row|)
  {
    a[at + |row| - 1] := row[|row| - 1];
  }

  lemma NothingDone(a: array<Pixel>, at: nat, row: seq<Pixel>)
    requires at + |row| <= a.Length
    ensures RowDone(a, a[..], at, row, 0)
  {
  }

  // One row in one colour, two pixels at a time.
  method FillRow(a: array<Pixel>, at: nat, n: nat, color: Pixel)
    requires at + n <= a.Length
    modifies a
    ensures RowDone(a, old(a[..]), at, seq(n, _ => color), n)
  {
    hide RowDone;
    ghost var was := a[..];
    var row := seq(n, _ => color);
    NothingDone(a, at, row);
    for col := 0 to n / 2
      invariant RowDone(a, was, at, row, 2 * col)
    {
      CopyPair(a, was, at, row, col);
    }
    if n % 2 == 1 {
      OddPixel(a, was, at, row);
    }
  }

  // ----- clipped drawing -----

  // The first `n` rows of the visible rectangle show the source.
  ghost predicate Shown(a: seq<Pixel>, was: seq<Pixel>, pitch: nat, c: Clip, n: nat, source: int -> Pixel)
    requires pitch > 0 && c.Visible?
  {
    |was| == |a| && forall i :: 0 <= i < |a| ==> a[i] == if InRect(i, pitch, c.x, c.y, c.w, n) then source(i) else was[i]
  }

  lemma RowShown(a: array<Pixel>, before: seq<Pixel>, was: seq<Pixel>, pitch: nat, c: Clip, n: nat, source: int -> Pixel, row: seq<Pixel>)
    requires pitch > 0 && c.Visible? && c.x + c.w <= pitch && |row| == c.w
    requires Shown(before, was, pitch, c, n, source) && |before| == a.Length
    requires RowDone(a, before, PixelAt(pitch, c.x, c.y + n), row, |row|)
    requires forall k :: 0 <= k < c.w ==> row[k] == source(PixelAt(pitch, c.x, c.y + n) + k)
    ensures Shown(a[..], was, pitch, c, n + 1, source)
  {
    var at := PixelAt(pitch, c.x, c.y + n);
    forall i | 0 <= i < a.Length ensures a[i] == if InRect(i, pitch, c.x, c.y, c.w, n + 1) then source(i) else was[i] {
      RowIs(i, pitch, c.y + n, c.x, c.w);
      if at <= i < at + c.w { assert row[i - at] == source(at + (i - at)); }
    }
  }

  // Exactly the pixels that `hit` names have the colour that `source` gives them.
  ghost predicate Painted(a: seq<Pixel>, was: seq<Pixel>, hit: int -> bool, source: int -> Pixel) {
    |a| == |was| && forall i :: 0 <= i < |a| ==> a[i] == if hit(i) then source(i) else was[i]
  }

  // What `ClipRect` promises.
  ghost predicate Clips(r: Clip, width: nat, height: nat, x: int, y: int, w: int, h: int, cx: int, cy: int, cw: int, ch: int) {
    forall px, py :: (r.Visible? && Within(px, r.x, r.w) && Within(py, r.y, r.h)) <==>
      (Within(px, x, w) && Within(py, y, h) && Within(px, cx, cw) && Within(py, cy, ch) && Within(px, 0, width) && Within(py, 0, height))
  }

  lemma ClipsDrawn(r: Clip, i: int, pitch: nat, width: nat, height: nat, x: int, y: int, w: int, h: int, cx: int, cy: int, cw: int, ch: int)
    requires pitch > 0 && Clips(r, width, height, x, y, w, h, cx, cy, cw, ch)
    ensures Drawn(i, pitch, width, height, x, y, w, h, cx, cy, cw, ch) <==> r.Visible? && InRect(i, pitch, r.x, r.y, r.w, r.h)
  {
    hide Within;
    var px, py := i % pitch, i / pitch;
    assert (r.Visible? && Within(px, r.x, r.w) && Within(py, r.y, r.h)) <==>
           (Within(px, x, w) && Within(py, y, h) && Within(px, cx, cw) && Within(py, cy, ch) && Within(px, 0, width) && Within(py, 0, height));
  }

  lemma ShownPainted(a: array<Pixel>, was: seq<Pixel>, r: Clip, pitch: nat, width: nat, height: nat, x: int, y: int, w: int, h: int,
                     cx: int, cy: int, cw: int, ch: int, source: int -> Pixel)
    requires pitch > 0 && Clips(r, width, height, x, y, w, h, cx, cy, cw, ch)
    requires if r.Visible? then Shown(a[..], was, pitch, r, r.h, source) else a[..] == was
    ensures Painted(a[..], was, i => Drawn(i, pitch, width, height, x, y, w, h, cx, cy, cw, ch), source)
  {
    hide Drawn; hide InRect; hide Clips;
    forall i | 0 <= i < a.Length
      ensures Drawn(i, pitch, width, height, x, y, w, h, cx, cy, cw, ch) <==> r.Visible? && InRect(i, pitch, r.x, r.y, r.w, r.h)
    {
      ClipsDrawn(r, i, pitch, width, height, x, y, w, h, cx, cy, cw, ch);
    }
  }

  // The image pixel that belongs at memory index `i`.
  function ImagePixel(img: seq<Pixel>, pitch: nat, x: int, y: int, w: int, i: int): Pixel {
    if pitch == 0 then 0 else
    var k := (i / pitch - y) * w + (i % pitch - x);
    if 0 <= k < |img| then img[k] else 0
  }

  // A stretch of an image row, against the memory row where it is shown.
  lemma SourceRow(img: seq<Pixel>, pitch: nat, x: int, y: int, w: nat, px: nat, py: nat, row: seq<Pixel>)
    requires px + |row| <= pitch && 0 <= PixelAt(w, px - x, py - y) && PixelAt(w, px - x, py - y) + |row| <= |img|
    requires row == img[PixelAt(w, px - x, py - y)..PixelAt(w, px - x, py - y) + |row|]
    ensures forall k :: 0 <= k < |row| ==> row[k] == ImagePixel(img, pitch, x, y, w, PixelAt(pitch, px, py) + k)
  {
    hide ImagePixel; hide PixelAt;
    forall k | 0 <= k < |row| ensures row[k] == ImagePixel(img, pitch, x, y, w, PixelAt(pitch, px, py) + k) {
      OneFurther(w, px - x, py - y, k);
      OneFurther(pitch, px, py, k);
      ImageAt(img, pitch, x, y, w, py, px + k);
    }
  }

  lemma SourceFits(r: nat, w: nat, h: nat, from: nat, length: nat)
    requires r < h && from + length <= w
    ensures 0 <= PixelAt(w, from, r) && PixelAt(w, from, r) + length <= w * h
  {
    Ordered(r + 1, h, w);
    assert (r + 1) * w == r * w + w;
    assert h * w == w * h;
  }

  lemma OneFurther(pitch: nat, x: int, y: int, k: int)
    ensures PixelAt(pitch, x + k, y) == PixelAt(pitch, x, y) + k
  {
  }

  // Row and column in the rectangle are row and column of the image.
  lemma ImageAt(img: seq<Pixel>, pitch: nat, x: int, y: int, w: nat, py: nat, px: nat)
    requires px < pitch && 0 <= PixelAt(w, px - x, py - y) < |img|
    ensures ImagePixel(img, pitch, x, y, w, PixelAt(pitch, px, py)) == img[PixelAt(w, px - x, py - y)]
    ensures ImagePixel(img, pitch, x, y, w, py * pitch + px) == img[(py - y) * w + (px - x)]
  {
    RowIs(py * pitch + px, pitch, py, px, 1);
  }

  // Sets exactly the pixels in the rectangle, the clip and the framebuffer to those of the image.
  method DrawImgClip(fb: Framebuffer?, img: seq<Pixel>, x: int, y: int, w: int, h: int, cx: int, cy: int, cw: int, ch: int)
    requires fb != null ==> fb.Valid()
    requires w > 0 && h > 0 ==> |img| == w * h
    modifies if fb == null then {} else {fb.pixels}
    ensures fb != null ==> Painted(fb.pixels[..], old(fb.pixels[..]), i => Drawn(i, fb.pitch, fb.width, fb.height, x, y, w, h, cx, cy, cw, ch),
                                   i => ImagePixel(img, fb.pitch, x, y, w, i))
  {
    hide Shown; hide Painted; hide Drawn; hide ImagePixel; hide RowDone; hide Clips;
    if fb == null {
      return;
    }
    ghost var was := fb.pixels[..];
    ghost var source := i => ImagePixel(img, fb.pitch, x, y, w, i);
    var c := ClipRect(fb.width, fb.height, x, y, w, h, cx, cy, cw, ch);
    if c.Visible? {
      VisibleSize(c, fb.width, fb.height, x, y, w, h);
      StartShown(fb.pixels, fb.pitch, c, source);
      for n := 0 to c.h
        invariant Shown(fb.pixels[..], was, fb.pitch, c, n, source)
      {
        ImageRow(fb, img, x, y, w, h, c, n, was, source);
      }
    }
    ShownPainted(fb.pixels, was, c, fb.pitch, fb.width, fb.height, x, y, w, h, cx, cy, cw, ch, source);
  }

  lemma VisibleSize(c: Clip, width: nat, height: nat, x: int, y: int, w: int, h: int)
    requires c.Visible? && c.w > 0 && c.h > 0 && c.x + c.w <= width && c.y + c.h <= height
    requires x <= c.x && y <= c.y && c.x + c.w <= x + w && c.y + c.h <= y + h
    ensures w > 0 && h > 0
  {
  }

  lemma StartShown(a: array<Pixel>, pitch: nat, c: Clip, source: int -> Pixel)
    requires pitch > 0 && c.Visible?
    ensures Shown(a[..], a[..], pitch, c, 0, source)
  {
  }

  method ImageRow(fb: Framebuffer, img: seq<Pixel>, x: int, y: int, w: int, h: int, c: Clip, n: nat, ghost was: seq<Pixel>, ghost source: int -> Pixel)
    requires fb.Valid() && c.Visible? && n < c.h && w > 0 && |img| == w * h
    requires c.x + c.w <= fb.width && c.y + c.h <= fb.height && x <= c.x && y <= c.y && c.x + c.w <= x + w && c.y + c.h <= y + h
    requires Shown(fb.pixels[..], was, fb.pitch, c, n, source) && source == (i => ImagePixel(img, fb.pitch, x, y, w, i))
    modifies fb.pixels
    ensures Shown(fb.pixels[..], was, fb.pitch, c, n + 1, source)
  {
    hide ImagePixel; hide RowDone; hide InRect; hide PixelAt; hide Shown;
    var src := PixelAt(w, c.x - x, c.y + n - y);
    SourceFits(c.y + n - y, w, h, c.x - x, c.w);
    RowFits(c.x, c.y + n, c.w, fb.height, fb.pitch, fb.pixels.Length);
    ghost var before := fb.pixels[..];
    var row := img[src..src + c.w];
    SourceRow(img, fb.pitch, x, y, w, c.x, c.y + n, row);
    CopyRow(fb.pixels, PixelAt(fb.pitch, c.x, c.y + n), row);
    RowShown(fb.pixels, before, was, fb.pitch, c, n, source, row);
  }

  // Sets exactly the pixels in the rectangle, the clip and the framebuffer to the colour.
  method DrawRectClip(fb: Framebuffer?, x: int, y: int, w: int, h: int, color: Pixel, cx: int, cy: int, cw: int, ch: int)
    requires fb != null ==> fb.Valid()
    modifies if fb == null then {} else {fb.pixels}
    ensures fb != null ==> Painted(fb.pixels[..], old(fb.pixels[..]), i => Drawn(i, fb.pitch, fb.width, fb.height, x, y, w, h, cx, cy, cw, ch), i => color)
  {
    hide Shown; hide Painted; hide Drawn; hide RowDone; hide Clips;
    if fb == null {
      return;
    }
    ghost var was := fb.pixels[..];
    ghost var source := i => color;
    var c := ClipRect(fb.width, fb.height, x, y, w, h, cx, cy, cw, ch);
    if c.Visible? {
      StartShown(fb.pixels, fb.pitch, c, source);
      for n := 0 to c.h
        invariant Shown(fb.pixels[..], was, fb.pitch, c, n, source)
      {
        ColorRow(fb, c, n, color, was, source);
      }
    }
    ShownPainted(fb.pixels, was, c, fb.pitch, fb.width, fb.height, x, y, w, h, cx, cy, cw, ch, source);
  }

  method ColorRow(fb: Framebuffer, c: Clip, n: nat, color: Pixel, ghost was: seq<Pixel>, ghost source: int -> Pixel)
    requires fb.Valid() && c.Visible? && n < c.h && c.x + c.w <= fb.width && c.y + c.h <= fb.height
    requires Shown(fb.pixels[..], was, fb.pitch, c, n, source) && source == (i => color)
    modifies fb.pixels
    ensures Shown(fb.pixels[..], was, fb.pitch, c, n + 1, source)
  {
    hide RowDone; hide InRect; hide PixelAt; hide Shown;
    RowFits(c.x, c.y + n, c.w, fb.height, fb.pitch, fb.pixels.Length);
    ghost var before := fb.pixels[..];
    FillRow(fb.pixels, PixelAt(fb.pitch, c.x, c.y + n), c.w, color);
    RowShown(fb.pixels, before, was, fb.pitch, c, n, source, seq(c.w, _ => color));
  }

  // ----- the inverted outline -----

  function Inverted(p: Pixel): Pixel { p ^ 0x00FF_FFFF }

  lemma InvertedTwice(p: Pixel)
    ensures Inverted(Inverted(p)) == p
  {
  }

  // Exactly the pixels that `hit` names are inverted.
  ghost predicate Flipped(a: seq<Pixel>, was: seq<Pixel>, hit: int -> bool) {
    |a| == |was| && forall i :: 0 <= i < |a| ==> a[i] == if hit(i) then Inverted(was[i]) else was[i]
  }

  // The bits of the three colours changed, and no others; or none did.
  predicate Complemented(p: Pixel, was: Pixel, hit: bool) {
    p ^ was == if hit then 0x00FF_FFFF else 0
  }

  lemma FlippedBits(a: seq<Pixel>, was: seq<Pixel>, hit: int -> bool)
    requires Flipped(a, was, hit)
    ensures forall i :: 0 <= i < |a| ==> Complemented(a[i], was[i], hit(i))
  {
    hide Complemented; hide Inverted;
    forall i | 0 <= i < |a| ensures Complemented(a[i], was[i], hit(i)) {
      InvertedBits(was[i]);
    }
  }

  lemma InvertedBits(p: Pixel)
    ensures Complemented(Inverted(p), p, true) && Complemented(p, p, false)
  {
  }

  // Inverting twice cancels.
  lemma FlippedThen(a: seq<Pixel>, b: seq<Pixel>, c: seq<Pixel>, first: int -> bool, second: int -> bool, both: int -> bool)
    requires Flipped(b, a, first) && Flipped(c, b, second) && forall i :: 0 <= i < |a| ==> both(i) == (first(i) != second(i))
    ensures Flipped(c, a, both)
  {
    hide Inverted;
    forall i | 0 <= i < |a| ensures c[i] == if both(i) then Inverted(a[i]) else a[i] {
      InvertedTwice(a[i]);
    }
  }

  // A pixel of column `x` in the rows `y` to `y + h - 1`, or of row `y` in the columns `x` to `x + w - 1`, as far
  // as it is seen.
  predicate OnLine(i: int, pitch: nat, width: nat, height: nat, x: int, y: int, w: int, h: int) {
    InRect(i, pitch, x, y, w, h) && InRect(i, pitch, 0, 0, width, height)
  }

  // The line of the first `k` pixels, downwards or to the right.
  predicate OnPart(i: int, pitch: nat, width: nat, height: nat, x: int, y: int, k: nat, vertical: bool) {
    OnLine(i, pitch, width, height, x, y, if vertical then 1 else k, if vertical then k else 1)
  }

  lemma PartGrows(i: nat, pitch: nat, width: nat, height: nat, x: int, y: int, k: nat, vertical: bool)
    requires pitch >= width > 0
    ensures var px, py := if vertical then x else x + k, if vertical then y + k else y;
      OnPart(i, pitch, width, height, x, y, k + 1, vertical) <==>
      OnPart(i, pitch, width, height, x, y, k, vertical) || (0 <= px < width && 0 <= py < height && i == PixelAt(pitch, px, py))
  {
    var px, py := if vertical then x else x + k, if vertical then y + k else y;
    if 0 <= px < width && 0 <= py < height { PixelIs(i, pitch, px, py); }
    PointGrows(i % pitch, i / pitch, x, y, k, vertical);
  }

  lemma PointGrows(m: int, d: int, x: int, y: int, k: nat, vertical: bool)
    ensures (Within(m, x, if vertical then 1 else k + 1) && Within(d, y, if vertical then k + 1 else 1)) <==>
      ((Within(m, x, if vertical then 1 else k) && Within(d, y, if vertical then k else 1)) ||
       (m == (if vertical then x else x + k) && d == (if vertical then y + k else y)))
  {
  }

  lemma PixelIs(i: int, pitch: nat, x: nat, y: nat)
    requires 0 <= i && x < pitch
    ensures i == y * pitch + x <==> i % pitch == x && i / pitch == y
  {
    RowIs(i, pitch, y, x, 1);
  }

  // Inverts one line of the outline, a column or a row, pixel by pixel where it is seen.
  method FlipLine(fb: Framebuffer, x: int, y: int, n: nat, vertical: bool)
    requires fb.Valid()
    modifies fb.pixels
    ensures Flipped(fb.pixels[..], old(fb.pixels[..]), i => OnPart(i, fb.pitch, fb.width, fb.height, x, y, n, vertical))
  {
    hide Inverted; hide OnPart; hide PixelAt;
    ghost var was := fb.pixels[..];
    NoPart(fb, x, y, vertical);
    for k := 0 to n
      invariant Flipped(fb.pixels[..], was, i => OnPart(i, fb.pitch, fb.width, fb.height, x, y, k, vertical))
    {
      var px, py := if vertical then x else x + k, if vertical then y + k else y;
      forall i: nat | i < fb.pixels.Length
        ensures OnPart(i, fb.pitch, fb.width, fb.height, x, y, k + 1, vertical) <==>
                (OnPart(i, fb.pitch, fb.width, fb.height, x, y, k, vertical) || (0 <= px < fb.width && 0 <= py < fb.height && i == PixelAt(fb.pitch, px, py)))
      {
        PartGrows(i, fb.pitch, fb.width, fb.height, x, y, k, vertical);
      }
      if 0 <= px < fb.width && 0 <= py < fb.height {
        RowFits(px, py, 1, fb.height, fb.pitch, fb.pixels.Length);
        NotYet(fb.pitch, fb.width, fb.height, x, y, k, vertical, px, py);
        var at := PixelAt(fb.pitch, px, py);
        fb.pixels[at] := Inverted(fb.pixels[at]);
      }
    }
  }

  lemma NoPart(fb: Framebuffer, x: int, y: int, vertical: bool)
    ensures forall i :: !OnPart(i, fb.pitch, fb.width, fb.height, x, y, 0, vertical)
  {
  }

  lemma NotYet(pitch: nat, width: nat, height: nat, x: int, y: int, k: nat, vertical: bool, px: nat, py: nat)
    requires px < width <= pitch && px == (if vertical then x else x + k) && py == (if vertical then y + k else y)
    ensures !OnPart(PixelAt(pitch, px, py), pitch, width, height, x, y, k, vertical)
  {
    PixelIs(py * pitch + px, pitch, px, py);
  }

  // Whether the four lines cover the pixel an odd number of times.
  predicate Odd(i: int, pitch: nat, width: nat, height: nat, x: int, y: int, w: int, h: int) {
    OnLine(i, pitch, width, height, x, y, 1, h) !=
    (OnLine(i, pitch, width, height, x + w - 1, y, 1, h) !=
     (OnLine(i, pitch, width, height, x, y, w, 1) != OnLine(i, pitch, width, height, x, y + h - 1, w, 1)))
  }

  // Both columns, then both rows; where two of them cross a pixel is inverted twice.
  method InvertRectO(fb: Framebuffer?, x: int, y: int, w: int, h: int)
    requires fb != null ==> fb.Valid()
    modifies if fb == null then {} else {fb.pixels}
    ensures fb != null ==> Flipped(fb.pixels[..], old(fb.pixels[..]), i => w > 0 && h > 0 && Odd(i, fb.pitch, fb.width, fb.height, x, y, w, h))
    ensures fb != null ==> forall i :: 0 <= i < fb.pixels.Length ==>
      Complemented(fb.pixels[i], old(fb.pixels[..])[i], w > 0 && h > 0 && Odd(i, fb.pitch, fb.width, fb.height, x, y, w, h))
  {
    hide OnLine; hide Inverted; hide InRect; hide Complemented;
    if fb == null {
      return;
    }
    ghost var p0 := fb.pixels[..];
    ghost var hit := i => w > 0 && h > 0 && Odd(i, fb.pitch, fb.width, fb.height, x, y, w, h);
    if w <= 0 || h <= 0 {
      FlippedBits(p0, p0, hit);
      return;
    }
    ghost var l1 := i => OnLine(i, fb.pitch, fb.width, fb.height, x, y, 1, h);
    ghost var l2 := i => OnLine(i, fb.pitch, fb.width, fb.height, x + w - 1, y, 1, h);
    ghost var l3 := i => OnLine(i, fb.pitch, fb.width, fb.height, x, y, w, 1);
    ghost var l4 := i => OnLine(i, fb.pitch, fb.width, fb.height, x, y + h - 1, w, 1);
    FlipLine(fb, x, y, h, true);
    ghost var p1 := fb.pixels[..];
    FlipLine(fb, x + w - 1, y, h, true);
    ghost var p2 := fb.pixels[..];
    FlipLine(fb, x, y, w, false);
    ghost var p3 := fb.pixels[..];
    FlipLine(fb, x, y + h - 1, w, false);
    ghost var p4 := fb.pixels[..];
    FlippedThen(p0, p1, p2, l1, l2, i => l1(i) != l2(i));
    FlippedThen(p0, p2, p3, i => l1(i) != l2(i), l3, i => (l1(i) != l2(i)) != l3(i));
    FlippedThen(p0, p3, p4, i => (l1(i) != l2(i)) != l3(i), l4, hit);
    FlippedBits(p4, p0, hit);
  }

  // Drawing the outline again removes it, wherever it lies.
  lemma InvertedAgain(a: seq<Pixel>, b: seq<Pixel>, c: seq<Pixel>, hit: int -> bool)
    requires Flipped(b, a, hit) && Flipped(c, b, hit)
    ensures c == a
  {
    FlippedThen(a, b, c, hit, hit, i => false);
  }

  // For an outline of at least two pixels each way the inverted pixels are those on its border and
  // seen, without the four corners.
  lemma OutlineWithoutCorners(i: nat, pitch: nat, width: nat, height: nat, x: int, y: int, w: int, h: int)
    requires pitch > 0 && w > 1 && h > 1
    ensures Odd(i, pitch, width, height, x, y, w, h) <==>
      InRect(i, pitch, x, y, w, h) && InRect(i, pitch, 0, 0, width, height) &&
      ((i % pitch == x || i % pitch == x + w - 1) != (i / pitch == y || i / pitch == y + h - 1))
  {
  }
}
