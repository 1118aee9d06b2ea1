/** Pixels of an RGBA raster and the comparators the glitch passes hand to
    the pixel sort: the plain channel comparators `byR`, `byG`, `byB` of the
    surfaces and the offset comparator `byOffRGB` of the colour-glitch
    canvases. */
module Pixels {

  /** One 8-bit channel value, as stored in a `Uint8Array` of image data. */
  type Byte = b: int | 0 <= b < 256

  /** One RGBA pixel; channel 0 is red, 1 green, 2 blue, 3 alpha. */
  datatype Pixel = Pixel(r: Byte, g: Byte, b: Byte, a: Byte)

  /** The pixel a freshly created canvas is filled with. */
  const Transparent := Pixel(0, 0, 0, 0)

  /** `p[i]` on a pixel of an image-data array. */
  function Channel(p: Pixel, i: nat): Byte
    requires i < 4
  {
    if i == 0 then p.r else if i == 1 then p.g else if i == 2 then p.b else p.a
  }

  function Min(a: int, b: int): int { if a <= b then a else b }

  function Sign(d: int): int { if d > 0 then 1 else if d < 0 then -1 else 0 }

  /** `byR`, `byG`, `byB`: the difference of channel `i`. */
  function ByChannel(a: Pixel, b: Pixel, i: nat): (d: int)
    requires i < 3
    ensures d > 0 <==> Channel(a, i) > Channel(b, i)
    ensures d == 0 <==> Channel(a, i) == Channel(b, i)
  {
    Channel(a, i) - Channel(b, i)
  }

  /** `byOffRGB(a, b, offset, i)`: compares channel `i` of `a`, lowered by
      the offset capped at 255, with channel `i` of `b`; the answer is the
      sign of the plain channel difference shifted by that capped offset. */
  function ByOffRGB(a: Pixel, b: Pixel, offset: int, i: nat): (r: int)
    requires i < 3
    ensures r == Sign(ByChannel(a, b, i) - Min(offset, 255))
    ensures -1 <= r <= 1
  {
    var o := Min(offset, 255);
    if Channel(a, i) - o > Channel(b, i) then 1
    else if Channel(a, i) - o < Channel(b, i) then -1
    else 0
  }

  /** With no offset, `byOffRGB` orders exactly as the plain channel
      comparator does. */
  lemma ByOffRGBZeroOffset(a: Pixel, b: Pixel, i: nat)
    requires i < 3
    ensures ByOffRGB(a, b, 0, i) == Sign(ByChannel(a, b, i))
    ensures ByOffRGB(a, b, 0, i) == -ByOffRGB(b, a, 0, i)
  {
  }

  /** The offset used never exceeds 255: every larger offset compares as 255. */
  lemma ByOffRGBCapped(a: Pixel, b: Pixel, offset: int, i: nat)
    requires i < 3 && offset >= 255
    ensures ByOffRGB(a, b, offset, i) == ByOffRGB(a, b, 255, i)
  {
  }

  /** A positive offset makes every pixel compare below itself, so the
      comparator is not a consistent comparison function and the order the
      sort produces is left to the sort's implementation. */
  lemma ByOffRGBNotReflexive(a: Pixel, offset: int, i: nat)
    requires i < 3 && offset > 0
    ensures ByOffRGB(a, a, offset, i) == -1
  {
  }

  /** The comparator handed to one pixel-sort call. */
  datatype Order =
    | Plain(channel: nat)                 // byR, byG, byB
    | Shifted(channel: nat, offset: int)  // byOffR, byOffG, byOffB bound to an offset
}
