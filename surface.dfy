/** The glitch compositor of `ClrGltchSurface` (and of its near-duplicate
    `Surface`): generate and order the boxes, hand them to the packer, paint
    a base image and one crop per packed box, then run the glitch passes,
    each sorting a square region chosen from a random grid anchor. */
module Surfaces {
  import opened Pixels
  import opened Raster
  import opened Layout
  import opened Quadrants

  /** `SIZE`: the canvas is `Size` by `Size` pixels. */
  const Size := 512

  /** `ITERATIONS`: glitch passes per generation. */
  const Iterations := 5

  /** The source-image pool: every image is a canvas-sized raster. */
  predicate Pool(images: seq<Grid>)
  {
    |images| > 0 && forall k :: 0 <= k < |images| ==> IsRaster(images[k], Size, Size)
  }

  /** The random draws of one `paintRect(box)`: an index into the image
      pool, and a crop origin whose column is at most the canvas width less
      the box width and whose row is at most the canvas height less the box
      height, so that the crop window lies inside the source image. */
  datatype Crop = Crop(image: int, cx: int, cy: int)

  predicate CropFor(b: Rect, c: Crop, poolSize: int): (ok: bool)
    ensures ok && 0 <= b.w && 0 <= b.h ==> Within(Rect(c.cx, c.cy, b.w, b.h), Size, Size)
  {
    0 <= c.image < poolSize && 0 <= c.cx <= Size - b.w && 0 <= c.cy <= Size - b.h
  }

  /** One crop per packed box, in packed order. */
  predicate CropsFor(bs: seq<Rect>, cs: seq<Crop>, poolSize: int)
  {
    |cs| == |bs| && forall k :: 0 <= k < |bs| ==> CropFor(bs[k], cs[k], poolSize)
  }

  /** The pixel of the crop `c` that `paintRect` draws at `(i, j)` of box `b`. */
  function CropPixel(images: seq<Grid>, b: Rect, c: Crop, i: int, j: int): Pixel
    requires Pool(images) && Within(b, Size, Size) && CropFor(b, c, |images|) && Covers(b, i, j)
  {
    images[c.image][c.cy + i - b.y][c.cx + j - b.x]
  }

  /** `paintRect(box)` on the canvas contents `g`: the box receives the
      same-size crop of the chosen image, every other pixel keeps its value. */
  function Stamp(g: Grid, images: seq<Grid>, b: Rect, c: Crop): (res: Grid)
    requires IsRaster(g, Size, Size) && Pool(images) && Within(b, Size, Size) && CropFor(b, c, |images|)
    ensures IsRaster(res, Size, Size)
    ensures forall i, j :: 0 <= i < Size && 0 <= j < Size && !Covers(b, i, j) ==> res[i][j] == g[i][j]
    ensures forall i, j :: 0 <= i < Size && 0 <= j < Size && Covers(b, i, j) ==> res[i][j] == CropPixel(images, b, c, i, j)
  {
    Splice(g, Size, Size, b, Window(images[c.image], Size, Size, Rect(c.cx, c.cy, b.w, b.h)))
  }

  /** The loop of `paintRects` over the packed boxes, from contents `g`. */
  function StampAll(g: Grid, images: seq<Grid>, bs: seq<Rect>, cs: seq<Crop>): (res: Grid)
    requires IsRaster(g, Size, Size) && Pool(images) && CropsFor(bs, cs, |images|)
    requires forall p :: p in bs ==> Within(p, Size, Size)
    ensures IsRaster(res, Size, Size)
    decreases |bs|
  {
    if bs == [] then g
    else
      var n := |bs| - 1;
      assert bs[n] in bs;
      Stamp(StampAll(g, images, bs[..n], cs[..n]), images, bs[n], cs[n])
  }

  /** A prefix of a packing is a packing. */
  lemma PackedPrefix(bs: seq<Rect>, n: int)
    requires Packed(bs, Size, Size) && 0 <= n <= |bs|
    ensures Packed(bs[..n], Size, Size)
  {
    assert forall k :: 0 <= k < n ==> bs[..n][k] == bs[k];
  }

  /** After `paintRects`, a pixel inside packed box `k` holds box `k`'s own
      crop: no later stamp overwrites it, because packed boxes do not
      overlap. */
  lemma {:induction false} StampAllInside(g: Grid, images: seq<Grid>, bs: seq<Rect>, cs: seq<Crop>, k: int, i: int, j: int)
    requires IsRaster(g, Size, Size) && Pool(images) && Packed(bs, Size, Size) && CropsFor(bs, cs, |images|)
    requires 0 <= i < Size && 0 <= j < Size && 0 <= k < |bs| && Covers(bs[k], i, j)
    ensures StampAll(g, images, bs, cs)[i][j] == CropPixel(images, bs[k], cs[k], i, j)
    decreases |bs|
  {
    var n := |bs| - 1;
    assert bs[n] in bs;
    var prev := StampAll(g, images, bs[..n], cs[..n]);
    assert StampAll(g, images, bs, cs) == Stamp(prev, images, bs[n], cs[n]);
    if k < n {
      PackedPrefix(bs, n);
      assert bs[..n][k] == bs[k] && cs[..n][k] == cs[k];
      assert CropsFor(bs[..n], cs[..n], |images|);
      StampAllInside(g, images, bs[..n], cs[..n], k, i, j);
      assert Disjoint(bs[k], bs[n]);
      DisjointNoCommonPixel(bs[k], bs[n], i, j);
    }
  }

  /** After `paintRects`, a pixel outside every packed box holds the base
      image. */
  lemma {:induction false} StampAllOutside(g: Grid, images: seq<Grid>, bs: seq<Rect>, cs: seq<Crop>, i: int, j: int)
    requires IsRaster(g, Size, Size) && Pool(images) && Packed(bs, Size, Size) && CropsFor(bs, cs, |images|)
    requires 0 <= i < Size && 0 <= j < Size
    requires forall k :: 0 <= k < |bs| ==> !Covers(bs[k], i, j)
    ensures StampAll(g, images, bs, cs)[i][j] == g[i][j]
    decreases |bs|
  {
    if bs != [] {
      var n := |bs| - 1;
      assert bs[n] in bs;
      PackedPrefix(bs, n);
      assert forall k :: 0 <= k < n ==> bs[..n][k] == bs[k];
      StampAllOutside(g, images, bs[..n], cs[..n], i, j);
    }
  }

  /** The random draws of one `render()`: the anchor `(x, y)`, the channel
      `pixelSort` picks, whether the corner re-sort happens
      (a draw above 0.96) and its channel, whether a re-stamp happens (a
      draw above 0.95), the candidate index it picks and its crop. */
  datatype Draw = Draw(x: int, y: int, channel: nat, corner: bool, cornerChannel: nat,
                       restamp: bool, pick: int, crop: Crop)

  /** The draws are in the ranges the source draws them from. When the re-stamp
      pool is empty, no index is valid: that draw is the failing one. */
  predicate DrawFor(d: Draw, units: int, packed: seq<Rect>, poolSize: int)
  {
    && 0 <= d.x < units && 0 <= d.y < units
    && d.channel < 3 && d.cornerChannel < 3
    && (d.restamp && RestampCandidates(packed) != [] ==>
          0 <= d.pick < |RestampCandidates(packed)|
          && CropFor(RestampCandidates(packed)[d.pick], d.crop, poolSize))
  }

  /** The render of draw `d` throws: it re-stamps from an empty pool, so
      the picked box is `undefined` and `paintRect` fails reading its width.
      That happens exactly when a re-stamp is drawn and every packed box is
      256 wide. */
  predicate Throws(d: Draw, packed: seq<Rect>): (t: bool)
    ensures t <==> d.restamp && forall p :: p in packed ==> p.w == 256
  {
    var cs := RestampCandidates(packed);
    assert cs != [] ==> cs[0] in cs;
    d.restamp && cs == []
  }

  lemma UnitsCoverCanvas(unitSize: int)
    requires unitSize in {32, 64, 128}
    ensures Size / unitSize >= 1 && (Size / unitSize) * unitSize == Size
  {
  }

  /** The region `(x * unitSize, y * unitSize, size, size)` that one pass
      sorts: square, of a quadrant size, and on the canvas. */
  function GlitchRegion(unitSize: int, x: int, y: int): (r: Rect)
    requires unitSize in {32, 64, 128} && 0 <= x < Size / unitSize && 0 <= y < Size / unitSize
    ensures Within(r, Size, Size) && r.w == r.h && r.w in QuadrantSizes
    ensures r.x == x * unitSize && r.y == y * unitSize
    ensures SelectSize(QuadrantSizes, MaxFit(Size / unitSize, unitSize, x, y)) == Some(r.w)
  {
    UnitsCoverCanvas(unitSize);
    RegionOnCanvas(Size / unitSize, unitSize, x, y);
    var size := SelectSize(QuadrantSizes, MaxFit(Size / unitSize, unitSize, x, y)).value;
    Rect(x * unitSize, y * unitSize, size, size)
  }

  /** The region is the largest quadrant size that stays on the canvas
      from the anchor: any quadrant size that would also fit there is no
      larger. */
  lemma GlitchRegionLargest(unitSize: int, x: int, y: int, q: int)
    requires unitSize in {32, 64, 128} && 0 <= x < Size / unitSize && 0 <= y < Size / unitSize
    requires q in QuadrantSizes
    requires GlitchRegion(unitSize, x, y).x + q <= Size && GlitchRegion(unitSize, x, y).y + q <= Size
    ensures q <= GlitchRegion(unitSize, x, y).w
  {
    UnitsCoverCanvas(unitSize);
    MaxFitTight(Size / unitSize, unitSize, x, y, q);
  }

  /** The canvas contents after `render()` with draws `d`, from contents
      `g` (when the render throws, what it had drawn before throwing). */
  function Glitched(g: Grid, images: seq<Grid>, packed: seq<Rect>, unitSize: int, d: Draw, sort: Sorter): (res: Grid)
    requires IsRaster(g, Size, Size) && Pool(images) && Packed(packed, Size, Size)
    requires unitSize in {32, 64, 128} && DrawFor(d, Size / unitSize, packed, |images|) && KeepsShape(sort)
    ensures IsRaster(res, Size, Size)
  {
    var region := GlitchRegion(unitSize, d.x, d.y);
    var g1 := SortWindow(g, Size, Size, region, Plain(d.channel), sort);
    var g2 := if d.corner then SortWindow(g1, Size, Size, Rect(0, 0, region.w, region.h), Plain(d.cornerChannel), sort)
              else g1;
    var cands := RestampCandidates(packed);
    if d.restamp && cands != [] then
      assert cands[d.pick] in cands;
      Stamp(g2, images, cands[d.pick], d.crop)
    else g2
  }

  /** A glitch pass changes only its sort region, the corner region when
      the corner re-sort happens, and the re-stamped box when one is. */
  lemma GlitchedFrame(g: Grid, images: seq<Grid>, packed: seq<Rect>, unitSize: int, d: Draw, sort: Sorter, i: int, j: int)
    requires IsRaster(g, Size, Size) && Pool(images) && Packed(packed, Size, Size)
    requires unitSize in {32, 64, 128} && DrawFor(d, Size / unitSize, packed, |images|) && KeepsShape(sort)
    requires 0 <= i < Size && 0 <= j < Size
    requires !Covers(GlitchRegion(unitSize, d.x, d.y), i, j)
    requires d.corner ==> !Covers(Rect(0, 0, GlitchRegion(unitSize, d.x, d.y).w, GlitchRegion(unitSize, d.x, d.y).w), i, j)
    requires d.restamp && RestampCandidates(packed) != [] ==> !Covers(RestampCandidates(packed)[d.pick], i, j)
    ensures Glitched(g, images, packed, unitSize, d, sort)[i][j] == g[i][j]
  {
    var region := GlitchRegion(unitSize, d.x, d.y);
    var g1 := SortWindow(g, Size, Size, region, Plain(d.channel), sort);
    var g2 := if d.corner then SortWindow(g1, Size, Size, Rect(0, 0, region.w, region.h), Plain(d.cornerChannel), sort)
              else g1;
    assert g1[i][j] == g[i][j];
    assert g2[i][j] == g[i][j];
    var cands := RestampCandidates(packed);
    if d.restamp && cands != [] {
      assert cands[d.pick] in cands;
    }
  }

  /** `runFrames()` on contents `g`: the passes one after another. */
  function GlitchedAll(g: Grid, images: seq<Grid>, packed: seq<Rect>, unitSize: int, ds: seq<Draw>, sort: Sorter): (res: Grid)
    requires IsRaster(g, Size, Size) && Pool(images) && Packed(packed, Size, Size)
    requires unitSize in {32, 64, 128} && KeepsShape(sort)
    requires forall k :: 0 <= k < |ds| ==> DrawFor(ds[k], Size / unitSize, packed, |images|)
    ensures IsRaster(res, Size, Size)
    decreases |ds|
  {
    if ds == [] then g
    else
      var n := |ds| - 1;
      Glitched(GlitchedAll(g, images, packed, unitSize, ds[..n], sort), images, packed, unitSize, ds[n], sort)
  }

  /** One more pass appends one more render. */
  lemma GlitchedAllStep(g: Grid, images: seq<Grid>, packed: seq<Rect>, unitSize: int, ds: seq<Draw>, n: int, sort: Sorter)
    requires IsRaster(g, Size, Size) && Pool(images) && Packed(packed, Size, Size)
    requires unitSize in {32, 64, 128} && KeepsShape(sort)
    requires forall k :: 0 <= k < |ds| ==> DrawFor(ds[k], Size / unitSize, packed, |images|)
    requires 0 <= n < |ds|
    ensures GlitchedAll(g, images, packed, unitSize, ds[..n + 1], sort)
         == Glitched(GlitchedAll(g, images, packed, unitSize, ds[..n], sort), images, packed, unitSize, ds[n], sort)
  {
    assert ds[..n + 1][..n] == ds[..n];
  }

  class Surface {
    const width: int
    const height: int
    const quadrantSizes: seq<int>
    const unitSize: int
    const units: int
    const canvas: Canvas
    const images: seq<Grid>
    /** The boxes as generated and ordered by `createBoxes`. */
    var boxes: seq<Box>
    /** The placements the packer returned for them. */
    var packed: seq<Rect>

    ghost predicate Valid()
      reads this, canvas
    {
      && width == Size && height == Size
      && quadrantSizes == QuadrantSizes
      && unitSize in {32, 64, 128}
      && units == width / unitSize
      && canvas.Valid() && canvas.width == width && canvas.height == height
      && Pool(images)
      && Packed(packed, width, height)
    }

    /** The constructor, given the unit size (drawn once from 32, 32, 64,
        64, 128) and the already-loaded image pool. */
    constructor (unitSize: int, images: seq<Grid>)
      requires unitSize in {32, 64, 128} && Pool(images)
      ensures Valid() && fresh(canvas)
      ensures this.unitSize == unitSize && this.images == images
      ensures boxes == [] && packed == []
      ensures canvas.pixels == Solid(Size, Size, Transparent)
    {
      width, height := Size, Size;
      quadrantSizes := QuadrantSizes;
      this.unitSize := unitSize;
      units := Size / unitSize;
      canvas := new Canvas(Size, Size);
      this.images := images;
      boxes, packed := [], [];
    }

    /** One tier loop of `createBoxes`: a real counter starts at
        `r * bound` for the draw `r`, and a box is pushed each time it is
        not yet negative. */
    method PushTier(side: int, bound: nat, r: real)
      requires 0.0 <= r < 1.0
      modifies this`boxes
      ensures boxes == old(boxes) + Repeat(Box(side, side), TierCount(r, bound))
    {
      var start := r * bound as real;
      var i := start;
      ghost var n: nat := 0;
      while i >= 0.0
        invariant i == start - n as real
        invariant n <= TierCount(r, bound)
        invariant boxes == old(boxes) + Repeat(Box(side, side), n)
        decreases TierCount(r, bound) - n
      {
        boxes := boxes + [Box(side, side)];
        assert Repeat(Box(side, side), n + 1) == Repeat(Box(side, side), n) + [Box(side, side)];
        i := i - 1.0;
        n := n + 1;
      }
    }

    /** The five tier loops at the head of `createBoxes()`. */
    method PushTiers(r256: real, r128: real, r64: real, r32: real, r16: real)
      requires 0.0 <= r256 < 1.0 && 0.0 <= r128 < 1.0 && 0.0 <= r64 < 1.0
      requires 0.0 <= r32 < 1.0 && 0.0 <= r16 < 1.0
      modifies this`boxes
      ensures boxes == old(boxes) + Tiers(r256, r128, r64, r32, r16)
    {
      ghost var t256 := Repeat(Box(256, 256), TierCount(r256, 2));
      ghost var t128 := Repeat(Box(128, 128), TierCount(r128, 20));
      ghost var t64 := Repeat(Box(64, 64), TierCount(r64, 50));
      ghost var t32 := Repeat(Box(32, 32), TierCount(r32, 50));
      ghost var t16 := Repeat(Box(16, 16), TierCount(r16, 50));
      PushTier(256, 2, r256);
      PushTier(128, 20, r128);
      assert boxes == old(boxes) + (t256 + t128);
      PushTier(64, 50, r64);
      assert boxes == old(boxes) + (t256 + t128 + t64);
      PushTier(32, 50, r32);
      assert boxes == old(boxes) + (t256 + t128 + t64 + t32);
      PushTier(16, 50, r16);
      assert boxes == old(boxes) + (t256 + t128 + t64 + t32 + t16);
    }

    /** `createBoxes()`: push the five tiers, sort with `maxside`, pack.
        `pack` stands for `new ShelfPack(width, height).pack`. */
    method CreateBoxes(r256: real, r128: real, r64: real, r32: real, r16: real, pack: seq<Box> -> seq<Rect>)
      requires Valid()
      requires 0.0 <= r256 < 1.0 && 0.0 <= r128 < 1.0 && 0.0 <= r64 < 1.0
      requires 0.0 <= r32 < 1.0 && 0.0 <= r16 < 1.0
      requires PackerContract(pack, width, height)
      modifies this`boxes, this`packed
      ensures Valid()
      ensures boxes == SortByMaxSide(old(boxes) + Tiers(r256, r128, r64, r32, r16))
      ensures packed == pack(boxes)
    {
      PushTiers(r256, r128, r64, r32, r16);
      boxes := SortByMaxSide(boxes);
      packed := pack(boxes);
    }

    /** `paintRect(box)` with its draws `crop`. */
    method PaintRect(box: Rect, crop: Crop)
      requires Valid() && Within(box, width, height) && CropFor(box, crop, |images|)
      modifies canvas
      ensures Valid()
      ensures canvas.pixels == Stamp(old(canvas.pixels), images, box, crop)
    {
      canvas.DrawImage(images[crop.image], width, height, crop.cx, crop.cy, box);
    }

    /** `paintRects()`: draw image `base` over the whole canvas, then stamp
        every packed box with its crop. */
    method PaintRects(base: int, crops: seq<Crop>)
      requires Valid() && 0 <= base < |images| && CropsFor(packed, crops, |images|)
      modifies canvas
      ensures Valid()
      ensures canvas.pixels == StampAll(images[base], images, packed, crops)
    {
      WindowWhole(images[base], width, height);
      SpliceWhole(canvas.pixels, width, height, images[base]);
      canvas.DrawImage(images[base], width, height, 0, 0, Rect(0, 0, width, height));
      for k := 0 to |packed|
        invariant Valid()
        invariant canvas.pixels == StampAll(images[base], images, packed[..k], crops[..k])
      {
        assert packed[k] in packed;
        PaintRect(packed[k], crops[k]);
        assert packed[..k + 1][..k] == packed[..k] && crops[..k + 1][..k] == crops[..k];
      }
      assert packed[..|packed|] == packed && crops[..|crops|] == crops;
    }

    /** `render()` with draws `d`; `ok` is false when it throws. */
    method Render(d: Draw, sort: Sorter) returns (ok: bool)
      requires Valid() && KeepsShape(sort) && DrawFor(d, units, packed, |images|)
      modifies canvas
      ensures Valid()
      ensures ok == !Throws(d, packed)
      ensures canvas.pixels == Glitched(old(canvas.pixels), images, packed, unitSize, d, sort)
    {
      var region := GlitchRegion(unitSize, d.x, d.y);
      canvas.PixelSort(region, Plain(d.channel), sort);
      if d.corner {
        canvas.PixelSort(Rect(0, 0, region.w, region.h), Plain(d.cornerChannel), sort);
      }
      ok := true;
      if d.restamp {
        var candidates := RestampCandidates(packed);
        if candidates == [] {
          ok := false;
          return;
        }
        assert candidates[d.pick] in candidates;
        PaintRect(candidates[d.pick], d.crop);
      }
    }

    /** `runFrames()`: `Iterations` renders; the first one that throws ends
        the loop. */
    method RunFrames(draws: seq<Draw>, sort: Sorter) returns (ok: bool)
      requires Valid() && KeepsShape(sort) && |draws| == Iterations
      requires forall k :: 0 <= k < |draws| ==> DrawFor(draws[k], units, packed, |images|)
      modifies canvas
      ensures Valid()
      ensures ok <==> forall k :: 0 <= k < |draws| ==> !Throws(draws[k], packed)
      ensures ok ==> canvas.pixels == GlitchedAll(old(canvas.pixels), images, packed, unitSize, draws, sort)
    {
      ghost var g0 := canvas.pixels;
      ghost var ps := packed;
      ok := true;
      for index := 0 to Iterations
        invariant Valid() && packed == ps
        invariant forall k :: 0 <= k < index ==> !Throws(draws[k], ps)
        invariant canvas.pixels == GlitchedAll(g0, images, packed, unitSize, draws[..index], sort)
      {
        ok := Render(draws[index], sort);
        if !ok {
          return;
        }
        assert !Throws(draws[index], ps);
        assert forall k :: 0 <= k < index + 1 ==> !Throws(draws[k], ps) by {
          forall k | 0 <= k < index + 1
            ensures !Throws(draws[k], ps)
          {
          }
        }
        GlitchedAllStep(g0, images, packed, unitSize, draws, index, sort);
      }
      assert draws[..Iterations] == draws;
    }

    /** The uncached path of `init()`: create and pack the boxes, paint the
        base image and the crops, then run the glitch passes. */
    method Generate(r256: real, r128: real, r64: real, r32: real, r16: real, pack: seq<Box> -> seq<Rect>,
                    base: int, crops: seq<Crop>, draws: seq<Draw>, sort: Sorter) returns (ok: bool)
      requires Valid() && boxes == [] && KeepsShape(sort)
      requires 0.0 <= r256 < 1.0 && 0.0 <= r128 < 1.0 && 0.0 <= r64 < 1.0
      requires 0.0 <= r32 < 1.0 && 0.0 <= r16 < 1.0
      requires PackerContract(pack, width, height)
      requires 0 <= base < |images|
      requires CropsFor(pack(SortByMaxSide(Tiers(r256, r128, r64, r32, r16))), crops, |images|)
      requires |draws| == Iterations
      requires forall k :: 0 <= k < |draws| ==>
        DrawFor(draws[k], units, pack(SortByMaxSide(Tiers(r256, r128, r64, r32, r16))), |images|)
      modifies this, canvas
      ensures Valid()
      ensures boxes == SortByMaxSide(Tiers(r256, r128, r64, r32, r16)) && packed == pack(boxes)
      ensures ok <==> forall k :: 0 <= k < |draws| ==> !Throws(draws[k], packed)
      ensures ok ==> canvas.pixels == GlitchedAll(StampAll(images[base], images, packed, crops), images, packed, unitSize, draws, sort)
    {
      CreateBoxes(r256, r128, r64, r32, r16, pack);
      assert [] + Tiers(r256, r128, r64, r32, r16) == Tiers(r256, r128, r64, r32, r16);
      PaintRects(base, crops);
      ok := RunFrames(draws, sort);
    }
  }
}
