/** The 2-D canvas every surface draws on, seen as a grid of pixels indexed
    `[row][column]` (`[y][x]`), and the three canvas operations the
    compositor uses: `drawImage` of a same-size crop, `fillRect` with one
    colour, and the foreign pixel sort applied to one rectangle. */
module Raster {
  import opened Pixels

  type Grid = seq<seq<Pixel>>

  /** `g` is a `w` by `h` raster: `h` rows of `w` pixels each. */
  predicate IsRaster(g: Grid, w: int, h: int)
  {
    |g| == h && forall i :: 0 <= i < |g| ==> |g[i]| == w
  }

  /** A rectangle `(x, y, w, h)`: a packed box or a sort region. */
  datatype Rect = Rect(x: int, y: int, w: int, h: int)

  /** The rectangle lies inside a `width` by `height` raster. */
  predicate Within(r: Rect, width: int, height: int)
  {
    0 <= r.x && 0 <= r.y && 0 <= r.w && 0 <= r.h && r.x + r.w <= width && r.y + r.h <= height
  }

  /** Pixel `(row, col)` lies in the rectangle. */
  predicate Covers(r: Rect, row: int, col: int)
  {
    r.y <= row < r.y + r.h && r.x <= col < r.x + r.w
  }

  /** `inner` lies inside `outer`. */
  predicate Inside(inner: Rect, outer: Rect)
  {
    outer.x <= inner.x && outer.y <= inner.y
    && inner.x + inner.w <= outer.x + outer.w && inner.y + inner.h <= outer.y + outer.h
  }

  /** The two rectangles share no pixel. */
  predicate Disjoint(a: Rect, b: Rect)
  {
    a.x + a.w <= b.x || b.x + b.w <= a.x || a.y + a.h <= b.y || b.y + b.h <= a.y
  }

  lemma DisjointNoCommonPixel(a: Rect, b: Rect, row: int, col: int)
    requires Disjoint(a, b) && Covers(a, row, col)
    ensures !Covers(b, row, col)
  {
  }

  /** A `w` by `h` raster of one colour. */
  function Solid(w: nat, h: nat, c: Pixel): (r: Grid)
    ensures IsRaster(r, w, h)
    ensures forall i, j :: 0 <= i < h && 0 <= j < w ==> r[i][j] == c
  {
    seq(h, _ => seq(w, _ => c))
  }

  /** The pixels of rectangle `r` of `g` (what `getImageData(x, y, w, h)`
      reads, and the source window of a `drawImage` crop). */
  function Window(g: Grid, width: int, height: int, r: Rect): (win: Grid)
    requires IsRaster(g, width, height) && Within(r, width, height)
    ensures IsRaster(win, r.w, r.h)
    ensures forall i, j :: 0 <= i < r.h && 0 <= j < r.w ==> win[i][j] == g[r.y + i][r.x + j]
  {
    seq(r.h, i requires 0 <= i < r.h => g[r.y + i][r.x .. r.x + r.w])
  }

  /** `g` with rectangle `r` overwritten by `patch` (what `drawImage`
      writes into the destination rectangle): pixels in `r` come from
      `patch`, every other pixel is left as it was. */
  function Splice(g: Grid, width: int, height: int, r: Rect, patch: Grid): (res: Grid)
    requires IsRaster(g, width, height) && Within(r, width, height) && IsRaster(patch, r.w, r.h)
    ensures IsRaster(res, width, height)
    ensures forall i, j :: 0 <= i < height && 0 <= j < width ==>
      res[i][j] == if Covers(r, i, j) then patch[i - r.y][j - r.x] else g[i][j]
  {
    seq(height, i requires 0 <= i < height =>
      if r.y <= i < r.y + r.h then g[i][..r.x] + patch[i - r.y] + g[i][r.x + r.w..] else g[i])
  }

  /** Writing back the rectangle that was read gives the raster unchanged. */
  lemma SpliceOwnWindow(g: Grid, width: int, height: int, r: Rect)
    requires IsRaster(g, width, height) && Within(r, width, height)
    ensures Splice(g, width, height, r, Window(g, width, height, r)) == g
  {
    var res := Splice(g, width, height, r, Window(g, width, height, r));
    forall i | 0 <= i < height
      ensures res[i] == g[i]
    {
    }
  }

  /** Reading the whole raster gives the raster. */
  lemma WindowWhole(g: Grid, width: int, height: int)
    requires 0 <= width && IsRaster(g, width, height)
    ensures Window(g, width, height, Rect(0, 0, width, height)) == g
  {
    var win := Window(g, width, height, Rect(0, 0, width, height));
    forall i | 0 <= i < height
      ensures win[i] == g[i]
    {
    }
  }

  /** Drawing a whole `width` by `height` image over the whole canvas
      leaves exactly that image. */
  lemma SpliceWhole(g: Grid, width: int, height: int, image: Grid)
    requires 0 <= width && IsRaster(g, width, height) && IsRaster(image, width, height)
    ensures Splice(g, width, height, Rect(0, 0, width, height), image) == image
  {
    var res := Splice(g, width, height, Rect(0, 0, width, height), image);
    forall i | 0 <= i < height
      ensures res[i] == image[i]
    {
    }
  }

  /** The foreign pixel sort (`./pixelSort`), given the image data of one
      rectangle and a comparator, returns the re-ordered image data. */
  type Sorter = (Grid, Order) -> Grid

  /** What the compositor relies on from the pixel sort: the image data it
      returns has the shape of the image data it was given, so that it can
      be drawn back into the same rectangle. */
  ghost predicate KeepsShape(sort: Sorter)
  {
    forall g: Grid, o: Order, w: int, h: int :: IsRaster(g, w, h) ==> IsRaster(sort(g, o), w, h)
  }

  /** `pixelSort(x, y, w, h)`: read rectangle `r`, sort it, draw it back. */
  function SortWindow(g: Grid, width: int, height: int, r: Rect, o: Order, sort: Sorter): (res: Grid)
    requires IsRaster(g, width, height) && Within(r, width, height) && KeepsShape(sort)
    ensures IsRaster(res, width, height)
    ensures forall i, j :: 0 <= i < height && 0 <= j < width && !Covers(r, i, j) ==> res[i][j] == g[i][j]
    ensures IsRaster(sort(Window(g, width, height, r), o), r.w, r.h)
    ensures forall i, j :: 0 <= i < r.h && 0 <= j < r.w ==>
      res[r.y + i][r.x + j] == sort(Window(g, width, height, r), o)[i][j]
  {
    var win := Window(g, width, height, r);
    Splice(g, width, height, r, sort(win, o))
  }

  /** A canvas element with its 2-D context: a fixed-size pixel buffer that
      the drawing operations overwrite in place. */
  class Canvas {
    const width: int
    const height: int
    var pixels: Grid

    ghost predicate Valid()
      reads this
    {
      0 <= width && 0 <= height && IsRaster(pixels, width, height)
    }

    /** `document.createElement("canvas")` sized `width` by `height`:
        every pixel starts transparent. */
    constructor (width: nat, height: nat)
      ensures Valid() && this.width == width && this.height == height
      ensures pixels == Solid(width, height, Transparent)
    {
      this.width := width;
      this.height := height;
      pixels := Solid(width, height, Transparent);
    }

    /** `pixelSort(x, y, w, h, method)`: only rectangle `r` changes, and it
        then holds the sorted image data of what it held before. */
    method PixelSort(r: Rect, o: Order, sort: Sorter)
      requires Valid() && Within(r, width, height) && KeepsShape(sort)
      modifies this
      ensures Valid()
      ensures pixels == SortWindow(old(pixels), width, height, r, o, sort)
    {
      pixels := SortWindow(pixels, width, height, r, o, sort);
    }

    /** `drawImage(image, sx, sy, w, h, dx, dy, w, h)`: copies the `w` by
        `h` crop of `image` at `(sx, sy)` into the rectangle `dest` (whose
        size is the crop's), leaving every other pixel as it was. */
    method DrawImage(image: Grid, imageWidth: int, imageHeight: int, sx: int, sy: int, dest: Rect)
      requires Valid() && IsRaster(image, imageWidth, imageHeight)
      requires Within(Rect(sx, sy, dest.w, dest.h), imageWidth, imageHeight)
      requires Within(dest, width, height)
      modifies this
      ensures Valid()
      ensures pixels == Splice(old(pixels), width, height, dest,
                               Window(image, imageWidth, imageHeight, Rect(sx, sy, dest.w, dest.h)))
    {
      var crop := Window(image, imageWidth, imageHeight, Rect(sx, sy, dest.w, dest.h));
      pixels := Splice(pixels, width, height, dest, crop);
    }

    /** `fillRect(x, y, w, h)` with fill style `c`. */
    method FillRect(r: Rect, c: Pixel)
      requires Valid() && Within(r, width, height)
      modifies this
      ensures Valid()
      ensures pixels == Splice(old(pixels), width, height, r, Solid(r.w, r.h, c))
    {
      pixels := Splice(pixels, width, height, r, Solid(r.w, r.h, c));
    }
  }
}
