/** The colour-glitch canvases (`ClrGltch` and `ClrGltchFast`): a square
    canvas painted once, then re-sorted three times per `runRender` over
    three nested inset regions, with an offset comparator whose offset
    follows a triangle wave driven by a counter field. */
module ColorGlitch {
  import opened Pixels
  import opened Raster
  import opened Arith

  /** `SCALE`: colours per side. */
  const Scale := 512
  /** `COLORS`: the length of the colour list. */
  const Colors := Scale * Scale
  /** `PX`: the side of one painted cell. */
  const Px := 1
  /** `SIZE`: the side of the canvas. */
  const Side := Scale * Px
  /** `maxOffset`: the amplitude of the offset wave. */
  const MaxOffset := 50

  /** JavaScript's `a % n` for `n > 0`: the remainder of division truncated
      toward zero, so it takes the sign of `a`. */
  function JsRem(a: int, n: int): (r: int)
    requires n > 0
    ensures -n < r < n
    ensures a >= 0 ==> r >= 0
    ensures a <= 0 ==> r <= 0
    ensures exists q :: a == q * n + r
  {
    if a >= 0 then
      assert a == (a / n) * n + a % n;
      a % n
    else
      assert -a == ((-a) / n) * n + (-a) % n;
      assert a == (-((-a) / n)) * n + -((-a) % n);
      -((-a) % n)
  }

  /** A product of a positive factor and `n > 0` is at least `n`. */
  lemma {:induction false} MulAtLeast(k: int, n: int)
    requires k >= 1 && n > 0
    ensures k * n >= n
    decreases k
  {
    if k > 1 {
      MulAtLeast(k - 1, n);
      assert k * n == (k - 1) * n + n;
    }
  }

  /** Quotient and remainder are the only ones: `a == q * n + r` with
      `0 <= r < n` fixes `a / n == q` and `a % n == r`. */
  lemma DivModUnique(a: int, n: int, q: int, r: int)
    requires n > 0 && 0 <= r < n && a == q * n + r
    ensures a / n == q && a % n == r
  {
    var q', r' := a / n, a % n;
    assert a == q' * n + r';
    assert (q - q') * n == r' - r;
    if q > q' {
      MulAtLeast(q - q', n);
    } else if q < q' {
      MulAtLeast(q' - q, n);
    }
  }

  /** The offset `render` receives from counter value `t`: the amplitude
      less the distance of `t` modulo twice the amplitude (JavaScript
      remainder) from the amplitude, a triangle wave. */
  function Triangle(t: int, m: int): (f: int)
    requires m > 0
    ensures t >= 0 ==> 0 <= f <= m
  {
    m - Abs(JsRem(t, 2 * m) - m)
  }

  /** On the counter values the wave starts at 0 and peaks at `maxOffset`. */
  lemma TriangleEndpoints(m: int)
    requires m > 0
    ensures Triangle(0, m) == 0 && Triangle(m, m) == m && Triangle(2 * m, m) == 0
  {
    DivModUnique(m, 2 * m, 0, m);
    DivModUnique(2 * m, 2 * m, 1, 0);
  }

  /** The wave repeats with period `2 * maxOffset`. */
  lemma TrianglePeriodic(t: int, m: int)
    requires m > 0 && t >= 0
    ensures Triangle(t + 2 * m, m) == Triangle(t, m)
  {
    var n := 2 * m;
    assert t == (t / n) * n + t % n;
    assert t + n == (t / n + 1) * n + t % n;
    DivModUnique(t + n, n, t / n + 1, t % n);
  }

  /** Consecutive counter values give offsets one apart: the wave climbs
      from 0 to `maxOffset` and back one step at a time. */
  lemma TriangleUnitStep(t: int, m: int)
    requires m > 0 && t >= 0
    ensures Abs(Triangle(t + 1, m) - Triangle(t, m)) == 1
  {
    var n := 2 * m;
    var q, r := t / n, t % n;
    assert t == q * n + r;
    if r < n - 1 {
      DivModUnique(t + 1, n, q, r + 1);
    } else {
      assert t + 1 == (q + 1) * n + 0;
      DivModUnique(t + 1, n, q + 1, 0);
    }
  }

  /** Within one period the wave is symmetric about `maxOffset`. */
  lemma TriangleMirror(t: int, m: int)
    requires m > 0 && 0 <= t <= 2 * m
    ensures Triangle(2 * m - t, m) == Triangle(t, m)
  {
    if t == 0 {
      TriangleEndpoints(m);
    } else if t == 2 * m {
      TriangleEndpoints(m);
    } else {
      DivModUnique(t, 2 * m, 0, t);
      DivModUnique(2 * m - t, 2 * m, 0, 2 * m - t);
    }
  }

  /** `u = parseInt(width / 8)` and the `k`-th sort region of `render`:
      `(0, 0, w, h)`, `(u, u, w - 2u, h - 2u)`, `(2u, 2u, w - 4u, h - 4u)`,
      where the source takes `h` from the canvas width as well. */
  function InsetRegion(width: nat, k: nat): (r: Rect)
    requires k < 3
    ensures r.x == r.y == k * (width / 8)
    ensures r.w == r.h && r.x + r.w + r.x == width
  {
    var u := width / 8;
    var d := if k == 0 then 0 else if k == 1 then u else 2 * u;
    Rect(d, d, width - 2 * d, width - 2 * d)
  }

  /** The three regions lie on the canvas, each inside the previous one,
      and each has a positive size on any non-empty square canvas. */
  lemma InsetsNested(width: nat, k: nat)
    requires k < 3
    ensures Within(InsetRegion(width, k), width, width)
    ensures k < 2 ==> Inside(InsetRegion(width, k + 1), InsetRegion(width, k))
    ensures width > 0 ==> InsetRegion(width, k).w > 0 && InsetRegion(width, k).h > 0
  {
  }

  /** On the 512 canvas `u` is 64, and the regions are 512, 384 and 256
      pixels wide. */
  lemma InsetsOnSide()
    ensures InsetRegion(Side, 0) == Rect(0, 0, 512, 512)
    ensures InsetRegion(Side, 1) == Rect(64, 64, 384, 384)
    ensures InsetRegion(Side, 2) == Rect(128, 128, 256, 256)
  {
  }

  /** `render(offset)` on contents `g`: sort the full region by red, the
      first inset by green, the second by blue, each with `byOffRGB` bound
      to `offset`. */
  function Insets(g: Grid, width: nat, offset: int, sort: Sorter): (res: Grid)
    requires IsRaster(g, width, width) && KeepsShape(sort)
    ensures IsRaster(res, width, width)
  {
    InsetsNested(width, 0);
    InsetsNested(width, 1);
    InsetsNested(width, 2);
    var red := SortWindow(g, width, width, InsetRegion(width, 0), Shifted(0, offset), sort);
    var green := SortWindow(red, width, width, InsetRegion(width, 1), Shifted(1, offset), sort);
    SortWindow(green, width, width, InsetRegion(width, 2), Shifted(2, offset), sort)
  }

  /** Outside the first inset only the red pass acts; between the first and
      second insets the green pass has the last word; inside the second
      inset the blue pass does. */
  lemma InsetsLayers(g: Grid, width: nat, offset: int, sort: Sorter, i: int, j: int)
    requires IsRaster(g, width, width) && KeepsShape(sort) && 0 <= i < width && 0 <= j < width
    ensures !Covers(InsetRegion(width, 1), i, j) ==>
      Insets(g, width, offset, sort)[i][j]
        == SortWindow(g, width, width, InsetRegion(width, 0), Shifted(0, offset), sort)[i][j]
    ensures !Covers(InsetRegion(width, 2), i, j) ==>
      Insets(g, width, offset, sort)[i][j]
        == SortWindow(SortWindow(g, width, width, InsetRegion(width, 0), Shifted(0, offset), sort),
                      width, width, InsetRegion(width, 1), Shifted(1, offset), sort)[i][j]
  {
    InsetsNested(width, 0);
    InsetsNested(width, 1);
    InsetsNested(width, 2);
  }

  /** `n` renders from counter value `t`: render `k` gets `Triangle(t + k)`. */
  function Animate(g: Grid, width: nat, t: int, n: nat, sort: Sorter): (res: Grid)
    requires IsRaster(g, width, width) && KeepsShape(sort)
    ensures IsRaster(res, width, width)
  {
    if n == 0 then g
    else Insets(Animate(g, width, t, n - 1, sort), width, Triangle(t + n - 1, MaxOffset), sort)
  }

  lemma AnimateStep(g: Grid, width: nat, t: int, n: nat, sort: Sorter)
    requires IsRaster(g, width, width) && KeepsShape(sort)
    ensures Animate(g, width, t, n + 1, sort) == Insets(Animate(g, width, t, n, sort), width, Triangle(t + n, MaxOffset), sort)
  {
  }

  /** What `paintColors` leaves on the canvas: the cell at row `y`, column
      `x` holds `colorList[y * SCALE + x]`. */
  function Painted(colorList: seq<Pixel>): (g: Grid)
    requires |colorList| == Colors
    ensures IsRaster(g, Side, Side)
  {
    seq(Scale, y requires 0 <= y < Scale => seq(Scale, x requires 0 <= x < Scale => colorList[y * Scale + x]))
  }

  /** The row-major index `y * SCALE + x` is one-to-one on the grid... */
  lemma RowMajorInjective(y1: int, x1: int, y2: int, x2: int)
    requires 0 <= x1 < Scale && 0 <= x2 < Scale && 0 <= y1 && 0 <= y2
    requires y1 * Scale + x1 == y2 * Scale + x2
    ensures y1 == y2 && x1 == x2
  {
  }

  /** ...and onto `[0, COLORS)`: every entry of the colour list is painted,
      at row `i / SCALE`, column `i % SCALE`. */
  lemma EveryColorPainted(colorList: seq<Pixel>, i: int)
    requires |colorList| == Colors && 0 <= i < Colors
    ensures 0 <= i / Scale < Scale && 0 <= i % Scale < Scale
    ensures (i / Scale) * Scale + i % Scale == i
    ensures Painted(colorList)[i / Scale][i % Scale] == colorList[i]
  {
  }

  /** The state of one colour-glitch canvas. */
  class ColorGlitchCanvas {
    const canvas: Canvas
    /** `colorList`, the `COLORS` colours of the chroma scale. */
    const colorList: seq<Pixel>
    /** The counter behind the offset wave. */
    var offset: int

    ghost predicate Valid()
      reads this, canvas
    {
      && canvas.Valid() && canvas.width == Side && canvas.height == Side
      && |colorList| == Colors
      && offset >= 0
    }

    /** The constructor, given the colour list it computes. */
    constructor (colorList: seq<Pixel>)
      requires |colorList| == Colors
      ensures Valid() && fresh(canvas)
      ensures this.colorList == colorList && offset == 0
      ensures canvas.pixels == Solid(Side, Side, Transparent)
    {
      canvas := new Canvas(Side, Side);
      this.colorList := colorList;
      offset := 0;
    }

    /** `paintColors()`: one `PX` by `PX` cell per colour, row by row. */
    method PaintColors()
      requires Valid()
      modifies canvas
      ensures Valid()
      ensures canvas.pixels == Painted(colorList)
    {
      for y := 0 to Scale
        invariant Valid()
        invariant forall r, c :: 0 <= r < y && 0 <= c < Scale ==> canvas.pixels[r][c] == colorList[r * Scale + c]
      {
        for x := 0 to Scale
          invariant Valid()
          invariant forall r, c :: 0 <= r < y && 0 <= c < Scale ==> canvas.pixels[r][c] == colorList[r * Scale + c]
          invariant forall c :: 0 <= c < x ==> canvas.pixels[y][c] == colorList[y * Scale + c]
        {
          var i := y * Scale + x;
          canvas.FillRect(Rect(x * Px, y * Px, Px, Px), colorList[i]);
        }
      }
      assert forall r :: 0 <= r < Scale ==> canvas.pixels[r] == Painted(colorList)[r];
    }

    /** `render(offset)`. */
    method Render(offset: int, sort: Sorter)
      requires Valid() && KeepsShape(sort)
      modifies canvas
      ensures Valid()
      ensures canvas.pixels == Insets(old(canvas.pixels), Side, offset, sort)
    {
      InsetsNested(Side, 0);
      InsetsNested(Side, 1);
      InsetsNested(Side, 2);
      var u := canvas.width / 8;
      var w := canvas.width;
      var h := canvas.width;
      assert Rect(u, u, w - u * 2, h - u * 2) == InsetRegion(Side, 1);
      assert Rect(u * 2, u * 2, w - u * 4, h - u * 4) == InsetRegion(Side, 2);
      canvas.PixelSort(Rect(0, 0, w, h), Shifted(0, offset), sort);
      canvas.PixelSort(Rect(u, u, w - u * 2, h - u * 2), Shifted(1, offset), sort);
      canvas.PixelSort(Rect(u * 2, u * 2, w - u * 4, h - u * 4), Shifted(2, offset), sort);
    }

    /** One iteration of `runRender`: post-increment the counter and render
        with the wave's value at the counter's old value. */
    method Advance(sort: Sorter)
      requires Valid() && KeepsShape(sort)
      modifies this, canvas
      ensures Valid()
      ensures offset == old(offset) + 1
      ensures canvas.pixels == Insets(old(canvas.pixels), Side, Triangle(old(offset), MaxOffset), sort)
    {
      var t := offset;
      offset := offset + 1;
      Render(Triangle(t, MaxOffset), sort);
    }

    /** `runRender()`: three renders, each with the offset of the counter's
        value before its post-increment. */
    method RunRender(sort: Sorter)
      requires Valid() && KeepsShape(sort)
      modifies this, canvas
      ensures Valid()
      ensures offset == old(offset) + 3
      ensures canvas.pixels == Animate(old(canvas.pixels), Side, old(offset), 3, sort)
    {
      ghost var g0 := canvas.pixels;
      ghost var t0 := offset;
      for i := 0 to 3
        invariant Valid()
        invariant offset == t0 + i
        invariant canvas.pixels == Animate(g0, Side, t0, i, sort)
      {
        Advance(sort);
        AnimateStep(g0, Side, t0, i, sort);
      }
    }

    /** `init()` of `ClrGltch`: paint the colours, then one `runRender`. */
    method Init(sort: Sorter)
      requires Valid() && KeepsShape(sort)
      modifies this, canvas
      ensures Valid()
      ensures offset == old(offset) + 3
      ensures canvas.pixels == Animate(Painted(colorList), Side, old(offset), 3, sort)
    {
      PaintColors();
      RunRender(sort);
    }
  }
}
