# Glitch surfaces: a Dafny model

This project models the texture generators of *terraforming-surfaces-3*.
They are the canvases that the 3-D scene later uses as a texture.

- **The glitch compositor** (`ClrGltchSurface`, and its near-duplicate `Surface`):
  - It pushes five tiers of square boxes (256, 128, 64, 32 and 16 pixels).
  - It sorts the boxes with the multi-key comparator `maxside`, built from `msort`, and hands them to a shelf packer.
  - It paints a base image over the whole 512 by 512 canvas, then stamps every packed box with a same-size crop of a random source image.
  - It then runs five glitch passes. Each pass picks a grid anchor and selects the largest quadrant size that fits from there. It pixel-sorts that square and sometimes re-sorts the top-left corner. Sometimes it re-stamps a random box that is not 256 wide.
- **The colour-glitch canvases** (`ClrGltch`, and `ClrGltchFast`, which differs only in how it paints the canvas):
  - `ClrGltch` paints one cell per colour, in row-major order.
  - `runRender` renders three times. Each render pixel-sorts three nested inset regions with the offset comparator `byOffRGB`.
  - The offset follows a triangle wave of a counter field. The counter is post-incremented once per render.
- **`reshape`** of `utils.js`: cuts a flat array into rows.

The canvas (`Raster.Canvas`) is a class whose pixel grid the drawing methods overwrite. Each method's contract ties the new grid to two pure functions:

- `Window` reads one rectangle.
- `Splice` writes one rectangle and leaves every other pixel unchanged.

The surfaces and colour canvases are classes whose methods follow the source's loops. Each method is proved against a pure function of the draws it is given: `StampAll`, `Glitched`, `GlitchedAll`, `Insets`, `Animate` and `Painted`. Lemmas then state what those functions guarantee.

Randomness is passed in as parameters:

- the `fxrand()` draws of the tier loops are reals in `[0, 1)`;
- the draws of one render are a `Draw` record;
- the draws of one stamp are a `Crop` record.

Three foreign collaborators are also parameters, each with a contract:

- the pixel sort (`./pixelSort`) must return image data of the same shape;
- the shelf packer must return disjoint in-bounds placements of some of the boxes it was given;
- the colour list is handed to the constructor.

The error paths of the source are modelled:

- `reduce` on an empty list throws a TypeError. `SelectSize` returns `None` for it, and `RegionOnCanvas` proves this never happens.
- A re-stamp from an empty candidate list reads an `undefined` box, and `paintRect` then throws. `Render` returns `ok == false` for it, and `RunFrames` stops there.

Neither failure is skipped. When no quadrant size fits, `reduce` throws. When the re-stamp candidate list is empty, `paintRect` throws. The model follows the code in both cases.

## Model

| member | source | states |
|---|---|---|
| Pixels.ByChannel | src/lib/ClrGltchSurface.js:138-142 | `byR`/`byG`/`byB` is positive exactly when channel `i` of `a` is larger, and zero exactly when the channels are equal |
| Pixels.ByOffRGB | src/lib/ClrGltch.js:97-110 | `byOffRGB` is the sign of the channel difference less the offset capped at 255, so it only returns -1, 0 or 1 |
| Pixels.ByOffRGBZeroOffset | src/lib/ClrGltchFast.js:113-122 | with offset 0 the comparator is the sign of the plain channel comparator, and it is antisymmetric |
| Pixels.ByOffRGBCapped | src/lib/ClrGltchFast.js:113-122 | every offset of at least 255 compares exactly as 255 |
| Pixels.ByOffRGBNotReflexive | src/lib/ClrGltchFast.js:113-122 | with a positive offset, every pixel compares below itself (-1), so the comparator is not a consistent ordering |
| Raster.Window | src/lib/ClrGltchSurface.js:127-128 | reading a rectangle gives a raster of its size whose pixel `(i, j)` is pixel `(y+i, x+j)` of the canvas |
| Raster.Splice | src/lib/ClrGltchSurface.js:226-236 | writing a patch into a rectangle changes the pixels inside it to the patch and leaves every other pixel as it was |
| Raster.SpliceOwnWindow | src/lib/ClrGltchSurface.js:127-157 | writing back the image data just read leaves the canvas unchanged |
| Raster.WindowWhole | src/lib/ClrGltchSurface.js:206-216 | reading the whole canvas gives the canvas |
| Raster.SpliceWhole | src/lib/ClrGltchSurface.js:206-216 | drawing a whole canvas-sized image at the origin leaves exactly that image |
| Raster.SortWindow | src/lib/ClrGltchSurface.js:127-158 | `pixelSort` leaves every pixel outside the rectangle unchanged and fills the rectangle with the sort's result on its old contents |
| Raster.Canvas.constructor | src/lib/ClrGltchSurface.js:28-31 | a new canvas of the given size is fully transparent |
| Raster.Canvas.PixelSort | src/lib/ClrGltchSurface.js:127-158 | the new pixels are `SortWindow` of the old ones |
| Raster.Canvas.DrawImage | src/lib/ClrGltchSurface.js:226-236 | the new pixels are the old ones with the destination rectangle replaced by the same-size crop of the image |
| Raster.Canvas.FillRect | src/lib/ClrGltch.js:58-59 | the new pixels are the old ones with the rectangle filled with one colour |
| Layout.Apply | src/lib/ClrGltchSurface.js:169-180 | each of `w`, `h`, `max` and `min` is negative exactly when `a` has the larger key, so the larger key sorts first, and 0 exactly when the keys are equal |
| Layout.Lexicographic | src/lib/ClrGltchSurface.js:182-190 | the result is 0 exactly when every criterion is 0, and otherwise it is the value of the first non-zero criterion |
| Layout.Msort | src/lib/ClrGltchSurface.js:182-190 | the loop with early return computes the lexicographic comparison |
| Layout.MaxSide | src/lib/ClrGltchSurface.js:192-194 | `maxside(a, b)` is negative exactly when `a` goes first by long side, then short side, then height, then width, larger first; it is 0 exactly on boxes of equal width and height |
| Layout.MaxSideKeys | src/lib/ClrGltchSurface.js:169-194 | `maxside` compares by long side, then short side, then height, then width, larger first |
| Layout.MaxSideAntisymmetric | src/lib/ClrGltchSurface.js:169-194 | `maxside(a, b) == -maxside(b, a)` |
| Layout.MaxSideLargerFirst | src/lib/ClrGltchSurface.js:175-177 | a box with a longer side sorts before a box with a shorter one |
| Layout.MaxSideExample | src/lib/ClrGltchSurface.js:192-194 | the 256 box sorts before the 16 box |
| Layout.MaxSideTransitive | src/lib/ClrGltchSurface.js:192-196 | `maxside(a, b) <= 0` and `maxside(b, c) <= 0` give `maxside(a, c) <= 0` |
| Layout.SortedLongSideNonIncreasing | src/lib/ClrGltchSurface.js:196 | after the sort the long side never increases along the list |
| Layout.Insert | src/lib/ClrGltchSurface.js:196 | one insertion step adds exactly the inserted box |
| Layout.InsertSorted | src/lib/ClrGltchSurface.js:196 | inserting into a sorted list keeps it sorted |
| Layout.SortByMaxSide | src/lib/ClrGltchSurface.js:196 | the sorted boxes are ordered by `maxside` and are a permutation of the pushed boxes |
| Layout.SortedUnique | src/lib/ClrGltchSurface.js:196 | two sorted permutations of the same boxes are equal, so any correct sort gives this model's order |
| Layout.SortScenario | src/lib/ClrGltchSurface.js:162-196 | 128, 256, 128 sorts to 256, 128, 128 |
| Layout.TierCount | src/lib/ClrGltchSurface.js:162-167 | a tier loop pushes at least one box and, for a positive bound, at most `bound` boxes |
| Layout.Repeat | src/lib/ClrGltchSurface.js:162-167 | `n` pushes of one box give `n` copies of it |
| Layout.RepeatCount | src/lib/ClrGltchSurface.js:162-167 | `n` copies of a box hold that box `n` times and no other box |
| Layout.Tiers | src/lib/ClrGltchSurface.js:162-167 | the five tier loops push between 5 and 172 square boxes, each 256, 128, 64, 32 or 16 wide, and never push a box wider than the one before it |
| Layout.TierCounts | src/lib/ClrGltchSurface.js:162-167 | there are one or two 256 boxes, 1 to 20 boxes of 128, 1 to 50 of each smaller size, and no other size |
| Layout.Packed | src/lib/ClrGltchSurface.js:198-199 | a packing puts every placement's pixels on the canvas, and no pixel lies in two placements |
| Layout.PackerContract | src/lib/ClrGltchSurface.js:198-199 | what is assumed of the shelf packer: for every box list, its placements lie on the canvas, are pairwise disjoint, and have sizes that are a sub-multiset of the given boxes; so it never returns more placements than boxes |
| Layout.RestampCandidates | src/lib/ClrGltchSurface.js:260-262 | a box is a candidate exactly when it is packed and its width is not 256, and the candidates are in their packed order, as `filter` leaves them |
| Quadrants.MaxFit | src/lib/ClrGltchSurface.js:248 | a square of side `maxSz` from the anchor ends on the canvas in both directions, and from an anchor on the grid it is at least one unit wide |
| Quadrants.MaxFitTight | src/lib/ClrGltchSurface.js:248 | `maxSz` is the largest square from the anchor that stays on the canvas: it reaches the right or the bottom edge, and any side that ends on the canvas in both directions is no larger |
| Quadrants.Closest | src/lib/ClrGltchSurface.js:249-250 | `closest` returns one of its two arguments, the one nearer to `maxSz`, and moves to `curr` only when `curr` is strictly nearer |
| Quadrants.ReduceClosest | src/lib/ClrGltchSurface.js:251 | the `reduce` with `closest` returns an element of the list, and no element is nearer to `maxSz` |
| Quadrants.FitsWithin | src/lib/ClrGltchSurface.js:251 | a size is kept exactly when it is a quadrant size not above `maxSz`, and the kept sizes are in their original order, as `filter` leaves them |
| Quadrants.ReduceFindsFirstClosest | src/lib/ClrGltchSurface.js:249-251 | reducing with `closest` returns the first element at the least distance from `maxSz` (ties keep the earlier one) |
| Quadrants.FirstClosestDropHead | src/lib/ClrGltchSurface.js:249-250 | when the next element is strictly closer, `closest` moves to it |
| Quadrants.FirstClosestDropSecond | src/lib/ClrGltchSurface.js:249-250 | when the next element is not strictly closer, `closest` keeps the earlier one |
| Quadrants.ReduceOfFitsIsLargest | src/lib/ClrGltchSurface.js:251 | among sizes that all fit, the closest is the largest |
| Quadrants.SelectSize | src/lib/ClrGltchSurface.js:248-251 | the reduce throws exactly when no quadrant size fits; otherwise the selected size is a quadrant size, fits, and is the largest that fits |
| Quadrants.RegionOnCanvas | src/lib/ClrGltchSurface.js:246-253 | for a unit size of at least 32 and an anchor on the grid, a size always fits and the sorted square stays on the canvas |
| Quadrants.AnchorOriginExample | src/lib/ClrGltchSurface.js:246-251 | unit size 64, anchor `(0, 0)`: `maxSz` is 512 and the size is 256 |
| Quadrants.SmallFitExample | src/lib/ClrGltchSurface.js:249-251 | with `maxSz` 40 the size is 32 |
| Surfaces.CropFor | src/lib/ClrGltchSurface.js:224-229 | the draws of `paintRect` (image index and crop origin) put the crop window inside the source image |
| Surfaces.Stamp | src/lib/ClrGltchSurface.js:223-237 | `paintRect` puts the crop's pixels into the box and leaves every other pixel unchanged |
| Surfaces.StampAll | src/lib/ClrGltchSurface.js:218-220 | stamping every packed box keeps a canvas-sized raster |
| Surfaces.StampAllInside | src/lib/ClrGltchSurface.js:202-221 | after `paintRects`, a pixel in packed box `k` holds box `k`'s own crop, because later stamps never overlap it |
| Surfaces.StampAllOutside | src/lib/ClrGltchSurface.js:202-221 | after `paintRects`, a pixel outside every packed box holds the base image |
| Surfaces.Throws | src/lib/ClrGltchSurface.js:259-263 | a render throws exactly when it draws a re-stamp and every packed box is 256 wide, since `boxes[rRange(0, -1)]` is then `undefined` |
| Surfaces.UnitsCoverCanvas | src/lib/ClrGltchSurface.js:10-26 | for each unit size the units tile the 512 canvas exactly |
| Surfaces.GlitchRegion | src/lib/ClrGltchSurface.js:246-253 | the sorted region is a square of a selected quadrant size at the anchor, on the canvas |
| Surfaces.GlitchRegionLargest | src/lib/ClrGltchSurface.js:246-251 | no quadrant size larger than the selected one would stay on the canvas from the anchor, so each pass sorts the largest quadrant square that fits there |
| Surfaces.Glitched | src/lib/ClrGltchSurface.js:245-265 | one render keeps a canvas-sized raster |
| Surfaces.GlitchedFrame | src/lib/ClrGltchSurface.js:253-264 | a render changes no pixel outside its sort region, the corner region when it is re-sorted, and the re-stamped box |
| Surfaces.GlitchedAll | src/lib/ClrGltchSurface.js:239-243 | the five renders in turn keep a canvas-sized raster |
| Surfaces.GlitchedAllStep | src/lib/ClrGltchSurface.js:239-243 | one more pass applies one more render to the result so far |
| Surfaces.Surface.constructor | src/lib/ClrGltchSurface.js:18-43 | the surface starts with no boxes and a transparent 512 canvas, with units of the drawn unit size |
| Surfaces.Surface.PushTier | src/lib/ClrGltchSurface.js:162 | a tier loop appends exactly `TierCount` copies of its box |
| Surfaces.Surface.PushTiers | src/lib/ClrGltchSurface.js:162-167 | the five tier loops append the five tiers in order |
| Surfaces.Surface.CreateBoxes | src/lib/ClrGltchSurface.js:160-200 | the boxes become the sorted tiers, and the placements are the packer's result for them |
| Surfaces.Surface.PaintRect | src/lib/ClrGltchSurface.js:223-237 | the canvas becomes `Stamp` of its old contents |
| Surfaces.Surface.PaintRects | src/lib/ClrGltchSurface.js:202-221 | the canvas becomes the base image stamped with every packed box |
| Surfaces.Surface.Render | src/lib/ClrGltchSurface.js:245-265 | the render fails exactly on a re-stamp from an empty candidate list, and the canvas becomes `Glitched` of its old contents |
| Surfaces.Surface.RunFrames | src/lib/ClrGltchSurface.js:239-243 | the passes succeed exactly when no render fails, and then the canvas is the five renders applied in turn |
| Surfaces.Surface.Generate | src/lib/ClrGltchSurface.js:45-51 | generation creates the boxes, paints the stamps and runs the passes; the canvas is the composition of the three |
| ColorGlitch.JsRem | src/lib/ClrGltch.js:91 | the JavaScript remainder is below the divisor in size, takes the sign of the dividend, and differs from it by a multiple of the divisor |
| ColorGlitch.Triangle | src/lib/ClrGltch.js:89-91 | for a counter that is not negative, the offset handed to `render` is between 0 and `maxOffset` |
| ColorGlitch.TriangleEndpoints | src/lib/ClrGltchFast.js:26-27 | the wave is 0 at counter 0 and at `2 * maxOffset`, and `maxOffset` at counter `maxOffset` |
| ColorGlitch.TrianglePeriodic | src/lib/ClrGltchFast.js:104-109 | the wave repeats with period `2 * maxOffset` |
| ColorGlitch.TriangleUnitStep | src/lib/ClrGltchFast.js:104-109 | consecutive renders get offsets exactly one apart |
| ColorGlitch.TriangleMirror | src/lib/ClrGltchFast.js:104-109 | within a period the wave is symmetric about `maxOffset` |
| ColorGlitch.InsetRegion | src/lib/ClrGltch.js:112-120 | sort region `k` is a square centred on the canvas, with a margin of `k * u` on every side, where `u = parseInt(width / 8)` |
| ColorGlitch.InsetsNested | src/lib/ClrGltchFast.js:128-136 | the three regions lie on the canvas, each inside the previous one, and all have positive size |
| ColorGlitch.InsetsOnSide | src/lib/ClrGltch.js:112-120 | on the 512 canvas the regions start at 0, 64 and 128 and are 512, 384 and 256 wide |
| ColorGlitch.Insets | src/lib/ClrGltch.js:96-121 | one render keeps a canvas-sized raster |
| ColorGlitch.InsetsLayers | src/lib/ClrGltch.js:116-120 | the outer ring keeps the red pass's result, and the middle ring keeps the green pass's result |
| ColorGlitch.Animate | src/lib/ClrGltch.js:87-94 | a run of renders keeps a canvas-sized raster |
| ColorGlitch.AnimateStep | src/lib/ClrGltch.js:87-94 | render `n` uses the wave at counter `t + n` |
| ColorGlitch.Painted | src/lib/ClrGltch.js:52-62 | the painted canvas is a 512 by 512 raster |
| ColorGlitch.RowMajorInjective | src/lib/ClrGltch.js:53-56 | two different cells never share the index `y * SCALE + x` |
| ColorGlitch.EveryColorPainted | src/lib/ClrGltch.js:53-56 | every entry `i` of the colour list is painted, at row `i / SCALE` and column `i % SCALE` |
| ColorGlitch.ColorGlitchCanvas.constructor | src/lib/ClrGltch.js:9-40 | the canvas starts transparent and the counter at 0 |
| ColorGlitch.ColorGlitchCanvas.PaintColors | src/lib/ClrGltch.js:52-62 | after the nested loops, cell `(y, x)` holds `colorList[y * SCALE + x]` |
| ColorGlitch.ColorGlitchCanvas.Render | src/lib/ClrGltch.js:96-121 | the canvas becomes the three inset sorts of its old contents |
| ColorGlitch.ColorGlitchCanvas.Advance | src/lib/ClrGltch.js:89-92 | one iteration advances the counter by one and renders with the wave at its old value |
| ColorGlitch.ColorGlitchCanvas.RunRender | src/lib/ClrGltch.js:87-94 | the counter advances by exactly 3, and the canvas receives three renders at the counter's old values `t`, `t+1`, `t+2` |
| ColorGlitch.ColorGlitchCanvas.Init | src/lib/ClrGltch.js:42-46 | `init` paints the colours and then runs one `runRender` |
| Reshape.Reshaped | src/lib/utils.js:10-25 | the result has exactly `rows` rows |
| Reshape.ReshapedRow | src/lib/utils.js:13-19 | a row has at most `cols` elements, element `c` of row `r` is `arr[r * cols + c]`, a row is full exactly when it ends inside `arr`, and a row starting past the end is empty |
| Reshape.NoColumns | src/lib/utils.js:15 | with no columns every row is empty |
| Reshape.FlattenReshaped | src/lib/utils.js:10-25 | the rows laid end to end are the first `rows * cols` elements of `arr` |
| Reshape.ReshapeRoundTrip | src/lib/utils.js:10-25 | when `arr` has exactly `rows * cols` elements, every row is full and laying the rows end to end gives `arr` back |
| Reshape.Reshape | src/lib/utils.js:10-25 | the nested loops build exactly the reshaped rows |

`Surface.js` repeats these operations of `ClrGltchSurface.js`, so the model covers it too:

- `createBoxes`: src/lib/Surface.js:112-152
- `paintRects` and `paintRect`: src/lib/Surface.js:154-189
- `animate`, which is `runFrames`: src/lib/Surface.js:191-195
- `render`: src/lib/Surface.js:197-217

`ClrGltchFast.js` repeats the counter, the comparator and the insets of `ClrGltch.js`.

## Left out

- `src/index.js` is not part of this model. It is the three.js scene, model loading, lights, resizing and the animation loop.
- The pixel sort `./pixelSort` is not part of this model. It is a parameter whose only promise is to return image data of the shape it was given. Its permutation property, and the axis transposes of the ndarray plumbing, are not modelled.
- The shelf packer is not part of this model. It is a parameter that returns disjoint, in-bounds placements of some of the given boxes.
- `fxrand`, `rRange` and `rArray` are not modelled. Their results are parameters: the tier draws, and the `Draw` and `Crop` records.
- Canvas 2D compositing is left out. `drawImage` and `fillRect` overwrite pixels, which matches source-over drawing of opaque pixels. Clipping and scaling are left out because every call here draws a crop of its own size inside the canvas. Fill-style string parsing is also left out.
- `ClrGltchFast.paintColors` is left out because it paints two linear gradients with fractional colour stops. So are the chroma colour scales of both colour canvases: the colour list is given to the constructor.
- `localStorage` caching, `loadImages`, `imageCanvas`, the asynchronous `init` with its `onComplete` callback, `addCanvas` and console logging are left out. The image pool is given to the constructor.
- The fields `delay`, `lastRender`, `paused`, `strokeStyle` and `colorSpectrum` are left out because nothing in the core reads them.
- `oneDTotwoD` in src/lib/utils.js is left out. It is not exported, and it never terminates on a non-empty array because it never shortens the array.
- The source stores the packer's result back into `this.boxes`. The model keeps the sorted boxes and the placements in two fields, `boxes` and `packed`.
- `reshape` is modelled for integer `rows` and `cols` only. Fractional or `NaN` arguments are left out.
- The offset counter is an unbounded integer. A JavaScript number stops counting exactly after 2^53 increments, and that is not modelled.
- Surfaces.Surface.RunFrames: when a render fails, the contract does not say what the canvas holds. In the source it holds the partial work of the failing render.
- Surfaces.Surface.Generate: has the same gap when a render fails.
