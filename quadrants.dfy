/** Size selection of one glitch pass (`render`): from a grid anchor
    `(x, y)`, the largest square that stays on the canvas is
    `maxSz = min(units - x, units - y) * unitSize`, and the region size is
    the quadrant size at most `maxSz` that is closest to it, found by
    filtering the quadrant sizes and reducing them with `closest`. */
module Quadrants {
  import opened Arith
  import opened Seqs

  datatype Option<T> = None | Some(value: T)

  /** The quadrant sizes a glitch region may take. */
  const QuadrantSizes: seq<int> := [32, 64, 128, 256]

  /** The side of the largest grid-aligned square from `(x, y)`: the fewer
      of the units left to the right and below, times the unit size. A
      square of that side from the anchor ends on the canvas, and from an
      anchor on the grid it is at least one unit. */
  function MaxFit(units: int, unitSize: int, x: int, y: int): (m: int)
    ensures unitSize >= 0 ==> x * unitSize + m <= units * unitSize && y * unitSize + m <= units * unitSize
    ensures unitSize >= 0 && x < units && y < units ==> m >= unitSize
  {
    var n := if units - x <= units - y then units - x else units - y;
    assert unitSize >= 0 ==> n * unitSize <= (units - x) * unitSize && n * unitSize <= (units - y) * unitSize by {
      if unitSize >= 0 {
        MulMonotone(n, units - x, unitSize);
        MulMonotone(n, units - y, unitSize);
      }
    }
    assert unitSize >= 0 && x < units && y < units ==> n * unitSize >= unitSize by {
      if unitSize >= 0 && x < units && y < units {
        MulMonotone(1, n, unitSize);
      }
    }
    assert (units - x) * unitSize == units * unitSize - x * unitSize;
    assert (units - y) * unitSize == units * unitSize - y * unitSize;
    n * unitSize
  }

  /** The sizes not above `maxSz`, order kept. */
  function FitsWithin(qs: seq<int>, maxSz: int): (r: seq<int>)
    ensures forall s :: s in r <==> s in qs && s <= maxSz
    ensures |r| <= |qs|
    ensures IsSubsequence(r, qs)
  {
    if qs == [] then []
    else
      assert forall s :: s in qs <==> s == qs[0] || s in qs[1..];
      var rest := FitsWithin(qs[1..], maxSz);
      if qs[0] <= maxSz then
        assert ([qs[0]] + rest)[1..] == rest;
        [qs[0]] + rest
      else rest
  }

  /** `closest(prev, curr)`: the nearer of the two to `maxSz`; it moves to
      `curr` only when `curr` is strictly nearer, so a tie keeps `prev`. */
  function Closest(maxSz: int, prev: int, curr: int): (r: int)
    ensures r == prev || r == curr
    ensures Abs(r - maxSz) <= Abs(prev - maxSz) && Abs(r - maxSz) <= Abs(curr - maxSz)
    ensures r != prev ==> Abs(curr - maxSz) < Abs(prev - maxSz)
  {
    if Abs(curr - maxSz) < Abs(prev - maxSz) then curr else prev
  }

  /** Reducing `[acc] + rest` with `closest`: the left fold that starts from the
      first element. It returns an element of the list at the least distance
      from `maxSz`. */
  function ReduceClosest(maxSz: int, acc: int, rest: seq<int>): (r: int)
    ensures r in [acc] + rest
    ensures forall s :: s in [acc] + rest ==> Abs(r - maxSz) <= Abs(s - maxSz)
    decreases |rest|
  {
    if rest == [] then acc
    else
      var next := Closest(maxSz, acc, rest[0]);
      var r := ReduceClosest(maxSz, next, rest[1..]);
      assert next in [next] + rest[1..];
      assert forall s :: s in [acc] + rest <==> s == acc || s == rest[0] || s in rest[1..];
      assert forall s :: s in [acc] + rest ==> Abs(r - maxSz) <= Abs(s - maxSz) by {
        forall s | s in [acc] + rest
          ensures Abs(r - maxSz) <= Abs(s - maxSz)
        {
          if s in rest[1..] {
            assert s in [next] + rest[1..];
          }
        }
      }
      r
  }

  /** `t[k]` is closest to `m` among `t`, and no earlier element is as close. */
  predicate FirstClosestAt(t: seq<int>, m: int, k: int)
  {
    && 0 <= k < |t|
    && (forall j :: 0 <= j < |t| ==> Abs(t[k] - m) <= Abs(t[j] - m))
    && (forall j :: 0 <= j < k ==> Abs(t[j] - m) > Abs(t[k] - m))
  }

  /** Because `closest` compares with a strict `<`, the reduction returns
      the FIRST element at the least distance: ties keep the earlier one. */
  lemma {:induction false} ReduceFindsFirstClosest(m: int, acc: int, rest: seq<int>) returns (k: nat)
    ensures FirstClosestAt([acc] + rest, m, k)
    ensures ReduceClosest(m, acc, rest) == ([acc] + rest)[k]
    decreases |rest|
  {
    var t := [acc] + rest;
    if rest == [] {
      k := 0;
    } else {
      var acc' := Closest(m, acc, rest[0]);
      var k' := ReduceFindsFirstClosest(m, acc', rest[1..]);
      if Abs(rest[0] - m) < Abs(acc - m) {
        assert [acc'] + rest[1..] == t[1..];
        FirstClosestDropHead(t, m, k');
        k := k' + 1;
      } else {
        assert [acc'] + rest[1..] == [t[0]] + t[2..];
        FirstClosestDropSecond(t, m, k');
        k := if k' == 0 then 0 else k' + 1;
      }
    }
  }

  /** When the second element is strictly closer than the first, the first
      closest of the whole list is the first closest of its tail. */
  lemma FirstClosestDropHead(t: seq<int>, m: int, k': int)
    requires |t| >= 2 && Abs(t[1] - m) < Abs(t[0] - m) && FirstClosestAt(t[1..], m, k')
    ensures FirstClosestAt(t, m, k' + 1)
  {
    forall j | 1 <= j < |t|
      ensures Abs(t[k' + 1] - m) <= Abs(t[j] - m)
    {
      assert t[j] == t[1..][j - 1];
    }
    forall j | 1 <= j < k' + 1
      ensures Abs(t[j] - m) > Abs(t[k' + 1] - m)
    {
      assert t[j] == t[1..][j - 1];
    }
  }

  /** When the second element is not closer than the first, dropping it
      does not change which element is first closest. */
  lemma FirstClosestDropSecond(t: seq<int>, m: int, k': int)
    requires |t| >= 2 && Abs(t[1] - m) >= Abs(t[0] - m) && FirstClosestAt([t[0]] + t[2..], m, k')
    ensures FirstClosestAt(t, m, if k' == 0 then 0 else k' + 1)
  {
    var t' := [t[0]] + t[2..];
    assert forall j :: 2 <= j < |t| ==> t[j] == t'[j - 1];
    var k := if k' == 0 then 0 else k' + 1;
    assert t[k] == t'[k'];
    forall j | 0 <= j < |t|
      ensures Abs(t[k] - m) <= Abs(t[j] - m)
    {
      if j >= 2 { assert t[j] == t'[j - 1]; } else if j == 1 { assert Abs(t'[k'] - m) <= Abs(t'[0] - m); }
    }
    forall j | 0 <= j < k
      ensures Abs(t[j] - m) > Abs(t[k] - m)
    {
      if j >= 2 { assert t[j] == t'[j - 1]; } else if j == 1 { assert Abs(t'[0] - m) > Abs(t'[k'] - m); }
    }
  }

  /** The size `render` selects: filter, then reduce with `closest`. `None`
      stands for the TypeError `reduce` throws on an empty array. Every
      candidate is at most `maxSz`, so the closest one is the largest: the
      result is the largest member of `qs` not above `maxSz`. */
  function SelectSize(qs: seq<int>, maxSz: int): (r: Option<int>)
    ensures r.None? <==> forall s :: s in qs ==> s > maxSz
    ensures r.Some? ==> r.value in qs && r.value <= maxSz
    ensures r.Some? ==> forall s :: s in qs && s <= maxSz ==> s <= r.value
  {
    var fits := FitsWithin(qs, maxSz);
    if fits == [] then None
    else
      ReduceOfFitsIsLargest(fits, maxSz);
      Some(ReduceClosest(maxSz, fits[0], fits[1..]))
  }

  /** Over candidates that are all at most `maxSz`, the closest one is the
      largest one. */
  lemma ReduceOfFitsIsLargest(fits: seq<int>, maxSz: int)
    requires fits != [] && forall s :: s in fits ==> s <= maxSz
    ensures ReduceClosest(maxSz, fits[0], fits[1..]) in fits
    ensures forall s :: s in fits ==> s <= ReduceClosest(maxSz, fits[0], fits[1..])
  {
    var k := ReduceFindsFirstClosest(maxSz, fits[0], fits[1..]);
    assert [fits[0]] + fits[1..] == fits;
    assert fits[k] in fits;
    forall s | s in fits
      ensures s <= fits[k]
    {
      var j :| 0 <= j < |fits| && fits[j] == s;
      assert Abs(fits[k] - maxSz) <= Abs(fits[j] - maxSz);
    }
  }

  /** `maxSz` is the largest square from the anchor that stays on the
      canvas: it reaches the right edge or the bottom edge, and a square of
      any side `m` that ends on the canvas in both directions is no larger. */
  lemma MaxFitTight(units: int, unitSize: int, x: int, y: int, m: int)
    requires unitSize >= 0
    ensures x * unitSize + MaxFit(units, unitSize, x, y) == units * unitSize
         || y * unitSize + MaxFit(units, unitSize, x, y) == units * unitSize
    ensures x * unitSize + m <= units * unitSize && y * unitSize + m <= units * unitSize
            ==> m <= MaxFit(units, unitSize, x, y)
  {
    assert (units - x) * unitSize == units * unitSize - x * unitSize;
    assert (units - y) * unitSize == units * unitSize - y * unitSize;
  }

  /** With unit size at least 32 and an anchor on the grid, some quadrant
      size fits, and the square region it selects stays on the canvas. */
  lemma RegionOnCanvas(units: int, unitSize: int, x: int, y: int)
    requires unitSize >= 32 && 0 <= x < units && 0 <= y < units
    ensures MaxFit(units, unitSize, x, y) >= unitSize
    ensures SelectSize(QuadrantSizes, MaxFit(units, unitSize, x, y)).Some?
    ensures x * unitSize + SelectSize(QuadrantSizes, MaxFit(units, unitSize, x, y)).value <= units * unitSize
    ensures y * unitSize + SelectSize(QuadrantSizes, MaxFit(units, unitSize, x, y)).value <= units * unitSize
  {
    var maxSz := MaxFit(units, unitSize, x, y);
    var m := if units - x <= units - y then units - x else units - y;
    assert maxSz == m * unitSize;
    MulMonotone(1, m, unitSize);
    assert 32 in QuadrantSizes;
    var size := SelectSize(QuadrantSizes, maxSz).value;
    MulMonotone(m, units - x, unitSize);
    MulMonotone(m, units - y, unitSize);
    assert (units - x) * unitSize == units * unitSize - x * unitSize;
    assert (units - y) * unitSize == units * unitSize - y * unitSize;
  }

  /** With unit size 64 on a 512 canvas (8 units), anchor `(0, 0)` gives
      `maxSz = 512` and region size 256. */
  lemma AnchorOriginExample()
    ensures MaxFit(8, 64, 0, 0) == 512
    ensures SelectSize(QuadrantSizes, 512) == Some(256)
  {
    assert 256 in QuadrantSizes;
  }

  /** With `maxSz = 40` the region size is 32. */
  lemma SmallFitExample()
    ensures SelectSize(QuadrantSizes, 40) == Some(32)
  {
    assert 32 in QuadrantSizes;
  }
}
