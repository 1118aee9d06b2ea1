/** Box generation and ordering of `createBoxes`: the five size tiers, the
    multi-key comparator `maxside` built from `msort`, the sort that orders
    the boxes before packing, the packer's guarantee, and the filter that
    chooses re-stamp candidates. */
module Layout {
  import opened Raster
  import opened Seqs

  /** A box before packing: `{ w, h }`. */
  datatype Box = Box(w: int, h: int)

  /** The longer side of a box. */
  function LongSide(b: Box): int { if b.w >= b.h then b.w else b.h }

  /** The shorter side of a box. */
  function ShortSide(b: Box): int { if b.w <= b.h then b.w else b.h }

  /** The four comparators `max`, `min`, `h`, `w`; each is `key(b) - key(a)`,
      so that a larger key sorts first. */
  datatype Criterion = ByMax | ByMin | ByHeight | ByWidth

  /** The key a criterion reads from a box. */
  function Key(c: Criterion, b: Box): int
  {
    match c
    case ByMax => LongSide(b)
    case ByMin => ShortSide(b)
    case ByHeight => b.h
    case ByWidth => b.w
  }

  /** One comparator: negative when `a` has the larger key, so that `a`
      sorts first, and 0 exactly when the keys are equal. */
  function Apply(c: Criterion, a: Box, b: Box): (d: int)
    ensures d < 0 <==> Key(c, a) > Key(c, b)
    ensures d == 0 <==> Key(c, a) == Key(c, b)
  {
    match c
    case ByMax => LongSide(b) - LongSide(a)
    case ByMin => ShortSide(b) - ShortSide(a)
    case ByHeight => b.h - a.h
    case ByWidth => b.w - a.w
  }

  /** What `msort(a, b, criteria)` returns: the first non-zero criterion,
      and 0 only when every criterion is 0. */
  function Lexicographic(a: Box, b: Box, criteria: seq<Criterion>): (d: int)
    ensures d == 0 <==> forall k :: 0 <= k < |criteria| ==> Apply(criteria[k], a, b) == 0
    ensures d != 0 ==> exists k :: 0 <= k < |criteria| && d == Apply(criteria[k], a, b)
                                   && forall j :: 0 <= j < k ==> Apply(criteria[j], a, b) == 0
  {
    if criteria == [] then 0
    else
      var d := Apply(criteria[0], a, b);
      if d != 0 then d
      else
        var rest := Lexicographic(a, b, criteria[1..]);
        assert forall k :: 1 <= k < |criteria| ==> criteria[k] == criteria[1..][k - 1];
        rest
  }

  /** `msort`: the loop over the criteria with its early return. */
  method Msort(a: Box, b: Box, criteria: seq<Criterion>) returns (diff: int)
    ensures diff == Lexicographic(a, b, criteria)
  {
    for i := 0 to |criteria|
      invariant Lexicographic(a, b, criteria) == Lexicographic(a, b, criteria[i..])
    {
      diff := Apply(criteria[i], a, b);
      assert criteria[i..][1..] == criteria[i + 1..];
      if diff != 0 {
        return;
      }
    }
    return 0;
  }

  /** `[max, min, h, w]` */
  const MaxSideCriteria := [ByMax, ByMin, ByHeight, ByWidth]

  /** `a` sorts strictly before `b`: larger long side first, then larger
      short side, then larger height, then larger width. */
  predicate Before(a: Box, b: Box)
  {
    LongSide(a) > LongSide(b)
    || (LongSide(a) == LongSide(b) && ShortSide(a) > ShortSide(b))
    || (LongSide(a) == LongSide(b) && ShortSide(a) == ShortSide(b) && a.h > b.h)
    || (LongSide(a) == LongSide(b) && ShortSide(a) == ShortSide(b) && a.h == b.h && a.w > b.w)
  }

  /** `maxside(a, b)`, the comparator the box list is sorted with: it is
      negative exactly when `a` goes first under the four keys, and 0
      exactly on boxes of the same width and height. */
  function MaxSide(a: Box, b: Box): (d: int)
    ensures d < 0 <==> Before(a, b)
    ensures d == 0 <==> a == b
  {
    var w, hw, mhw := [ByWidth], [ByHeight, ByWidth], [ByMin, ByHeight, ByWidth];
    assert w[1..] == [] && hw[1..] == w && mhw[1..] == hw && MaxSideCriteria[1..] == mhw;
    assert Lexicographic(a, b, w) == b.w - a.w;
    assert Lexicographic(a, b, hw) == if a.h != b.h then b.h - a.h else b.w - a.w;
    assert Lexicographic(a, b, mhw) ==
      if ShortSide(a) != ShortSide(b) then ShortSide(b) - ShortSide(a) else Lexicographic(a, b, hw);
    Lexicographic(a, b, MaxSideCriteria)
  }

  /** `maxside` spelled out key by key. */
  lemma MaxSideKeys(a: Box, b: Box)
    ensures MaxSide(a, b) ==
      if LongSide(a) != LongSide(b) then LongSide(b) - LongSide(a)
      else if ShortSide(a) != ShortSide(b) then ShortSide(b) - ShortSide(a)
      else if a.h != b.h then b.h - a.h
      else b.w - a.w
  {
    var w, hw, mhw := [ByWidth], [ByHeight, ByWidth], [ByMin, ByHeight, ByWidth];
    assert w[1..] == [] && hw[1..] == w && mhw[1..] == hw && MaxSideCriteria[1..] == mhw;
    assert Lexicographic(a, b, w) == b.w - a.w;
    assert Lexicographic(a, b, hw) == if a.h != b.h then b.h - a.h else b.w - a.w;
    assert Lexicographic(a, b, mhw) ==
      if ShortSide(a) != ShortSide(b) then ShortSide(b) - ShortSide(a) else Lexicographic(a, b, hw);
  }

  /** `maxside(a, b) == -maxside(b, a)`: every key is a difference `b - a`. */
  lemma MaxSideAntisymmetric(a: Box, b: Box)
    ensures MaxSide(a, b) == -MaxSide(b, a)
  {
    MaxSideKeys(a, b);
    MaxSideKeys(b, a);
  }

  /** Larger boxes first: a longer long side always sorts earlier. */
  lemma MaxSideLargerFirst(a: Box, b: Box)
    requires LongSide(a) > LongSide(b)
    ensures MaxSide(a, b) < 0
  {
    MaxSideKeys(a, b);
  }

  lemma MaxSideExample()
    ensures MaxSide(Box(256, 256), Box(16, 16)) < 0
  {
    MaxSideLargerFirst(Box(256, 256), Box(16, 16));
  }

  /** `maxside` is a consistent comparator: "sorts no later than" is
      transitive. */
  lemma MaxSideTransitive(a: Box, b: Box, c: Box)
    requires MaxSide(a, b) <= 0 && MaxSide(b, c) <= 0
    ensures MaxSide(a, c) <= 0
  {
    MaxSideKeys(a, b);
    MaxSideKeys(b, c);
    MaxSideKeys(a, c);
  }

  /** The list is in the order `sort(maxside)` leaves it. */
  predicate Sorted(s: seq<Box>)
  {
    forall i, j :: 0 <= i < j < |s| ==> MaxSide(s[i], s[j]) <= 0
  }

  /** In a sorted list the long side never increases. */
  lemma {:induction false} SortedLongSideNonIncreasing(s: seq<Box>, i: int, j: int)
    requires Sorted(s) && 0 <= i < j < |s|
    ensures LongSide(s[i]) >= LongSide(s[j])
  {
  }

  function Insert(b: Box, s: seq<Box>): (r: seq<Box>)
    ensures multiset(r) == multiset(s) + multiset{b}
  {
    if s == [] then [b]
    else if MaxSide(b, s[0]) <= 0 then [b] + s
    else
      assert s == [s[0]] + s[1..];
      [s[0]] + Insert(b, s[1..])
  }

  lemma {:induction false} InsertSorted(b: Box, s: seq<Box>)
    requires Sorted(s)
    ensures Sorted(Insert(b, s))
  {
    if s == [] {
    } else if MaxSide(b, s[0]) <= 0 {
      InsertFront(b, s);
    } else {
      InsertSorted(b, s[1..]);
      InsertBehind(b, s);
    }
  }

  /** A box that sorts no later than the head of a sorted list goes first. */
  lemma InsertFront(b: Box, s: seq<Box>)
    requires Sorted(s) && s != [] && MaxSide(b, s[0]) <= 0
    ensures Sorted([b] + s)
  {
    forall j | 0 <= j < |s|
      ensures MaxSide(b, s[j]) <= 0
    {
      if j > 0 { MaxSideTransitive(b, s[0], s[j]); }
    }
    ConsSorted(b, s);
  }

  /** A box that sorts after the head goes into the tail, behind the head. */
  lemma InsertBehind(b: Box, s: seq<Box>)
    requires Sorted(s) && s != [] && MaxSide(b, s[0]) > 0 && Sorted(Insert(b, s[1..]))
    ensures Sorted(Insert(b, s))
  {
    var rest := Insert(b, s[1..]);
    assert Insert(b, s) == [s[0]] + rest;
    MaxSideAntisymmetric(b, s[0]);
    forall k | 0 <= k < |rest|
      ensures MaxSide(s[0], rest[k]) <= 0
    {
      assert rest[k] in multiset(rest);
      if rest[k] != b {
        HeadBeforeTail(s, rest[k]);
      }
    }
    ConsSorted(s[0], rest);
  }

  /** The head of a sorted list sorts no later than any other box of it. */
  lemma HeadBeforeTail(s: seq<Box>, c: Box)
    requires Sorted(s) && s != [] && c in multiset(s[1..])
    ensures MaxSide(s[0], c) <= 0
  {
    var m :| 0 <= m < |s[1..]| && s[1..][m] == c;
    assert s[1 + m] == c;
  }

  /** A box that sorts no later than every box of a sorted list can be put
      in front of it. */
  lemma ConsSorted(x: Box, r: seq<Box>)
    requires Sorted(r) && forall k :: 0 <= k < |r| ==> MaxSide(x, r[k]) <= 0
    ensures Sorted([x] + r)
  {
    assert forall j :: 1 <= j < |[x] + r| ==> ([x] + r)[j] == r[j - 1];
  }

  /** The sort applied to the boxes (`Array.prototype.sort` with `maxside`),
      written as an insertion sort: its result is sorted and a permutation
      of its input. */
  function SortByMaxSide(s: seq<Box>): (r: seq<Box>)
    ensures Sorted(r) && multiset(r) == multiset(s)
  {
    if s == [] then []
    else
      var rest := SortByMaxSide(s[1..]);
      InsertSorted(s[0], rest);
      assert s == [s[0]] + s[1..];
      Insert(s[0], rest)
  }

  /** Because `maxside` is 0 only on equal boxes, a sorted permutation is
      unique: any correct sort with `maxside` yields the same list, whatever
      algorithm the JavaScript engine uses. */
  lemma {:induction false} SortedUnique(s: seq<Box>, t: seq<Box>)
    requires Sorted(s) && Sorted(t) && multiset(s) == multiset(t)
    ensures s == t
  {
    if s == [] {
      assert |t| == |multiset(t)| == 0;
    } else {
      SortedSameFirst(s, t);
      assert s == [s[0]] + s[1..];
      assert t == [t[0]] + t[1..];
      assert multiset(s) == multiset{s[0]} + multiset(s[1..]);
      assert multiset(t) == multiset{t[0]} + multiset(t[1..]);
      assert multiset(s[1..]) == multiset(s) - multiset{s[0]};
      assert multiset(t[1..]) == multiset(t) - multiset{t[0]};
      SortedUnique(s[1..], t[1..]);
    }
  }

  /** Two sorted permutations of a non-empty list start with the same box. */
  lemma SortedSameFirst(s: seq<Box>, t: seq<Box>)
    requires Sorted(s) && Sorted(t) && multiset(s) == multiset(t) && s != []
    ensures t != [] && s[0] == t[0]
  {
    assert |t| == |multiset(t)| == |multiset(s)| == |s|;
    assert s[0] in multiset(t);
    var k :| 0 <= k < |t| && t[k] == s[0];
    assert t[0] in multiset(s);
    var m :| 0 <= m < |s| && s[m] == t[0];
    if k == 0 {
    }
    if m == 0 {
    }
    assert MaxSide(t[0], s[0]) <= 0 && MaxSide(s[0], t[0]) <= 0;
    MaxSideAntisymmetric(s[0], t[0]);
  }

  /** The scenario of one 256 box and two 128 boxes: the 256 box goes first. */
  lemma SortScenario()
    ensures SortByMaxSide([Box(128, 128), Box(256, 256), Box(128, 128)])
         == [Box(256, 256), Box(128, 128), Box(128, 128)]
  {
    var s := [Box(128, 128), Box(256, 256), Box(128, 128)];
    var t := [Box(256, 256), Box(128, 128), Box(128, 128)];
    MaxSideLargerFirst(Box(256, 256), Box(128, 128));
    assert Sorted(t);
    assert multiset(s) == multiset(t);
    SortedUnique(SortByMaxSide(s), t);
  }

  /** The number of boxes one tier loop pushes, counting down from
      `r * bound` while the counter is not negative, for a draw `r` in
      `[0, 1)`: `floor(r * bound) + 1`,
      at least one and at most `bound`. */
  function TierCount(r: real, bound: nat): (n: nat)
    requires 0.0 <= r < 1.0
    ensures 1 <= n && (bound > 0 ==> n <= bound)
  {
    (r * bound as real).Floor + 1
  }

  function Repeat(b: Box, n: nat): (s: seq<Box>)
    ensures |s| == n && forall k :: 0 <= k < n ==> s[k] == b
  {
    seq(n, _ => b)
  }

  lemma {:induction false} RepeatCount(b: Box, n: nat, c: Box)
    ensures multiset(Repeat(b, n))[c] == if c == b then n else 0
  {
    if n > 0 {
      assert Repeat(b, n) == Repeat(b, n - 1) + [b];
      RepeatCount(b, n - 1, c);
    }
  }

  /** The five tier loops of `createBoxes`, in push order: between 5 and
      172 square boxes of the five tier sizes, pushed largest first. */
  function Tiers(r256: real, r128: real, r64: real, r32: real, r16: real): (t: seq<Box>)
    requires 0.0 <= r256 < 1.0 && 0.0 <= r128 < 1.0 && 0.0 <= r64 < 1.0
    requires 0.0 <= r32 < 1.0 && 0.0 <= r16 < 1.0
    ensures 5 <= |t| <= 2 + 20 + 50 + 50 + 50
    ensures forall k :: 0 <= k < |t| ==> t[k].w == t[k].h && t[k].w in {256, 128, 64, 32, 16}
    ensures forall k :: 0 < k < |t| ==> t[k - 1].w >= t[k].w
  {
    Repeat(Box(256, 256), TierCount(r256, 2))
    + Repeat(Box(128, 128), TierCount(r128, 20))
    + Repeat(Box(64, 64), TierCount(r64, 50))
    + Repeat(Box(32, 32), TierCount(r32, 50))
    + Repeat(Box(16, 16), TierCount(r16, 50))
  }

  /** Every tier contributes at least one box; there are one or two
      256 boxes, at most 20 of size 128 and at most 50 of each smaller size,
      and no box of any other size. */
  lemma TierCounts(r256: real, r128: real, r64: real, r32: real, r16: real, c: Box)
    requires 0.0 <= r256 < 1.0 && 0.0 <= r128 < 1.0 && 0.0 <= r64 < 1.0
    requires 0.0 <= r32 < 1.0 && 0.0 <= r16 < 1.0
    ensures c == Box(256, 256) ==> 1 <= multiset(Tiers(r256, r128, r64, r32, r16))[c] <= 2
    ensures c == Box(128, 128) ==> 1 <= multiset(Tiers(r256, r128, r64, r32, r16))[c] <= 20
    ensures c in {Box(64, 64), Box(32, 32), Box(16, 16)} ==>
              1 <= multiset(Tiers(r256, r128, r64, r32, r16))[c] <= 50
    ensures c !in {Box(256, 256), Box(128, 128), Box(64, 64), Box(32, 32), Box(16, 16)} ==>
              multiset(Tiers(r256, r128, r64, r32, r16))[c] == 0
  {
    RepeatCount(Box(256, 256), TierCount(r256, 2), c);
    RepeatCount(Box(128, 128), TierCount(r128, 20), c);
    RepeatCount(Box(64, 64), TierCount(r64, 50), c);
    RepeatCount(Box(32, 32), TierCount(r32, 50), c);
    RepeatCount(Box(16, 16), TierCount(r16, 50), c);
  }

  /** The sizes of packed rectangles, as boxes. */
  function Sizes(ps: seq<Rect>): (bs: seq<Box>)
    ensures |bs| == |ps| && forall k :: 0 <= k < |ps| ==> bs[k] == Box(ps[k].w, ps[k].h)
  {
    seq(|ps|, k requires 0 <= k < |ps| => Box(ps[k].w, ps[k].h))
  }

  /** The shelf packer's guarantee: every placement lies on the canvas and
      no two placements overlap, so no pixel lies in two placements. */
  predicate Packed(ps: seq<Rect>, width: int, height: int): (ok: bool)
    ensures ok ==> forall p, i, j :: p in ps && Covers(p, i, j) ==> 0 <= i < height && 0 <= j < width
    ensures ok ==> forall k, l, i, j :: 0 <= k < l < |ps| && Covers(ps[k], i, j) ==> !Covers(ps[l], i, j)
  {
    && (forall p :: p in ps ==> Within(p, width, height))
    && (forall k, l :: 0 <= k < l < |ps| ==> Disjoint(ps[k], ps[l]))
  }

  /** `new ShelfPack(width, height).pack(boxes)`: for every input it returns
      a packing of some of the given boxes (those it could fit), so never
      more placements than boxes. */
  ghost predicate PackerContract(pack: seq<Box> -> seq<Rect>, width: int, height: int): (ok: bool)
    ensures ok ==> forall bs :: |pack(bs)| <= |bs|
  {
    var ok := forall bs :: Packed(pack(bs), width, height) && multiset(Sizes(pack(bs))) <= multiset(bs);
    assert ok ==> forall bs :: |pack(bs)| <= |bs| by {
      if ok {
        forall bs
          ensures |pack(bs)| <= |bs|
        {
          SubMultisetCard(multiset(Sizes(pack(bs))), multiset(bs));
        }
      }
    }
    ok
  }

  /** A sub-multiset has no more elements. */
  lemma {:induction false} SubMultisetCard<T>(a: multiset<T>, b: multiset<T>)
    requires a <= b
    ensures |a| <= |b|
    decreases |a|
  {
    if |a| > 0 {
      var x :| x in a;
      SubMultisetCard(a - multiset{x}, b - multiset{x});
    }
  }

  /** The packed boxes whose width is not 256: the boxes a re-stamp may pick,
      in their packed order. */
  function RestampCandidates(ps: seq<Rect>): (r: seq<Rect>)
    ensures forall p :: p in r <==> p in ps && p.w != 256
    ensures |r| <= |ps|
    ensures IsSubsequence(r, ps)
  {
    if ps == [] then []
    else
      assert forall p :: p in ps <==> p == ps[0] || p in ps[1..];
      var rest := RestampCandidates(ps[1..]);
      if ps[0].w != 256 then
        assert ([ps[0]] + rest)[1..] == rest;
        [ps[0]] + rest
      else rest
  }
}
