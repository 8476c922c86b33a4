/** The directional contrast detector and the contour-area filter shared by the
    exclusion pipeline. */
module Helpers {
  import opened Imaging

  // ---------------------------------------------------------------------------
  // Directional contrast detector
  // ---------------------------------------------------------------------------

  /** `v.clamp(lo, hi)`: nearest-edge clamping of a neighbour coordinate. */
  function Clamp(v: int, lo: int, hi: int): (r: int)
    requires lo <= hi
    ensures lo <= r <= hi
    ensures lo <= v <= hi ==> r == v
    ensures v < lo ==> r == lo
    ensures hi < v ==> r == hi
  {
    if v < lo then lo else if hi < v then hi else v
  }

  /** Absolute difference between the neighbour at offset (vx, vy) and the one
      at the opposite offset, both clamped into the image. */
  function Directional(img: GrayImage, x: nat, y: nat, vx: int, vy: int): (d: nat)
    requires img.Valid() && x < img.width && y < img.height
    ensures d <= 255
  {
    var pixel := img.rows[Clamp(y + vy, 0, img.height - 1)][Clamp(x + vx, 0, img.width - 1)];
    var opposite := img.rows[Clamp(y - vy, 0, img.height - 1)][Clamp(x - vx, 0, img.width - 1)];
    Abs(opposite - pixel)
  }

  /** The term contributed by offset (vx, vy); the centre itself is skipped. */
  function Term(img: GrayImage, x: nat, y: nat, vx: int, vy: int): nat
    requires img.Valid() && x < img.width && y < img.height
  {
    if vx == 0 && vy == 0 then 0 else Directional(img, x, y, vx, vy)
  }

  /** Sum of the terms for column offset vx and the first n row offsets -1, 0, 1. */
  function LineSum(img: GrayImage, x: nat, y: nat, vx: int, n: nat): nat
    requires img.Valid() && x < img.width && y < img.height
    requires n <= 3
  {
    if n == 0 then 0 else LineSum(img, x, y, vx, n - 1) + Term(img, x, y, vx, n - 2)
  }

  /** Sum of the terms for the first m column offsets -1, 0, 1 (all row offsets each). */
  function BlockSum(img: GrayImage, x: nat, y: nat, m: nat): nat
    requires img.Valid() && x < img.width && y < img.height
    requires m <= 3
  {
    if m == 0 then 0 else BlockSum(img, x, y, m - 1) + LineSum(img, x, y, m - 2, 3)
  }

  /** S: the summed absolute difference over the 8 offsets around pixel (x, y). */
  function ContrastSum(img: GrayImage, x: nat, y: nat): nat
    requires img.Valid() && x < img.width && y < img.height
  {
    BlockSum(img, x, y, 3)
  }

  /** f32 `round` of s / 8 for s >= 0: the nearest integer, halves rounded up. */
  function RoundedEighth(s: nat): (r: nat)
    ensures 8 * r <= s + 4 < 8 * r + 8
  {
    (s + 4) / 8
  }

  /** The thresholded mask value of a pixel whose summed difference is s: on
      exactly when the average of the 8 differences exceeds the threshold. */
  function MaskValue(threshold: real, s: nat): (v: int)
    ensures v == 0 || v == 255
    ensures v == 255 <==> threshold < s as real / 8.0
  {
    if threshold < s as real / 8.0 then 255 else 0
  }

  lemma LineSumUnfold(img: GrayImage, x: nat, y: nat, vx: int)
    requires img.Valid() && x < img.width && y < img.height
    ensures LineSum(img, x, y, vx, 3) == Term(img, x, y, vx, -1) + Term(img, x, y, vx, 0) + Term(img, x, y, vx, 1)
  {
    assert LineSum(img, x, y, vx, 1) == Term(img, x, y, vx, -1);
    assert LineSum(img, x, y, vx, 2) == LineSum(img, x, y, vx, 1) + Term(img, x, y, vx, 0);
  }

  /** Each opposite pair is visited from both sides, so S is twice the sum over
      the four unordered pairs. */
  lemma PairsCountedTwice(img: GrayImage, x: nat, y: nat)
    requires img.Valid() && x < img.width && y < img.height
    ensures ContrastSum(img, x, y) == 2 * (Directional(img, x, y, -1, -1) + Directional(img, x, y, -1, 0)
                                           + Directional(img, x, y, -1, 1) + Directional(img, x, y, 0, -1))
  {
    LineSumUnfold(img, x, y, -1);
    LineSumUnfold(img, x, y, 0);
    LineSumUnfold(img, x, y, 1);
    assert BlockSum(img, x, y, 1) == LineSum(img, x, y, -1, 3);
    assert BlockSum(img, x, y, 2) == BlockSum(img, x, y, 1) + LineSum(img, x, y, 0, 3);
    assert Directional(img, x, y, 1, 1) == Directional(img, x, y, -1, -1);
    assert Directional(img, x, y, 1, 0) == Directional(img, x, y, -1, 0);
    assert Directional(img, x, y, 1, -1) == Directional(img, x, y, -1, 1);
    assert Directional(img, x, y, 0, 1) == Directional(img, x, y, 0, -1);
  }

  /** The average of 8 differences of bytes stays a byte. */
  lemma ContrastSumBound(img: GrayImage, x: nat, y: nat)
    requires img.Valid() && x < img.width && y < img.height
    ensures ContrastSum(img, x, y) <= 8 * 255
    ensures RoundedEighth(ContrastSum(img, x, y)) <= 255
  {
    PairsCountedTwice(img, x, y);
  }

  /** The inner `vy` loop for one column offset vx: the differences it adds and
      how many offsets it visits. */
  method ColumnOffsets(img: GrayImage, x: nat, y: nat, vx: int) returns (summed: nat, count: nat)
    requires img.Valid() && x < img.width && y < img.height
    ensures summed == LineSum(img, x, y, vx, 3)
    ensures count == if vx == 0 then 2 else 3
  {
    summed, count := 0, 0;
    for vy := -1 to 2
      invariant summed == LineSum(img, x, y, vx, vy + 1)
      invariant count == vy + 1 - (if vx == 0 && vy > 0 then 1 else 0)
    {
      // Skip the current pixel
      if vx == 0 && vy == 0 {
        continue;
      }
      var difference := Directional(img, x, y, vx, vy);
      summed := summed + difference;
      count := count + 1;
    }
  }

  /** The summed difference and the number of offsets visited for one pixel. */
  method PixelContrast(img: GrayImage, x: nat, y: nat) returns (summed: nat, count: nat)
    requires img.Valid() && x < img.width && y < img.height
    ensures summed == ContrastSum(img, x, y)
    ensures count == 8
  {
    summed, count := 0, 0;
    for vx := -1 to 2
      invariant summed == BlockSum(img, x, y, vx + 1)
      invariant count == 3 * (vx + 1) - (if vx > 0 then 1 else 0)
    {
      var s, c := ColumnOffsets(img, x, y, vx);
      summed, count := summed + s, count + c;
    }
  }

  /** Fills the thresholded mask and the rounded contrast image in one pass over
      the pixels (row by row). */
  method AbsoluteContrastThreshold(img: GrayImage, threshold: real) returns (mask: array2<int>, contrast: array2<int>)
    requires img.Valid()
    ensures fresh(mask) && fresh(contrast)
    ensures mask.Length0 == img.height && mask.Length1 == img.width
    ensures contrast.Length0 == img.height && contrast.Length1 == img.width
    ensures forall y, x :: 0 <= y < img.height && 0 <= x < img.width ==>
              && mask[y, x] == MaskValue(threshold, ContrastSum(img, x, y))
              && (mask[y, x] == 0 || mask[y, x] == 255)
              && contrast[y, x] == RoundedEighth(ContrastSum(img, x, y))
              && 0 <= contrast[y, x] <= 255
  {
    mask := new int[img.height, img.width];
    contrast := new int[img.height, img.width];
    for y := 0 to img.height
      invariant forall y', x' :: 0 <= y' < y && 0 <= x' < img.width ==>
                  && mask[y', x'] == MaskValue(threshold, ContrastSum(img, x', y'))
                  && contrast[y', x'] == RoundedEighth(ContrastSum(img, x', y'))
                  && contrast[y', x'] <= 255
    {
      ClassifyRow(img, threshold, mask, contrast, y);
    }
  }

  /** The inner `x` loop: fills row y of both images and leaves the other rows alone. */
  method ClassifyRow(img: GrayImage, threshold: real, mask: array2<int>, contrast: array2<int>, y: nat)
    requires img.Valid() && y < img.height && mask != contrast
    requires mask.Length0 == img.height && mask.Length1 == img.width
    requires contrast.Length0 == img.height && contrast.Length1 == img.width
    modifies mask, contrast
    ensures forall y', x' :: 0 <= y' < img.height && y' != y && 0 <= x' < img.width ==>
              mask[y', x'] == old(mask[y', x']) && contrast[y', x'] == old(contrast[y', x'])
    ensures forall x' :: 0 <= x' < img.width ==>
              && mask[y, x'] == MaskValue(threshold, ContrastSum(img, x', y))
              && contrast[y, x'] == RoundedEighth(ContrastSum(img, x', y))
              && contrast[y, x'] <= 255
  {
    for x := 0 to img.width
      invariant forall y', x' :: 0 <= y' < img.height && y' != y && 0 <= x' < img.width ==>
                  mask[y', x'] == old(mask[y', x']) && contrast[y', x'] == old(contrast[y', x'])
      invariant forall x' :: 0 <= x' < x ==>
                  && mask[y, x'] == MaskValue(threshold, ContrastSum(img, x', y))
                  && contrast[y, x'] == RoundedEighth(ContrastSum(img, x', y))
                  && contrast[y, x'] <= 255
    {
      var summed, count := PixelContrast(img, x, y);
      var average := summed as real / count as real;
      mask[y, x] := if threshold < average then 255 else 0;
      ContrastSumBound(img, x, y);
      contrast[y, x] := RoundedEighth(summed);
    }
  }

  // ---------------------------------------------------------------------------
  // Contour area filter
  // ---------------------------------------------------------------------------

  /** The shoelace term of the edge from `prev` to `p`. */
  function EdgeTerm(prev: Point, p: Point): int
  {
    (prev.x + p.x) * (prev.y - p.y)
  }

  /** Sum of the edge terms between consecutive points (no closing edge). */
  function OpenSum(pts: seq<Point>): int
  {
    if |pts| <= 1 then 0 else EdgeTerm(pts[0], pts[1]) + OpenSum(pts[1..])
  }

  /** A: twice the signed area of the closed polygon, wrapping from the last point
      to the first. A single point or a back-and-forth pair encloses nothing. */
  function ShoelaceSum(pts: seq<Point>): (a: int)
    requires |pts| > 0
    ensures |pts| < 3 ==> a == 0
  {
    EdgeTermAntisymmetric(pts[|pts| - 1], pts[0]);
    assert |pts| == 2 ==> OpenSum(pts) == EdgeTerm(pts[0], pts[1]) + OpenSum(pts[1..]);
    EdgeTerm(pts[|pts| - 1], pts[0]) + OpenSum(pts)
  }

  /** f32 `round` of |a| / 2: the nearest integer, halves rounded away from zero. */
  function RoundedHalf(a: int): (r: nat)
    ensures 2 * r <= Abs(a) + 1 < 2 * r + 2
  {
    (Abs(a) + 1) / 2
  }

  /** The rounded polygon area of a contour; contours of one or two points have none. */
  function ContourArea(c: Contour): (area: nat)
    requires |c.points| > 0
    ensures 2 * area <= Abs(ShoelaceSum(c.points)) + 1 < 2 * area + 2
    ensures |c.points| < 3 ==> area == 0
  {
    RoundedHalf(ShoelaceSum(c.points))
  }

  /** The retain predicate: the rounded area exceeds the minimum area. Contours
      of fewer than three points are always dropped. */
  predicate Keeps(c: Contour, minimumArea: nat)
    requires |c.points| > 0
    ensures Keeps(c, minimumArea) ==> 3 <= |c.points|
  {
    minimumArea < ContourArea(c)
  }

  lemma {:induction false} OpenSumSnoc(pts: seq<Point>, p: Point)
    requires |pts| > 0
    ensures OpenSum(pts + [p]) == OpenSum(pts) + EdgeTerm(pts[|pts| - 1], p)
  {
    if |pts| == 1 {
      assert pts + [p] == [pts[0], p];
    } else {
      assert (pts + [p])[1..] == pts[1..] + [p];
      OpenSumSnoc(pts[1..], p);
    }
  }

  /** Accumulates A over the points, starting from the closing edge's first point. */
  method ShoelaceLoop(pts: seq<Point>) returns (area: int)
    requires |pts| > 0
    ensures area == ShoelaceSum(pts)
  {
    area := 0;
    var previous := pts[|pts| - 1];
    for i := 0 to |pts|
      invariant i == 0 ==> area == 0 && previous == pts[|pts| - 1]
      invariant i > 0 ==> area == EdgeTerm(pts[|pts| - 1], pts[0]) + OpenSum(pts[..i]) && previous == pts[i - 1]
    {
      area := area + EdgeTerm(previous, pts[i]);
      if i > 0 {
        assert pts[..i + 1] == pts[..i] + [pts[i]];
        OpenSumSnoc(pts[..i], pts[i]);
      } else {
        assert pts[..1] == [pts[0]];
      }
      previous := pts[i];
    }
    assert pts[..|pts|] == pts;
  }

  /** The retain closure: whether a contour's rounded area exceeds the minimum. */
  method KeepsContour(c: Contour, minimumArea: nat) returns (keep: bool)
    requires |c.points| > 0
    ensures keep <==> minimumArea < RoundedHalf(ShoelaceSum(c.points))
  {
    var area := ShoelaceLoop(c.points);
    var halved := (Abs(area) + 1) / 2;
    keep := minimumArea < halved;
  }

  /** The contours that `retain` leaves, in their original order: input contours
      of at least three points each, no more of them than there were. */
  function Kept(contours: seq<Contour>, minimumArea: nat): (kept: seq<Contour>)
    requires AllNonEmpty(contours)
    ensures |kept| <= |contours|
    ensures forall i :: 0 <= i < |kept| ==> kept[i] in contours && 3 <= |kept[i].points|
  {
    if contours == [] then []
    else
      var last := contours[|contours| - 1];
      Kept(contours[..|contours| - 1], minimumArea) + (if Keeps(last, minimumArea) then [last] else [])
  }

  /** `contours.retain(...)`: keeps exactly the contours whose area exceeds the minimum. */
  method FilterByMinimumArea(contours: seq<Contour>, minimumArea: nat) returns (kept: seq<Contour>)
    requires AllNonEmpty(contours)
    ensures kept == Kept(contours, minimumArea)
    ensures forall c :: c in kept <==> c in contours && Keeps(c, minimumArea)
  {
    kept := [];
    for i := 0 to |contours|
      invariant kept == Kept(contours[..i], minimumArea)
    {
      assert contours[..i + 1][..i] == contours[..i];
      var keep := KeepsContour(contours[i], minimumArea);
      if keep {
        kept := kept + [contours[i]];
      }
    }
    assert contours[..|contours|] == contours;
    KeptMembers(contours, minimumArea);
  }

  /** A contour survives iff it was an input contour that passes the area test. */
  lemma {:induction false} KeptMembers(contours: seq<Contour>, minimumArea: nat)
    requires AllNonEmpty(contours)
    ensures forall c :: c in Kept(contours, minimumArea) <==> c in contours && Keeps(c, minimumArea)
  {
    if contours != [] {
      var init := contours[..|contours| - 1];
      KeptMembers(init, minimumArea);
      assert contours == init + [contours[|contours| - 1]];
    }
  }

  /** `small` is obtained from `big` by deleting elements (order preserved). */
  predicate IsSubsequence(small: seq<Contour>, big: seq<Contour>)
    decreases |big|
  {
    if small == [] then true
    else if big == [] then false
    else
      || (small[|small| - 1] == big[|big| - 1] && IsSubsequence(small[..|small| - 1], big[..|big| - 1]))
      || IsSubsequence(small, big[..|big| - 1])
  }

  /** Retain keeps an order-preserving subsequence of its input. */
  lemma {:induction false} KeptIsSubsequence(contours: seq<Contour>, minimumArea: nat)
    requires AllNonEmpty(contours)
    ensures IsSubsequence(Kept(contours, minimumArea), contours)
    ensures |Kept(contours, minimumArea)| <= |contours|
  {
    if contours != [] {
      var init := contours[..|contours| - 1];
      var last := contours[|contours| - 1];
      KeptIsSubsequence(init, minimumArea);
      var k := Kept(contours, minimumArea);
      assert contours[..|contours| - 1] == init;
      if Keeps(last, minimumArea) {
        assert k == Kept(init, minimumArea) + [last];
        assert k[..|k| - 1] == Kept(init, minimumArea);
        assert k[|k| - 1] == contours[|contours| - 1];
      } else {
        assert k == Kept(init, minimumArea);
      }
    }
  }

  lemma KeptNonEmpty(contours: seq<Contour>, minimumArea: nat)
    requires AllNonEmpty(contours)
    ensures AllNonEmpty(Kept(contours, minimumArea))
  {
    KeptMembers(contours, minimumArea);
    var k := Kept(contours, minimumArea);
    forall i | 0 <= i < |k| ensures |k[i].points| > 0 {
      assert k[i] in contours;
    }
  }

  /** Filtering with a larger minimum after a smaller one is the same as filtering
      with the larger one alone; in particular the filter is idempotent. */
  lemma {:induction false} KeptComposes(contours: seq<Contour>, low: nat, high: nat)
    requires AllNonEmpty(contours)
    requires low <= high
    ensures AllNonEmpty(Kept(contours, low))
    ensures Kept(Kept(contours, low), high) == Kept(contours, high)
  {
    KeptNonEmpty(contours, low);
    if contours != [] {
      var init := contours[..|contours| - 1];
      var last := contours[|contours| - 1];
      KeptComposes(init, low, high);
      var k := Kept(contours, low);
      var ki := Kept(init, low);
      if Keeps(last, low) {
        assert k == ki + [last];
        assert k[..|k| - 1] == ki;
        assert Kept(k, high) == Kept(ki, high) + (if Keeps(last, high) then [last] else []);
      } else {
        assert !Keeps(last, high);
        assert k == ki;
      }
    }
  }

  /** Raising the minimum area never keeps more contours. */
  lemma KeptMonotone(contours: seq<Contour>, low: nat, high: nat)
    requires AllNonEmpty(contours)
    requires low <= high
    ensures |Kept(contours, high)| <= |Kept(contours, low)|
    ensures IsSubsequence(Kept(contours, high), Kept(contours, low))
  {
    KeptComposes(contours, low, high);
    KeptIsSubsequence(Kept(contours, low), high);
  }

  /** The edge term changes sign when the edge is traversed backwards. */
  lemma EdgeTermAntisymmetric(a: Point, b: Point)
    ensures EdgeTerm(b, a) == -EdgeTerm(a, b)
  {
    assert (b.x + a.x) * (b.y - a.y) == -((a.x + b.x) * (a.y - b.y));
  }

  lemma {:induction false} OpenSumConcat(a: seq<Point>, b: seq<Point>)
    requires |a| > 0 && |b| > 0
    ensures OpenSum(a + b) == OpenSum(a) + EdgeTerm(a[|a| - 1], b[0]) + OpenSum(b)
  {
    if |a| == 1 {
      assert (a + b)[1..] == b;
    } else {
      assert (a + b)[1..] == a[1..] + b;
      OpenSumConcat(a[1..], b);
    }
  }

  /** A cyclic rotation of a contour's points leaves A unchanged. */
  lemma RotationPreservesShoelace(pts: seq<Point>, k: nat)
    requires 0 < |pts| && k <= |pts|
    ensures ShoelaceSum(pts[k..] + pts[..k]) == ShoelaceSum(pts)
  {
    if k == 0 {
      assert pts[k..] + pts[..k] == pts;
    } else if k == |pts| {
      assert pts[k..] + pts[..k] == pts;
    } else {
      var a, b := pts[..k], pts[k..];
      assert pts == a + b;
      OpenSumConcat(a, b);
      OpenSumConcat(b, a);
    }
  }

  function Reverse<T>(s: seq<T>): (r: seq<T>)
    ensures |r| == |s|
    ensures forall i :: 0 <= i < |s| ==> r[i] == s[|s| - 1 - i]
  {
    if s == [] then [] else Reverse(s[1..]) + [s[0]]
  }

  lemma {:induction false} OpenSumReverse(pts: seq<Point>)
    ensures OpenSum(Reverse(pts)) == -OpenSum(pts)
  {
    if |pts| > 1 {
      var t := pts[1..];
      OpenSumReverse(t);
      assert Reverse(pts) == Reverse(t) + [pts[0]];
      OpenSumSnoc(Reverse(t), pts[0]);
      EdgeTermAntisymmetric(pts[0], pts[1]);
    } else if |pts| == 1 {
      assert Reverse(pts) == pts;
    }
  }

  /** Reversing a contour's points negates A. */
  lemma ReversalNegatesShoelace(pts: seq<Point>)
    requires |pts| > 0
    ensures ShoelaceSum(Reverse(pts)) == -ShoelaceSum(pts)
  {
    OpenSumReverse(pts);
    EdgeTermAntisymmetric(pts[0], pts[|pts| - 1]);
  }

  /** The keep decision depends neither on where the tracer starts a contour nor
      on the direction in which it walks it. */
  lemma KeepInvariantUnderRotationAndReversal(c: Contour, k: nat, minimumArea: nat)
    requires 0 < |c.points| && k <= |c.points|
    ensures Keeps(Contour(c.points[k..] + c.points[..k], c.borderType), minimumArea) == Keeps(c, minimumArea)
    ensures Keeps(Contour(Reverse(c.points), c.borderType), minimumArea) == Keeps(c, minimumArea)
  {
    RotationPreservesShoelace(c.points, k);
    ReversalNegatesShoelace(c.points);
  }
}
