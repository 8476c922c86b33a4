/** The bacteria-exclusion zone: thresholding the squared distance to the nearest
    detected edge, and the optional radial normalisation of the exclusion ratio
    over the stitched field of view. */
module Exclusion {
  import opened Imaging

  // ---------------------------------------------------------------------------
  // Distance field (computed by an external transform, specified here)
  // ---------------------------------------------------------------------------

  /** `d` is the squared distance from pixel (x, y) to the nearest "on" (255)
      pixel of `mask`: no "on" pixel is closer, and some "on" pixel is that far. */
  ghost predicate IsNearestOnDistance(mask: seq<seq<int>>, width: nat, height: nat, x: nat, y: nat, d: nat)
    requires IsGrid(mask, width, height)
  {
    && (forall qy: nat, qx: nat :: qy < height && qx < width && mask[qy][qx] == 255 ==>
          d <= SqDist(Point(x, y), Point(qx, qy)))
    && (exists qy: nat, qx: nat :: qy < height && qx < width && mask[qy][qx] == 255 &&
          d == SqDist(Point(x, y), Point(qx, qy)))
  }

  /** `dist` is the squared Euclidean distance transform of `mask`. */
  ghost predicate IsSquaredDistanceField(mask: seq<seq<int>>, dist: seq<seq<nat>>, width: nat, height: nat)
  {
    && IsGrid(mask, width, height)
    && IsGrid(dist, width, height)
    && forall y: nat, x: nat :: y < height && x < width ==> IsNearestOnDistance(mask, width, height, x, y, dist[y][x])
  }

  /** For a mask with a single "on" pixel the field is the squared distance to it. */
  lemma SinglePixelField(mask: seq<seq<int>>, dist: seq<seq<nat>>, width: nat, height: nat, x0: nat, y0: nat)
    requires IsSquaredDistanceField(mask, dist, width, height)
    requires x0 < width && y0 < height
    requires forall y: nat, x: nat :: y < height && x < width && mask[y][x] == 255 ==> x == x0 && y == y0
    ensures forall y: nat, x: nat :: y < height && x < width ==> dist[y][x] == Sq(x - x0) + Sq(y - y0)
  {
    forall y: nat, x: nat | y < height && x < width ensures dist[y][x] == Sq(x - x0) + Sq(y - y0) {
      assert IsNearestOnDistance(mask, width, height, x, y, dist[y][x]);
      var qy: nat, qx: nat :| qy < height && qx < width && mask[qy][qx] == 255
                              && dist[y][x] == SqDist(Point(x, y), Point(qx, qy));
      assert qx == x0 && qy == y0;
    }
  }

  // ---------------------------------------------------------------------------
  // Exclusion zone
  // ---------------------------------------------------------------------------

  /** The zone value of a pixel: on iff its squared distance is below `limit`;
      an edge pixel itself is on for any positive limit. */
  function ZoneValue(d: nat, limit: real): (v: int)
    ensures v == 0 || v == 255
    ensures v == 255 <==> (d as real) < limit
    ensures d == 0 && 0.0 < limit ==> v == 255
  {
    if (d as real) < limit then 255 else 0
  }

  /** The zone as a grid value. */
  function ZoneGrid(dist: seq<seq<nat>>, limit: real): (zone: seq<seq<int>>)
    ensures |zone| == |dist|
    ensures forall y :: 0 <= y < |dist| ==> |zone[y]| == |dist[y]|
    ensures forall y, x :: 0 <= y < |dist| && 0 <= x < |dist[y]| ==> zone[y][x] == ZoneValue(dist[y][x], limit)
  {
    seq(|dist|, y requires 0 <= y < |dist| =>
      seq(|dist[y]|, x requires 0 <= x < |dist[y]| => ZoneValue(dist[y][x], limit)))
  }

  /** Number of entries of `row[..n]` below `limit`. */
  function RowNear(row: seq<nat>, n: nat, limit: real): (c: nat)
    requires n <= |row|
    ensures c <= n
  {
    if n == 0 then 0 else RowNear(row, n - 1, limit) + (if (row[n - 1] as real) < limit then 1 else 0)
  }

  /** Number of pixels in the first `m` rows whose squared distance is below `limit`. */
  function NearCount(dist: seq<seq<nat>>, m: nat, limit: real): nat
    requires m <= |dist|
  {
    if m == 0 then 0 else NearCount(dist, m - 1, limit) + RowNear(dist[m - 1], |dist[m - 1]|, limit)
  }

  lemma {:induction false} NearCountBound(dist: seq<seq<nat>>, width: nat, m: nat, limit: real)
    requires m <= |dist|
    requires forall y :: 0 <= y < |dist| ==> |dist[y]| == width
    ensures NearCount(dist, m, limit) <= m * width
  {
    if m > 0 {
      NearCountBound(dist, width, m - 1, limit);
      assert m * width == (m - 1) * width + width;
    }
  }

  /** Writes the 0/255 exclusion zone and counts its "on" pixels, row by row. */
  method BuildZone(dist: seq<seq<nat>>, width: nat, height: nat, limit: real) returns (zone: array2<int>, nonZeroCount: nat)
    requires IsGrid(dist, width, height)
    ensures fresh(zone)
    ensures zone.Length0 == height && zone.Length1 == width
    ensures forall y, x :: 0 <= y < height && 0 <= x < width ==>
              zone[y, x] == ZoneValue(dist[y][x], limit) && (zone[y, x] == 0 || zone[y, x] == 255)
    ensures nonZeroCount == NearCount(dist, height, limit)
    ensures nonZeroCount <= width * height
  {
    zone := new int[height, width]((y, x) => 0);
    nonZeroCount := 0;
    for y := 0 to height
      invariant forall y', x' :: 0 <= y' < y && 0 <= x' < width ==> zone[y', x'] == ZoneValue(dist[y'][x'], limit)
      invariant forall y', x' :: y <= y' < height && 0 <= x' < width ==> zone[y', x'] == 0
      invariant nonZeroCount == NearCount(dist, y, limit)
    {
      for x := 0 to width
        invariant forall y', x' :: 0 <= y' < y && 0 <= x' < width ==> zone[y', x'] == ZoneValue(dist[y'][x'], limit)
        invariant forall x' :: 0 <= x' < x ==> zone[y, x'] == ZoneValue(dist[y][x'], limit)
        invariant forall y', x' :: y <= y' < height && 0 <= x' < width && (y' > y || x' >= x) ==> zone[y', x'] == 0
        invariant nonZeroCount == NearCount(dist, y, limit) + RowNear(dist[y], x, limit)
      {
        if (dist[y][x] as real) < limit {
          zone[y, x] := 255;
          nonZeroCount := nonZeroCount + 1;
        }
      }
    }
    NearCountBound(dist, width, height, limit);
  }

  /** With a radius of at least one pixel, every edge pixel lies in the zone. */
  lemma EdgePixelsInZone(mask: seq<seq<int>>, dist: seq<seq<nat>>, width: nat, height: nat, radius: real)
    requires IsSquaredDistanceField(mask, dist, width, height)
    requires 1.0 <= radius
    ensures forall y: nat, x: nat :: y < height && x < width && mask[y][x] == 255 ==>
              ZoneValue(dist[y][x], radius) == 255
  {
    forall y: nat, x: nat | y < height && x < width && mask[y][x] == 255
      ensures ZoneValue(dist[y][x], radius) == 255
    {
      assert IsNearestOnDistance(mask, width, height, x, y, dist[y][x]);
      assert dist[y][x] <= SqDist(Point(x, y), Point(x, y));
    }
  }

  /** The zone compares the SQUARED distance with the pixel radius itself: an
      edge pixel two pixels away from a pixel does not put it in a zone of radius 3. */
  lemma ZoneUsesUnsquaredRadius(mask: seq<seq<int>>, dist: seq<seq<nat>>)
    requires IsSquaredDistanceField(mask, dist, 3, 1)
    requires mask == [[255, 0, 0]]
    ensures dist[0][2] == 4
    ensures ZoneValue(dist[0][2], 3.0) == 0
  {
    SinglePixelField(mask, dist, 3, 1, 0, 0);
    assert Sq(2 - 0) + Sq(0 - 0) == 4;
  }

  // ---------------------------------------------------------------------------
  // Field-of-view hull test
  // ---------------------------------------------------------------------------

  /** The hull vertex before vertex i (the last one before the first). */
  function HullPrev(hull: seq<Point>, i: nat): Point
    requires i < |hull|
  {
    if i == 0 then hull[|hull| - 1] else hull[i - 1]
  }

  /** The side of (x, y) relative to the hull edge from `prev` to `p` (a cross
      product); both ends of the edge lie on its line. */
  function Side(prev: Point, p: Point, x: int, y: int): (side: int)
    ensures (x == p.x && y == p.y) || (x == prev.x && y == prev.y) ==> side == 0
  {
    (prev.x - p.x) * (y - p.y) - (x - p.x) * (prev.y - p.y)
  }

  /** Strictly on the inner side of every hull edge, the closing edge included.
      A hull vertex is on two edges, so it is never inside. */
  predicate InsideHull(hull: seq<Point>, x: int, y: int)
    ensures InsideHull(hull, x, y) ==> forall i :: 0 <= i < |hull| ==> !(hull[i].x == x && hull[i].y == y)
  {
    forall i :: 0 <= i < |hull| ==> Side(HullPrev(hull, i), hull[i], x, y) < 0
  }

  /** The edge loop: leaves as soon as one edge has the pixel on it or outside it. */
  method IsInsideHull(hull: seq<Point>, x: nat, y: nat) returns (inside: bool)
    requires |hull| > 0
    ensures inside <==> InsideHull(hull, x, y)
    ensures inside ==> forall i :: 0 <= i < |hull| ==> Side(HullPrev(hull, i), hull[i], x, y) != 0
  {
    var previous := hull[|hull| - 1];
    for i := 0 to |hull|
      invariant i < |hull| ==> previous == HullPrev(hull, i)
      invariant forall j :: 0 <= j < i ==> Side(HullPrev(hull, j), hull[j], x, y) < 0
    {
      var lineDistance := Side(previous, hull[i], x, y);
      previous := hull[i];
      if 0 <= lineDistance {
        return false;
      }
    }
    return true;
  }

  /** Index i of the hull rotated by k is index Shift(i, k, n) of the hull. */
  function Shift(i: nat, k: nat, n: nat): nat
  {
    if i + k < n then i + k else i + k - n
  }

  /** The inverse of Shift: index j of the hull is index Unshift(j, k, n) of the
      hull rotated by k. */
  function Unshift(j: nat, k: nat, n: nat): (i: nat)
    requires j < n && k < n
    ensures i < n && Shift(i, k, n) == j
  {
    if j >= k then j - k else j + n - k
  }

  /** Each vertex and each edge of the rotated hull is one of the hull. */
  lemma RotatedEdges(hull: seq<Point>, k: nat)
    requires 0 < |hull| && k < |hull|
    ensures forall i :: 0 <= i < |hull| ==>
              && Shift(i, k, |hull|) < |hull|
              && (hull[k..] + hull[..k])[i] == hull[Shift(i, k, |hull|)]
              && HullPrev(hull[k..] + hull[..k], i) == HullPrev(hull, Shift(i, k, |hull|))
  {
    var n := |hull|;
    var r := hull[k..] + hull[..k];
    forall i | 0 <= i < n ensures r[i] == hull[Shift(i, k, n)] {
      if i < n - k {
        assert r[i] == hull[k..][i];
      } else {
        assert r[i] == hull[..k][i - (n - k)];
      }
    }
    forall i | 0 <= i < n ensures HullPrev(r, i) == HullPrev(hull, Shift(i, k, n)) {
      if i == 0 {
        assert HullPrev(r, i) == r[n - 1];
      } else {
        assert HullPrev(r, i) == r[i - 1];
      }
    }
  }

  /** The inside test does not depend on which hull vertex comes first. */
  lemma HullRotationInvariant(hull: seq<Point>, k: nat, x: int, y: int)
    requires 0 < |hull| && k < |hull|
    ensures InsideHull(hull[k..] + hull[..k], x, y) <==> InsideHull(hull, x, y)
  {
    var n := |hull|;
    var r := hull[k..] + hull[..k];
    RotatedEdges(hull, k);
    if InsideHull(hull, x, y) {
      forall i | 0 <= i < n ensures Side(HullPrev(r, i), r[i], x, y) < 0 {
        var j := Shift(i, k, n);
        assert Side(HullPrev(hull, j), hull[j], x, y) < 0;
      }
    }
    if InsideHull(r, x, y) {
      forall j | 0 <= j < n ensures Side(HullPrev(hull, j), hull[j], x, y) < 0 {
        var i := Unshift(j, k, n);
        assert Side(HullPrev(r, i), r[i], x, y) < 0;
      }
    }
  }

  // ---------------------------------------------------------------------------
  // Radial buckets
  // ---------------------------------------------------------------------------

  /** f32 `round(sqrt(n))`: the k with k - 1/2 <= sqrt(n) < k + 1/2. */
  function RoundSqrt(n: nat): (k: nat)
    ensures k == 0 || (2 * k - 1) * (2 * k - 1) <= 4 * n
    ensures 4 * n < (2 * k + 1) * (2 * k + 1)
  {
    RoundSqrtFrom(n, 0)
  }

  function RoundSqrtFrom(n: nat, k: nat): (r: nat)
    requires k == 0 || (2 * k - 1) * (2 * k - 1) <= 4 * n
    ensures r == 0 || (2 * r - 1) * (2 * r - 1) <= 4 * n
    ensures 4 * n < (2 * r + 1) * (2 * r + 1)
    decreases 4 * n - k
  {
    if 4 * n < (2 * k + 1) * (2 * k + 1) then k
    else
      assert (2 * k + 1) * (2 * k + 1) >= 2 * k + 1;
      RoundSqrtFrom(n, k + 1)
  }

  /** Rounded distance from pixel (x, y) to the assumed optical centre
      (width, height / 2); every image pixel is at least one ring out. */
  function CenterDistance(width: nat, height: nat, x: nat, y: nat): (d: nat)
    ensures x < width ==> 1 <= d
  {
    RoundSqrt(Sq(width - x) + Sq(y - height / 2))
  }

  /** Pixels left of the right edge are at least one pixel from the centre. */
  lemma CenterDistancePositive(width: nat, height: nat, x: nat, y: nat)
    requires x < width
    ensures CenterDistance(width, height, x, y) >= 1
  {
  }

  /** (running sum of "on" pixels, number of pixels) of one radius, later the mean. */
  datatype Bucket = Bucket(value: real, count: nat)

  /** The bucket of radius d after visiting one more pixel (x, y): at most one
      more pixel and at most one more "on" pixel; ring 0 is never visited. */
  function Visit(b: Bucket, zone: seq<seq<int>>, hull: seq<Point>, width: nat, height: nat, d: nat, x: nat, y: nat)
    : (v: Bucket)
    requires IsGrid(zone, width, height) && x < width && y < height
    ensures v.count == b.count || v.count == b.count + 1
    ensures b.value <= v.value <= b.value + (v.count - b.count) as real
    ensures d == 0 ==> v == b
  {
    if InsideHull(hull, x, y) && CenterDistance(width, height, x, y) == d then
      Bucket(b.value + (if zone[y][x] == 255 then 1.0 else 0.0), b.count + 1)
    else b
  }

  /** The bucket of radius d after visiting, row by row, every pixel before (x, y):
      it counts at most the pixels visited. */
  function Tally(zone: seq<seq<int>>, hull: seq<Point>, width: nat, height: nat, d: nat, y: nat, x: nat): (b: Bucket)
    requires IsGrid(zone, width, height) && y <= height && x <= width && (y == height ==> x == 0)
    ensures b.count <= y * width + x
    decreases y, x
  {
    if x == 0 then
      (if y == 0 then Bucket(0.0, 0)
       else
         assert (y - 1) * width + width == y * width;
         Tally(zone, hull, width, height, d, y - 1, width))
    else Visit(Tally(zone, hull, width, height, d, y, x - 1), zone, hull, width, height, d, x - 1, y)
  }

  /** The bucket table after all pixels: one entry per radius 0 .. width - 1,
      the centre's ring left empty. */
  function BucketTable(zone: seq<seq<int>>, hull: seq<Point>, width: nat, height: nat): (t: seq<Bucket>)
    requires IsGrid(zone, width, height)
    ensures |t| == width
    ensures 0 < width ==> t[0] == Bucket(0.0, 0)
  {
    TallyBounds(zone, hull, width, height, 0, height, 0);
    seq(width, d requires 0 <= d < width => Tally(zone, hull, width, height, d, height, 0))
  }

  /** Every bucket holds at most as many "on" pixels as pixels; bucket 0 stays empty. */
  lemma {:induction false} TallyBounds(zone: seq<seq<int>>, hull: seq<Point>, width: nat, height: nat, d: nat, y: nat, x: nat)
    requires IsGrid(zone, width, height) && y <= height && x <= width && (y == height ==> x == 0)
    ensures 0.0 <= Tally(zone, hull, width, height, d, y, x).value <= Tally(zone, hull, width, height, d, y, x).count as real
    ensures d == 0 ==> Tally(zone, hull, width, height, d, y, x) == Bucket(0.0, 0)
    decreases y, x
  {
    if x == 0 {
      if y > 0 {
        TallyBounds(zone, hull, width, height, d, y - 1, width);
      }
    } else {
      TallyBounds(zone, hull, width, height, d, y, x - 1);
      CenterDistancePositive(width, height, x - 1, y);
    }
  }

  /** The accumulation pass over the zone: each pixel strictly inside the hull
      whose rounded distance to the centre is below the width adds to its bucket. */
  method AccumulateBuckets(zone: array2<int>, ghost grid: seq<seq<int>>, hull: seq<Point>, width: nat, height: nat)
    returns (buckets: array<Bucket>)
    requires |hull| > 0
    requires zone.Length0 == height && zone.Length1 == width && IsGrid(grid, width, height)
    requires forall y, x :: 0 <= y < height && 0 <= x < width ==> zone[y, x] == grid[y][x]
    ensures fresh(buckets)
    ensures buckets[..] == BucketTable(grid, hull, width, height)
  {
    buckets := new Bucket[width](_ => Bucket(0.0, 0));
    for y := 0 to height
      invariant forall d :: 0 <= d < width ==> buckets[d] == Tally(grid, hull, width, height, d, y, 0)
    {
      for x := 0 to width
        invariant forall d :: 0 <= d < width ==> buckets[d] == Tally(grid, hull, width, height, d, y, x)
      {
        VisitPixel(buckets, zone, grid, hull, width, height, x, y);
      }
    }
  }

  /** The body of the accumulation loop for pixel (x, y); each `return` is one
      of the loop's `continue`s. */
  method VisitPixel(buckets: array<Bucket>, zone: array2<int>, ghost grid: seq<seq<int>>, hull: seq<Point>,
                    width: nat, height: nat, x: nat, y: nat)
    requires |hull| > 0 && buckets.Length == width
    requires zone.Length0 == height && zone.Length1 == width && IsGrid(grid, width, height)
    requires x < width && y < height && zone[y, x] == grid[y][x]
    modifies buckets
    ensures forall d :: 0 <= d < width ==> buckets[d] == Visit(old(buckets[d]), grid, hull, width, height, d, x, y)
  {
    var inside := IsInsideHull(hull, x, y);
    if !inside {
      return;
    }
    var distance := CenterDistance(width, height, x, y);
    if buckets.Length <= distance {
      return;
    }
    if zone[y, x] == 255 {
      buckets[distance] := buckets[distance].(value := buckets[distance].value + 1.0);
    }
    buckets[distance] := buckets[distance].(count := buckets[distance].count + 1);
  }

  /** A bucket after averaging: the mean of its 0/1 samples when it has any. */
  function Averaged(b: Bucket): (a: Bucket)
    ensures a.count == b.count
    ensures b.count == 0 ==> a == b
    ensures 0.0 <= b.value <= b.count as real ==> 0.0 <= a.value <= 1.0
  {
    if 0 < b.count then Bucket(b.value / b.count as real, b.count) else b
  }

  function AveragedTable(t: seq<Bucket>): (r: seq<Bucket>)
    ensures |r| == |t|
    ensures forall d :: 0 <= d < |t| ==> r[d] == Averaged(t[d])
  {
    seq(|t|, d requires 0 <= d < |t| => Averaged(t[d]))
  }

  /** Divides every non-empty bucket's sum by its count, in place. */
  method AverageBuckets(buckets: array<Bucket>)
    modifies buckets
    ensures buckets[..] == AveragedTable(old(buckets[..]))
  {
    for d := 0 to buckets.Length
      invariant forall e :: 0 <= e < d ==> buckets[e] == Averaged(old(buckets[e]))
      invariant forall e :: d <= e < buckets.Length ==> buckets[e] == old(buckets[e])
    {
      if 0 < buckets[d].count {
        buckets[d] := buckets[d].(value := buckets[d].value / buckets[d].count as real);
      }
    }
  }

  /** d^2 - (d - 1)^2: the area of the ring of radius d, divided by pi; the odd
      number 2d - 1 (so -1 for the centre). */
  function RingWeight(d: nat): (w: int)
    ensures w == 2 * d - 1
  {
    d * d - (d - 1) * (d - 1)
  }

  /** Sum over the first n buckets of ring weight times bucket value. */
  function WeightedPrefix(t: seq<Bucket>, n: nat): real
    requires n <= |t|
  {
    if n == 0 then 0.0 else WeightedPrefix(t, n - 1) + RingWeight(n - 1) as real * t[n - 1].value
  }

  /** Sum over all buckets of ring weight times bucket value (the excluded area,
      over pi). With the centre's bucket at 0 and every mean in [0, 1] it lies
      between 0 and the area of the disc of the table's last radius. */
  function Weighted(t: seq<Bucket>): (w: real)
    ensures 1 <= |t| && t[0].value == 0.0 && (forall d :: 0 <= d < |t| ==> 0.0 <= t[d].value <= 1.0) ==>
              0.0 <= w <= DiscArea(|t| - 1) as real
  {
    if 1 <= |t| && t[0].value == 0.0 && (forall d :: 0 <= d < |t| ==> 0.0 <= t[d].value <= 1.0) then
      WeightedBounds(t, |t|);
      WeightedPrefix(t, |t|)
    else WeightedPrefix(t, |t|)
  }

  /** Integrates the averaged buckets with their ring weights. */
  method WeightedExclusion(buckets: array<Bucket>) returns (total: real)
    ensures total == Weighted(buckets[..])
  {
    total := 0.0;
    for d := 0 to buckets.Length
      invariant total == WeightedPrefix(buckets[..], d)
    {
      total := total + RingWeight(d) as real * buckets[d].value;
    }
  }

  /** With bucket 0 empty and every mean in [0, 1], the ring-weighted sum of the
      first n buckets lies between 0 and the area of the disc of radius n - 1
      (over pi), because the ring weights 1, 3, 5, ... sum to (n - 1)^2. */
  lemma {:induction false} WeightedBounds(t: seq<Bucket>, n: nat)
    requires 1 <= n <= |t| && t[0].value == 0.0
    requires forall d :: 0 <= d < |t| ==> 0.0 <= t[d].value <= 1.0
    ensures 0.0 <= WeightedPrefix(t, n) <= DiscArea(n - 1) as real
  {
    if n == 1 {
      assert WeightedPrefix(t, 1) == WeightedPrefix(t, 0) + RingWeight(0) as real * t[0].value;
    } else {
      WeightedBounds(t, n - 1);
      WeightedStep(t, n);
    }
  }

  /** Adding the ring of radius n - 1 with a mean in [0, 1] keeps the sum within
      the disc of that radius. */
  lemma WeightedStep(t: seq<Bucket>, n: nat)
    requires 2 <= n <= |t| && 0.0 <= t[n - 1].value <= 1.0
    requires 0.0 <= WeightedPrefix(t, n - 1) <= DiscArea(n - 2) as real
    ensures 0.0 <= WeightedPrefix(t, n) <= DiscArea(n - 1) as real
  {
    assert WeightedPrefix(t, n) == WeightedPrefix(t, n - 1) + RingWeight(n - 1) as real * t[n - 1].value;
    DiscAreaStep(n - 1);
    WeightedFraction(WeightedPrefix(t, n - 1), DiscArea(n - 2) as real, RingWeight(n - 1) as real,
                     t[n - 1].value, DiscArea(n - 1) as real);
  }

  /** a + w * v stays within [0, p + w] when a is within [0, p] and v within [0, 1]. */
  lemma WeightedFraction(a: real, p: real, w: real, v: real, q: real)
    requires 0.0 <= a <= p && 0.0 <= w && 0.0 <= v <= 1.0 && q == p + w
    ensures 0.0 <= a + w * v <= q
  {
    assert 0.0 <= w * v by {
      if 0.0 < w && 0.0 < v {
        PositiveProduct(w, v);
      }
    }
    assert w - w * v == w * (1.0 - v);
    assert 0.0 <= w * (1.0 - v) by {
      if 0.0 < w && 0.0 < 1.0 - v {
        PositiveProduct(w, 1.0 - v);
      }
    }
  }

  /** The disc of radius r is the disc of radius r - 1 plus the ring of radius r. */
  lemma DiscAreaStep(r: nat)
    requires 1 <= r
    ensures RingWeight(r) == 2 * r - 1
    ensures DiscArea(r) == DiscArea(r - 1) + RingWeight(r)
  {
    assert r * r == (r - 1) * (r - 1) + 2 * r - 1;
  }

  lemma RatioBounds(a: real, b: real)
    requires 0.0 < b && 0.0 <= a <= b
    ensures 0.0 <= a / b <= 1.0
  {
    assert a / b * b == a;
  }

  /** After averaging, every bucket of the table holds a mean in [0, 1] and
      bucket 0 holds 0. */
  lemma AveragedTableInUnit(zone: seq<seq<int>>, hull: seq<Point>, width: nat, height: nat)
    requires IsGrid(zone, width, height) && width >= 1
    ensures var t := AveragedTable(BucketTable(zone, hull, width, height));
            && t[0].value == 0.0
            && forall d :: 0 <= d < width ==> 0.0 <= t[d].value <= 1.0
  {
    var b := BucketTable(zone, hull, width, height);
    forall d | 0 <= d < width ensures 0.0 <= b[d].value <= b[d].count as real {
      TallyBounds(zone, hull, width, height, d, height, 0);
    }
    TallyBounds(zone, hull, width, height, 0, height, 0);
  }

  /** The area of the disc of radius r, over pi: the sum of the first r ring weights. */
  function DiscArea(r: nat): (a: nat)
    ensures a == 0 <==> r == 0
  {
    r * r
  }

  lemma NormalisedBounds(t: seq<Bucket>)
    requires |t| >= 2 && t[0].value == 0.0
    requires forall d :: 0 <= d < |t| ==> 0.0 <= t[d].value <= 1.0
    ensures 0.0 <= Weighted(t) / DiscArea(|t| - 1) as real <= 1.0
  {
    WeightedBounds(t, |t|);
    RatioBounds(Weighted(t), DiscArea(|t| - 1) as real);
  }

  /** The exclusion ratio after radial normalisation lies in [0, 1]. */
  lemma AdjustedRatioBounds(zone: seq<seq<int>>, hull: seq<Point>, width: nat, height: nat)
    requires IsGrid(zone, width, height) && width >= 2
    ensures var total := Weighted(AveragedTable(BucketTable(zone, hull, width, height)));
            0.0 <= total / DiscArea(width - 1) as real <= 1.0
  {
    var t := AveragedTable(BucketTable(zone, hull, width, height));
    AveragedTableInUnit(zone, hull, width, height);
    assert |t| == width;
    NormalisedBounds(t);
  }

  // ---------------------------------------------------------------------------
  // The exclusion computation
  // ---------------------------------------------------------------------------

  /** Exclusion ratio from the squared distance transform of the filtered edge mask:
      rejects radii below one pixel, builds the zone, and either returns its
      share of the image or, with `radiusAdjusted`, the ring-weighted mean over
      the pixels strictly inside `hull`. */
  method BacteriaExclusion(width: nat, height: nat, exclusionRadius: real, scale: real, radiusAdjusted: bool,
                           dist: seq<seq<nat>>, hull: seq<Point>) returns (r: Result<real>)
    requires scale != 0.0
    requires 0 < width && 0 < height && IsGrid(dist, width, height)
    requires radiusAdjusted ==> |hull| > 0 && width >= 2
    ensures r.Err? <==> exclusionRadius / scale < 1.0
    ensures r.Err? ==> r.error == ToSmallExclusionDiameter
    ensures r.Ok? ==> 0.0 <= r.value <= 1.0
    ensures r.Ok? && !radiusAdjusted ==>
              r.value == NearCount(dist, height, exclusionRadius / scale) as real / (width * height) as real
    ensures r.Ok? && radiusAdjusted ==>
              r.value == Weighted(AveragedTable(BucketTable(ZoneGrid(dist, exclusionRadius / scale), hull, width, height)))
                         / DiscArea(width - 1) as real
  {
    var radius := exclusionRadius / scale;
    if radius < 1.0 {
      return Err(ToSmallExclusionDiameter);
    }
    var zone, nonZeroCount := BuildZone(dist, width, height, radius);
    var ratio := nonZeroCount as real / (width * height) as real;
    assert width * height >= width by {
      assert width * height == width * (height - 1) + width;
    }
    RatioBounds(nonZeroCount as real, (width * height) as real);
    if radiusAdjusted {
      ghost var grid := ZoneGrid(dist, radius);
      var buckets := AccumulateBuckets(zone, grid, hull, width, height);
      AverageBuckets(buckets);
      var total := WeightedExclusion(buckets);
      ratio := total / DiscArea(width - 1) as real;
      AdjustedRatioBounds(grid, hull, width, height);
    }
    return Ok(ratio);
  }
}
