/** The per-contour analysis of graphene flakes: step-5 sampling of the contour,
    the farthest pair of samples, the size and elongation filters, the centre
    of the flake and the orientation of the normal of its long axis. */
module Flakes {
  import opened Imaging

  /** `std::f32::consts::PI`, written to the precision of an `f32`. */
  const PI: real := 3.1415927

  /** `std::f32::consts::FRAC_PI_2`. */
  const FRAC_PI_2: real := PI / 2.0

  /** What the (external) square root is relied on for: it is the non-negative
      root of every natural number. */
  ghost predicate SqrtLaw(sqrt: nat -> real)
  {
    forall n: nat :: 0.0 <= sqrt(n) && sqrt(n) * sqrt(n) == n as real
  }

  /** What the (external) `atan2` is relied on for: the direction opposite to a
      non-zero vector differs from it by a half turn. */
  ghost predicate Atan2Law(atan2: (real, real) -> real)
  {
    forall y1: real, x1: real, y2: real, x2: real {:trigger atan2(y1, x1), atan2(y2, x2)} ::
      y2 == -y1 && x2 == -x1 && (x1 != 0.0 || y1 != 0.0) ==>
        atan2(y2, x2) == atan2(y1, x1) + PI || atan2(y2, x2) == atan2(y1, x1) - PI
  }

  /** One analysed flake: its centre, the angle of its normal and its length in µm. */
  datatype Flake = Flake(centerX: real, centerY: real, angle: real, length: real)

  // ---------------------------------------------------------------------------
  // Sampling
  // ---------------------------------------------------------------------------

  /** `points.iter().step_by(5)`: the points at indices 0, 5, 10, ... in order. */
  function Samples(points: seq<Point>): (s: seq<Point>)
    ensures |s| == (|points| + 4) / 5
    ensures forall i :: 0 <= i < |s| ==> s[i] == points[5 * i]
    decreases |points|
  {
    if |points| == 0 then []
    else if |points| <= 5 then [points[0]]
    else [points[0]] + Samples(points[5..])
  }

  // ---------------------------------------------------------------------------
  // The farthest pair of samples
  // ---------------------------------------------------------------------------

  /** A candidate pair of sample indices together with its squared distance. */
  datatype Farthest = Farthest(i: nat, j: nat, d: nat)

  /** Pair (x, y) comes before pair (i, j) in the row-major order of the double loop. */
  predicate Before(x: nat, y: nat, i: nat, j: nat)
  {
    x < i || (x == i && y < j)
  }

  /** `acc` after the inner loop has visited columns 0 .. m - 1 of row a: a pair
      replaces the current one only when it is strictly farther. */
  function RowScan(s: seq<Point>, a: nat, m: nat, acc: Farthest): Farthest
    requires a < |s| && m <= |s|
  {
    if m == 0 then acc
    else
      var p := RowScan(s, a, m - 1, acc);
      var d := SqDist(s[a], s[m - 1]);
      if p.d < d then Farthest(a, m - 1, d) else p
  }

  /** The candidate after the outer loop has visited rows 0 .. m - 1, starting
      from the pair (0, 0) at distance 0. */
  function GridScan(s: seq<Point>, m: nat): Farthest
    requires m <= |s|
  {
    if m == 0 then Farthest(0, 0, 0) else RowScan(s, m - 1, |s|, GridScan(s, m - 1))
  }

  /** The pair the double loop settles on (a pair of sample indices). */
  function FarthestPair(s: seq<Point>): (f: Farthest)
    ensures 0 < |s| ==> f.i < |s| && f.j < |s|
  {
    if 0 < |s| then
      GridScanInv(s, |s|);
      GridScan(s, |s|)
    else GridScan(s, |s|)
  }

  /** p is a farthest pair of samples, and every pair before it in loop order is
      strictly nearer: the first farthest pair. */
  predicate IsFirstFarthest(s: seq<Point>, p: Farthest)
  {
    && p.i < |s| && p.j < |s| && p.d == SqDist(s[p.i], s[p.j])
    && (forall x, y :: 0 <= x < |s| && 0 <= y < |s| ==> SqDist(s[x], s[y]) <= p.d)
    && (forall x, y :: 0 <= x < |s| && 0 <= y < |s| && Before(x, y, p.i, p.j) ==> SqDist(s[x], s[y]) < p.d)
  }

  /** The loop state once every pair before (a, b) has been visited. */
  predicate ScanInv(s: seq<Point>, a: nat, b: nat, p: Farthest)
  {
    && p.i < |s| && p.j < |s| && p.d == SqDist(s[p.i], s[p.j])
    && (p == Farthest(0, 0, 0) || Before(p.i, p.j, a, b))
    && (forall x, y :: 0 <= x < |s| && 0 <= y < |s| && Before(x, y, a, b) ==> SqDist(s[x], s[y]) <= p.d)
    && (forall x, y :: 0 <= x < |s| && 0 <= y < |s| && Before(x, y, p.i, p.j) ==> SqDist(s[x], s[y]) < p.d)
  }

  lemma {:induction false} RowScanInv(s: seq<Point>, a: nat, m: nat, acc: Farthest)
    requires a < |s| && m <= |s| && ScanInv(s, a, 0, acc)
    ensures ScanInv(s, a, m, RowScan(s, a, m, acc))
  {
    if m > 0 {
      RowScanInv(s, a, m - 1, acc);
      var p := RowScan(s, a, m - 1, acc);
      var d := SqDist(s[a], s[m - 1]);
      if p.d < d {
        var q := Farthest(a, m - 1, d);
        assert RowScan(s, a, m, acc) == q;
        forall x, y | 0 <= x < |s| && 0 <= y < |s| && Before(x, y, a, m)
          ensures SqDist(s[x], s[y]) <= q.d
        {
          if Before(x, y, a, m - 1) {
            assert SqDist(s[x], s[y]) <= p.d;
          }
        }
      } else {
        assert RowScan(s, a, m, acc) == p;
        forall x, y | 0 <= x < |s| && 0 <= y < |s| && Before(x, y, a, m)
          ensures SqDist(s[x], s[y]) <= p.d
        {
          if Before(x, y, a, m - 1) {
            assert SqDist(s[x], s[y]) <= p.d;
          }
        }
      }
    }
  }

  lemma {:induction false} GridScanInv(s: seq<Point>, m: nat)
    requires 0 < |s| && m <= |s|
    ensures ScanInv(s, m, 0, GridScan(s, m))
  {
    if m > 0 {
      GridScanInv(s, m - 1);
      var p := GridScan(s, m - 1);
      RowScanInv(s, m - 1, |s|, p);
      var q := RowScan(s, m - 1, |s|, p);
      assert GridScan(s, m) == q;
      forall x, y | 0 <= x < |s| && 0 <= y < |s| && Before(x, y, m, 0)
        ensures Before(x, y, m - 1, |s|)
      {
      }
    }
  }

  /** The double loop settles on the first farthest pair of samples. */
  lemma FarthestPairIsFirstFarthest(s: seq<Point>)
    requires 0 < |s|
    ensures IsFirstFarthest(s, FarthestPair(s))
  {
    GridScanInv(s, |s|);
  }

  /** There is only one first farthest pair, so the specification pins the result. */
  lemma FirstFarthestUnique(s: seq<Point>, p: Farthest, q: Farthest)
    requires IsFirstFarthest(s, p) && IsFirstFarthest(s, q)
    ensures p == q
  {
    assert p.d == q.d by {
      assert SqDist(s[q.i], s[q.j]) <= p.d;
      assert SqDist(s[p.i], s[p.j]) <= q.d;
    }
    assert !Before(p.i, p.j, q.i, q.j) && !Before(q.i, q.j, p.i, p.j);
  }

  /** The maximal distance is zero exactly when all samples coincide, and then the
      pair stays at the first sample twice. */
  lemma CoincidentSamples(s: seq<Point>)
    requires 0 < |s|
    ensures FarthestPair(s).d == 0 <==> forall x, y :: 0 <= x < |s| && 0 <= y < |s| ==> s[x] == s[y]
    ensures FarthestPair(s).d == 0 ==> FarthestPair(s).i == 0 && FarthestPair(s).j == 0
  {
    var p := FarthestPair(s);
    FarthestPairIsFirstFarthest(s);
    if p.d == 0 {
      forall x, y | 0 <= x < |s| && 0 <= y < |s| ensures s[x] == s[y] {
        assert SqDist(s[x], s[y]) <= 0;
      }
      assert SqDist(s[0], s[0]) == 0;
      if p.i != 0 || p.j != 0 {
        assert false;
      }
    } else {
      assert s[p.i] != s[p.j];
    }
  }

  /** The root of a larger number is larger. */
  lemma SqrtStrictlyMonotone(sqrt: nat -> real, m: nat, n: nat)
    requires SqrtLaw(sqrt)
    ensures sqrt(m) < sqrt(n) <==> m < n
  {
    var u, v := sqrt(m), sqrt(n);
    assert 0.0 <= u && u * u == m as real;
    assert 0.0 <= v && v * v == n as real;
    SquareMonotone(u, v);
    SquareMonotone(v, u);
  }

  lemma SquareMonotone(u: real, v: real)
    requires 0.0 <= u
    ensures u < v ==> u * u < v * v
  {
    if u < v {
      assert v * v - u * u == (v - u) * (v + u);
      PositiveProduct(v - u, v + u);
    }
  }

  lemma SqrtZero(sqrt: nat -> real)
    requires SqrtLaw(sqrt)
    ensures sqrt(0) == 0.0
  {
    var u := sqrt(0);
    assert 0.0 <= u && u * u == 0.0;
    SquareMonotone(0.0, u);
  }

  lemma ProductMonotone(a: real, b: real, c: real)
    requires 0.0 <= a && b <= c
    ensures a * b <= a * c
  {
    assert a * c - a * b == a * (c - b);
  }

  /** The double loop over samples × samples (the source compares the roots of
      the squared distances; the root of 0 is 0). */
  method FarthestSamples(s: seq<Point>, sqrt: nat -> real) returns (p1: nat, p2: nat, currentMaximumDistance: real)
    requires 0 < |s| && SqrtLaw(sqrt)
    ensures p1 < |s| && p2 < |s|
    ensures var f := FarthestPair(s);
            p1 == f.i && p2 == f.j && currentMaximumDistance == sqrt(f.d)
  {
    p1, p2, currentMaximumDistance := 0, 0, 0.0;
    ghost var best: nat := 0;
    SqrtZero(sqrt);
    for a := 0 to |s|
      invariant Farthest(p1, p2, best) == GridScan(s, a)
      invariant currentMaximumDistance == sqrt(best)
    {
      for b := 0 to |s|
        invariant Farthest(p1, p2, best) == RowScan(s, a, b, GridScan(s, a))
        invariant currentMaximumDistance == sqrt(best)
      {
        var distance := sqrt(SqDist(s[a], s[b]));
        SqrtStrictlyMonotone(sqrt, best, SqDist(s[a], s[b]));
        if currentMaximumDistance < distance {
          p1, p2 := a, b;
          currentMaximumDistance := distance;
          best := SqDist(s[a], s[b]);
        }
      }
    }
    assert Farthest(p1, p2, best) == FarthestPair(s);
  }

  // ---------------------------------------------------------------------------
  // The sample farthest from the long axis
  // ---------------------------------------------------------------------------

  /** Twice the area of the triangle (p1, p2, q): the distance of q from the line
      through p1 and p2, times the length of p1p2, up to sign; zero at either end
      of the axis. */
  function Cross(p1: Point, p2: Point, q: Point): (c: int)
    ensures q == p1 || q == p2 ==> c == 0
  {
    (p2.y - p1.y) * (p1.x - q.x) - (p1.y - q.y) * (p2.x - p1.x)
  }

  function Crosses(s: seq<Point>, p1: Point, p2: Point): (v: seq<nat>)
    ensures |v| == |s|
    ensures forall i :: 0 <= i < |s| ==> v[i] == Abs(Cross(p1, p2, s[i]))
  {
    seq(|s|, i requires 0 <= i < |s| => Abs(Cross(p1, p2, s[i])))
  }

  /** A candidate index together with its value. */
  datatype Peak = Peak(k: nat, best: nat)

  /** The scan over v[0 .. m - 1] that starts at (0, 0) and moves only to a strictly
      larger value. */
  function FirstArgMax(v: seq<nat>, m: nat): Peak
    requires m <= |v|
  {
    if m == 0 then Peak(0, 0)
    else
      var p := FirstArgMax(v, m - 1);
      if p.best < v[m - 1] then Peak(m - 1, v[m - 1]) else p
  }

  /** The scan returns the maximum of a non-empty prefix and the first index
      holding it. */
  lemma {:induction false} FirstArgMaxIsFirstMax(v: seq<nat>, m: nat)
    requires 0 < m <= |v|
    ensures var p := FirstArgMax(v, m);
            && p.k < m && p.best == v[p.k]
            && (forall i :: 0 <= i < m ==> v[i] <= p.best)
            && (forall i :: 0 <= i < p.k ==> v[i] < p.best)
  {
    if m > 1 {
      FirstArgMaxIsFirstMax(v, m - 1);
    }
  }

  lemma DivisionMonotone(a: real, b: real, d: real)
    requires 0.0 < d
    ensures a / d < b / d <==> a < b
  {
    assert a / d * d == a;
    assert b / d * d == b;
  }

  /** The perpendicular extent of the samples: the largest |cross| over the length
      of the axis, or 0 when the axis has length 0. It is never negative, bounds
      every sample's |cross| / dist and is reached by one of them. */
  function MaximumDistanceToLine(s: seq<Point>, p1: Point, p2: Point, dist: real): (e: real)
    ensures 0.0 <= e
    ensures 0.0 < dist ==> forall i :: 0 <= i < |s| ==> Abs(Cross(p1, p2, s[i])) as real / dist <= e
    ensures 0.0 < dist && 0 < |s| ==> exists i :: 0 <= i < |s| && Abs(Cross(p1, p2, s[i])) as real / dist == e
  {
    if 0.0 < dist then
      ExtentBounds(s, p1, p2, dist);
      FirstArgMax(Crosses(s, p1, p2), |s|).best as real / dist
    else 0.0
  }

  /** The quotient of the scan's maximum bounds every sample's quotient and is one of them. */
  lemma ExtentBounds(s: seq<Point>, p1: Point, p2: Point, dist: real)
    requires 0.0 < dist
    ensures var e := FirstArgMax(Crosses(s, p1, p2), |s|).best as real / dist;
            && 0.0 <= e
            && (forall i :: 0 <= i < |s| ==> Abs(Cross(p1, p2, s[i])) as real / dist <= e)
            && (0 < |s| ==> exists i :: 0 <= i < |s| && Abs(Cross(p1, p2, s[i])) as real / dist == e)
  {
    var v := Crosses(s, p1, p2);
    var best := FirstArgMax(v, |s|).best;
    DivisionMonotone(best as real, 0.0, dist);
    if 0 < |s| {
      FirstArgMaxIsFirstMax(v, |s|);
      forall i | 0 <= i < |s|
        ensures Abs(Cross(p1, p2, s[i])) as real / dist <= best as real / dist
      {
        DivisionMonotone(best as real, v[i] as real, dist);
      }
      var k := FirstArgMax(v, |s|).k;
      assert Abs(Cross(p1, p2, s[k])) as real / dist == best as real / dist;
    }
  }

  /** The loop for the sample farthest from the line through p1 and p2. The source
      divides by `dist`; when that is 0 every sample coincides with p1 = p2, each
      quotient is NaN and no comparison succeeds. */
  method PerpendicularMax(s: seq<Point>, p1: Point, p2: Point, dist: real) returns (p3: nat, maximumDistanceToLine: real)
    requires 0 < |s| && 0.0 <= dist
    requires dist == 0.0 ==> forall i :: 0 <= i < |s| ==> s[i] == p1 == p2
    ensures maximumDistanceToLine == MaximumDistanceToLine(s, p1, p2, dist)
    ensures p3 == if 0.0 < dist then FirstArgMax(Crosses(s, p1, p2), |s|).k else 0
  {
    ghost var v := Crosses(s, p1, p2);
    p3, maximumDistanceToLine := 0, 0.0;
    for i := 0 to |s|
      invariant 0.0 < dist ==> p3 == FirstArgMax(v, i).k && maximumDistanceToLine == FirstArgMax(v, i).best as real / dist
      invariant dist == 0.0 ==> p3 == 0 && maximumDistanceToLine == 0.0
    {
      if 0.0 < dist {
        var distance := Abs(Cross(p1, p2, s[i])) as real / dist;
        DivisionMonotone(FirstArgMax(v, i).best as real, v[i] as real, dist);
        if maximumDistanceToLine < distance {
          p3 := i;
          maximumDistanceToLine := distance;
        }
      }
    }
  }

  // ---------------------------------------------------------------------------
  // Centre and orientation
  // ---------------------------------------------------------------------------

  function Min(a: nat, b: nat): nat
  {
    if a <= b then a else b
  }

  /** `a.abs_diff(b) / 2 + a.min(b)`: the midpoint of a and b. */
  function Midpoint(a: nat, b: nat): (c: real)
    ensures c == (a + b) as real / 2.0
  {
    Abs(a - b) as real / 2.0 + Min(a, b) as real
  }

  /** `a.rem_euclid(m)` for a positive modulus. */
  function RemEuclid(a: real, m: real): (r: real)
    requires 0.0 < m
    ensures 0.0 <= r < m
  {
    DivisionFloor(a, m);
    a - m * (a / m).Floor as real
  }

  lemma DivisionFloor(a: real, m: real)
    requires 0.0 < m
    ensures 0.0 <= a - m * (a / m).Floor as real < m
  {
    var q := a / m;
    var f := q.Floor as real;
    assert q * m == a;
    assert 0.0 <= q - f < 1.0;
    assert a - m * f == m * (q - f);
    ProductMonotone(m, 0.0, q - f);
    ProductMonotone(m, q - f, 1.0);
  }

  /** Adding one period does not change the Euclidean remainder. */
  lemma RemEuclidPeriodic(a: real, m: real)
    requires 0.0 < m
    ensures RemEuclid(a + m, m) == RemEuclid(a, m)
    ensures RemEuclid(a - m, m) == RemEuclid(a, m)
  {
    var q := a / m;
    assert q * m == a;
    QuotientUnique(a + m, m, q + 1.0);
    QuotientUnique(a - m, m, q - 1.0);
    FloorShift(q);
  }

  lemma QuotientUnique(x: real, m: real, y: real)
    requires 0.0 < m && y * m == x
    ensures x / m == y
  {
    assert x / m * m == x;
    assert (x / m - y) * m == 0.0;
  }

  lemma FloorShift(q: real)
    ensures (q + 1.0).Floor == q.Floor + 1
    ensures (q - 1.0).Floor == q.Floor - 1
  {
  }

  /** Angle of the normal of the direction (dx, dy): `PI/2 - atan2(dy, dx).rem_euclid(PI)`,
      so that opposite directions give the same angle; 0 is horizontal. */
  function Angle(atan2: (real, real) -> real, dx: int, dy: int): (angle: real)
    ensures -FRAC_PI_2 < angle <= FRAC_PI_2
  {
    FRAC_PI_2 - RemEuclid(atan2(dy as real, dx as real), PI)
  }

  /** Exchanging the two farthest points does not change the angle. */
  lemma AngleSymmetric(atan2: (real, real) -> real, dx: int, dy: int)
    requires Atan2Law(atan2)
    ensures Angle(atan2, -dx, -dy) == Angle(atan2, dx, dy)
  {
    var a := atan2(dy as real, dx as real);
    var b := atan2((-dy) as real, (-dx) as real);
    if dx != 0 || dy != 0 {
      assert b == a + PI || b == a - PI;
      RemEuclidPeriodic(a, PI);
    }
  }

  // ---------------------------------------------------------------------------
  // One contour, and all of them
  // ---------------------------------------------------------------------------

  /** The image scale (µm per pixel) and the flake filter's thresholds
      (`min_graphene_size` in µm, `min_graphene_ratio`). */
  datatype Settings = Settings(scale: real, minGrapheneSize: real, minGrapheneRatio: real)

  /** A contour the loop can analyse: an outer contour has a first sample. */
  predicate Analysable(c: Contour)
  {
    c.borderType == Outer ==> 0 < |c.points|
  }

  /** Too round: the length over the perpendicular extent is below the ratio. An
      extent of 0 makes the quotient +inf (or NaN), which never is. */
  predicate TooRound(dist: real, extent: real, minGrapheneRatio: real)
    ensures 0.0 < extent ==> (TooRound(dist, extent, minGrapheneRatio) <==> dist < minGrapheneRatio * extent)
  {
    if 0.0 < extent then
      DivisionMonotone(dist, minGrapheneRatio * extent, extent);
      assert minGrapheneRatio * extent / extent == minGrapheneRatio;
      dist / extent < minGrapheneRatio
    else false
  }

  /** The flake measured from the samples of an outer contour, or None when it is
      shorter than the minimum size or too round. */
  function FlakeOfSamples(s: seq<Point>, sqrt: nat -> real, atan2: (real, real) -> real, settings: Settings): (r: Option<Flake>)
    requires 0 < |s|
    ensures r.Some? ==> settings.minGrapheneSize <= r.value.length
    ensures r.Some? ==> -FRAC_PI_2 < r.value.angle <= FRAC_PI_2
  {
    var f := FarthestPair(s);
    var dist := sqrt(f.d);
    if dist * settings.scale < settings.minGrapheneSize then None
    else FlakeOfAxis(s, s[f.i], s[f.j], dist, atan2, settings)
  }

  /** The flake with long axis p1p2 of length `dist`, or None when it is too round. */
  function FlakeOfAxis(s: seq<Point>, p1: Point, p2: Point, dist: real, atan2: (real, real) -> real, settings: Settings)
    : (r: Option<Flake>)
    ensures r.Some? ==> r.value.length == dist * settings.scale
    ensures r.Some? ==> -FRAC_PI_2 < r.value.angle <= FRAC_PI_2
  {
    if TooRound(dist, MaximumDistanceToLine(s, p1, p2, dist), settings.minGrapheneRatio) then None
    else Some(Flake(Midpoint(p1.x, p2.x), Midpoint(p1.y, p2.y), Angle(atan2, p2.x - p1.x, p2.y - p1.y), dist * settings.scale))
  }

  /** The flake the loop body produces for one contour, or None when it skips it. */
  function FlakeOf(c: Contour, sqrt: nat -> real, atan2: (real, real) -> real, settings: Settings): (r: Option<Flake>)
    requires Analysable(c)
    ensures c.borderType == Hole ==> r.None?
    ensures r.Some? ==> settings.minGrapheneSize <= r.value.length
    ensures r.Some? ==> -FRAC_PI_2 < r.value.angle <= FRAC_PI_2
  {
    if c.borderType == Hole then None else FlakeOfSamples(Samples(c.points), sqrt, atan2, settings)
  }

  /** The outcome of the loop body for every contour, in order. */
  function Outcomes(contours: seq<Contour>, sqrt: nat -> real, atan2: (real, real) -> real, settings: Settings)
    : (r: seq<Option<Flake>>)
    requires forall i :: 0 <= i < |contours| ==> Analysable(contours[i])
    ensures |r| == |contours|
    ensures forall i :: 0 <= i < |contours| ==> r[i] == FlakeOf(contours[i], sqrt, atan2, settings)
  {
    seq(|contours|, i requires 0 <= i < |contours| => FlakeOf(contours[i], sqrt, atan2, settings))
  }

  /** The flakes pushed for a sequence of outcomes, in order. */
  function Collect(rs: seq<Option<Flake>>): (flakes: seq<Flake>)
    ensures |flakes| <= |rs|
  {
    if rs == [] then []
    else Collect(rs[..|rs| - 1]) + if rs[|rs| - 1].Some? then [rs[|rs| - 1].value] else []
  }

  /** The flakes of all contours, in contour order: at most one per contour, and
      none from a lone hole (`HoleIgnored` extends this to a hole anywhere). */
  function FlakesOf(contours: seq<Contour>, sqrt: nat -> real, atan2: (real, real) -> real, settings: Settings)
    : (flakes: seq<Flake>)
    requires forall i :: 0 <= i < |contours| ==> Analysable(contours[i])
    ensures |flakes| <= |contours|
    ensures |contours| == 1 && contours[0].borderType == Hole ==> flakes == []
  {
    var rs := Outcomes(contours, sqrt, atan2, settings);
    assert |contours| == 1 && contours[0].borderType == Hole ==> rs[..0] == [] && rs[0] == None;
    Collect(rs)
  }

  /** The body of the loop over contours; each `return None` is one of its
      `continue`s. */
  method AnalyseContour(contour: Contour, sqrt: nat -> real, atan2: (real, real) -> real, settings: Settings)
    returns (r: Option<Flake>)
    requires SqrtLaw(sqrt) && Analysable(contour)
    ensures r == FlakeOf(contour, sqrt, atan2, settings)
  {
    if contour.borderType == Hole {
      return None;
    }
    var samples := Samples(contour.points);
    r := AnalyseSamples(samples, sqrt, atan2, settings);
  }

  /** The part of the loop body after sampling: the farthest pair and the size filter. */
  method AnalyseSamples(samples: seq<Point>, sqrt: nat -> real, atan2: (real, real) -> real, settings: Settings)
    returns (r: Option<Flake>)
    requires SqrtLaw(sqrt) && 0 < |samples|
    ensures r == FlakeOfSamples(samples, sqrt, atan2, settings)
  {
    var p1, p2, currentMaximumDistance := FarthestSamples(samples, sqrt);
    if currentMaximumDistance * settings.scale < settings.minGrapheneSize {
      return None;
    }
    if currentMaximumDistance == 0.0 {
      SqrtZero(sqrt);
      SqrtStrictlyMonotone(sqrt, 0, FarthestPair(samples).d);
      CoincidentSamples(samples);
    }
    r := AnalyseAxis(samples, samples[p1], samples[p2], currentMaximumDistance, atan2, settings);
  }

  /** The rest of the loop body: the sample farthest from the axis, the elongation
      filter, the centre and the angle. */
  method AnalyseAxis(samples: seq<Point>, point1: Point, point2: Point, currentMaximumDistance: real,
                     atan2: (real, real) -> real, settings: Settings) returns (r: Option<Flake>)
    requires 0 < |samples| && 0.0 <= currentMaximumDistance
    requires currentMaximumDistance == 0.0 ==> forall i :: 0 <= i < |samples| ==> samples[i] == point1 == point2
    ensures r == FlakeOfAxis(samples, point1, point2, currentMaximumDistance, atan2, settings)
  {
    var p3, maximumDistanceToLine := PerpendicularMax(samples, point1, point2, currentMaximumDistance);
    assert TooRound(currentMaximumDistance, maximumDistanceToLine, settings.minGrapheneRatio)
       <==> 0.0 < maximumDistanceToLine && currentMaximumDistance / maximumDistanceToLine < settings.minGrapheneRatio;
    // A zero divisor makes the quotient +inf or NaN, neither of which is below the ratio.
    if 0.0 < maximumDistanceToLine && currentMaximumDistance / maximumDistanceToLine < settings.minGrapheneRatio {
      return None;
    }
    var centerX := Midpoint(point1.x, point2.x);
    var centerY := Midpoint(point1.y, point2.y);
    var angle := Angle(atan2, point2.x - point1.x, point2.y - point1.y);
    ghost var expected := FlakeOfAxis(samples, point1, point2, currentMaximumDistance, atan2, settings);
    assert expected.Some?;
    assert expected.value.centerX == centerX && expected.value.centerY == centerY;
    assert expected.value.angle == angle;
    assert expected.value.length == currentMaximumDistance * settings.scale;
    return Some(Flake(centerX, centerY, angle, currentMaximumDistance * settings.scale));
  }

  /** The loop over contours, pushing one flake per contour that survives. */
  method GrapheneAngles(contours: seq<Contour>, sqrt: nat -> real, atan2: (real, real) -> real, settings: Settings)
    returns (flakes: seq<Flake>)
    requires SqrtLaw(sqrt)
    requires forall i :: 0 <= i < |contours| ==> Analysable(contours[i])
    ensures flakes == FlakesOf(contours, sqrt, atan2, settings)
  {
    ghost var outcomes := Outcomes(contours, sqrt, atan2, settings);
    flakes := [];
    for n := 0 to |contours|
      invariant flakes == Collect(outcomes[..n])
    {
      assert outcomes[..n + 1][..n] == outcomes[..n];
      var flake := AnalyseContour(contours[n], sqrt, atan2, settings);
      if flake.Some? {
        flakes := flakes + [flake.value];
      }
    }
    assert outcomes[..|contours|] == outcomes;
  }

  // ---------------------------------------------------------------------------
  // Properties of the output
  // ---------------------------------------------------------------------------

  /** The elongation test in integer terms: with d the squared length and c the
      largest |cross|, the flake is too round iff c > 0 and d / c is below the ratio. */
  lemma ElongationTest(sqrt: nat -> real, d: nat, c: nat, minGrapheneRatio: real)
    requires SqrtLaw(sqrt) && 0.0 < sqrt(d)
    ensures TooRound(sqrt(d), c as real / sqrt(d), minGrapheneRatio) <==> (0 < c && d as real / c as real < minGrapheneRatio)
  {
    var dist := sqrt(d);
    if 0 < c {
      var extent := c as real / dist;
      assert extent * dist == c as real;
      assert dist * dist == d as real;
      assert dist / extent == d as real / c as real by {
        assert (d as real / c as real) * extent == dist * dist / dist;
      }
    }
  }

  lemma {:induction false} CollectConcat(a: seq<Option<Flake>>, b: seq<Option<Flake>>)
    ensures Collect(a + b) == Collect(a) + Collect(b)
  {
    if b == [] {
      assert a + b == a;
    } else {
      var init := b[..|b| - 1];
      CollectConcat(a, init);
      assert (a + b)[..|a + b| - 1] == a + init;
    }
  }

  /** A flake is reported iff some contour's outcome is that flake. */
  lemma {:induction false} CollectMembers(rs: seq<Option<Flake>>)
    ensures forall f :: f in Collect(rs) <==> Some(f) in rs
  {
    if rs != [] {
      var init := rs[..|rs| - 1];
      CollectMembers(init);
      assert rs == init + [rs[|rs| - 1]];
    }
  }

  /** The analysis of a concatenation is the concatenation of the analyses: flakes
      come out in contour order, one contour at a time. */
  lemma FlakesOfConcat(a: seq<Contour>, b: seq<Contour>, sqrt: nat -> real, atan2: (real, real) -> real, settings: Settings)
    requires forall i :: 0 <= i < |a| ==> Analysable(a[i])
    requires forall i :: 0 <= i < |b| ==> Analysable(b[i])
    ensures forall i :: 0 <= i < |a + b| ==> Analysable((a + b)[i])
    ensures FlakesOf(a + b, sqrt, atan2, settings) == FlakesOf(a, sqrt, atan2, settings) + FlakesOf(b, sqrt, atan2, settings)
  {
    assert forall i :: 0 <= i < |a + b| ==> Analysable((a + b)[i]) by {
      forall i | 0 <= i < |a + b| ensures Analysable((a + b)[i]) {
        if i >= |a| {
          assert (a + b)[i] == b[i - |a|];
        }
      }
    }
    assert Outcomes(a + b, sqrt, atan2, settings) == Outcomes(a, sqrt, atan2, settings) + Outcomes(b, sqrt, atan2, settings);
    CollectConcat(Outcomes(a, sqrt, atan2, settings), Outcomes(b, sqrt, atan2, settings));
  }

  /** A hole contour anywhere in the list contributes nothing. */
  lemma HoleIgnored(a: seq<Contour>, h: Contour, b: seq<Contour>, sqrt: nat -> real, atan2: (real, real) -> real, settings: Settings)
    requires forall i :: 0 <= i < |a| ==> Analysable(a[i])
    requires forall i :: 0 <= i < |b| ==> Analysable(b[i])
    requires h.borderType == Hole
    ensures forall i :: 0 <= i < |a + [h] + b| ==> Analysable((a + [h] + b)[i])
    ensures FlakesOf(a + [h] + b, sqrt, atan2, settings) == FlakesOf(a + b, sqrt, atan2, settings)
  {
    FlakesOfConcat(a, [h], sqrt, atan2, settings);
    FlakesOfConcat(a + [h], b, sqrt, atan2, settings);
    calc {
      FlakesOf(a + [h] + b, sqrt, atan2, settings);
      FlakesOf(a + [h], sqrt, atan2, settings) + FlakesOf(b, sqrt, atan2, settings);
      { assert FlakesOf([h], sqrt, atan2, settings) == []; }
      FlakesOf(a, sqrt, atan2, settings) + FlakesOf(b, sqrt, atan2, settings);
      { FlakesOfConcat(a, b, sqrt, atan2, settings); }
      FlakesOf(a + b, sqrt, atan2, settings);
    }
  }

  /** Every reported flake is at least `minGrapheneSize` long and its angle lies
      in (-PI/2, PI/2]. */
  lemma FlakesWithinLimits(contours: seq<Contour>, sqrt: nat -> real, atan2: (real, real) -> real, settings: Settings)
    requires forall i :: 0 <= i < |contours| ==> Analysable(contours[i])
    ensures forall f :: f in FlakesOf(contours, sqrt, atan2, settings) ==>
              settings.minGrapheneSize <= f.length && -FRAC_PI_2 < f.angle <= FRAC_PI_2
  {
    var outcomes := Outcomes(contours, sqrt, atan2, settings);
    CollectMembers(outcomes);
    forall f | f in Collect(outcomes)
      ensures settings.minGrapheneSize <= f.length && -FRAC_PI_2 < f.angle <= FRAC_PI_2
    {
      var i :| 0 <= i < |outcomes| && outcomes[i] == Some(f);
      assert FlakeOf(contours[i], sqrt, atan2, settings) == Some(f);
    }
  }
}
