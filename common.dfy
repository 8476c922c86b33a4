/** Entities shared by the analysis stages: integer pixel points, traced contours,
    grayscale images given as row-major values, and the error kinds of the analysis. */
module Imaging {

  /** A pixel coordinate (the source's `Point<u32>`). */
  datatype Point = Point(x: nat, y: nat)

  /** Whether a traced contour bounds a region from the outside or a hole inside it. */
  datatype BorderType = Outer | Hole

  /** A closed boundary polyline produced by the (external) contour tracer. */
  datatype Contour = Contour(points: seq<Point>, borderType: BorderType)

  /** A single-channel image: `rows[y][x]` is the intensity of pixel (x, y). */
  datatype GrayImage = GrayImage(width: nat, height: nat, rows: seq<seq<int>>)
  {
    /** Rows and columns match the dimensions and every sample is a byte. */
    predicate Valid()
    {
      && |rows| == height
      && (forall y :: 0 <= y < |rows| ==> |rows[y]| == width)
      && (forall y, x :: 0 <= y < |rows| && 0 <= x < |rows[y]| ==> 0 <= rows[y][x] <= 255)
    }
  }

  /** The error kinds of the analysis. */
  datatype Error =
    | FailedToDetectText(detected: string)
    | ToSmallExclusionDiameter
    | ExtremeLineIsNonHorizontal
    | LessThenTwoApplicableLinesFound

  datatype Result<T> = Ok(value: T) | Err(error: Error)

  datatype Option<T> = None | Some(value: T)

  function Abs(v: int): (r: nat)
    ensures r == v || r == -v
  {
    if v < 0 then -v else v
  }

  function Sq(v: int): nat
  {
    Abs(v) * Abs(v)
  }

  /** Squared Euclidean distance between two points. */
  function SqDist(p: Point, q: Point): (r: nat)
    ensures r == 0 <==> p == q
  {
    SqZero(p.x - q.x);
    SqZero(p.y - q.y);
    Sq(p.x - q.x) + Sq(p.y - q.y)
  }

  lemma SqZero(v: int)
    ensures Sq(v) == 0 <==> v == 0
  {
    if v != 0 {
      assert Abs(v) >= 1;
      assert Abs(v) * Abs(v) >= Abs(v);
    }
  }

  /** `g` has `height` rows of `width` entries each, indexed `g[y][x]`. */
  predicate IsGrid<T>(g: seq<seq<T>>, width: nat, height: nat)
  {
    |g| == height && forall y :: 0 <= y < |g| ==> |g[y]| == width
  }

  /** Every contour handed over by the tracer has at least one point. */
  predicate AllNonEmpty(contours: seq<Contour>)
  {
    forall i :: 0 <= i < |contours| ==> |contours[i].points| > 0
  }

  /** The product of two positive reals is positive. */
  lemma PositiveProduct(a: real, b: real)
    requires 0.0 < a && 0.0 < b
    ensures 0.0 < a * b
  {
  }
}
