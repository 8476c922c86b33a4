/** Reading the scale of an SEM image from its footer: the row where the text
    footer starts (the most common first brightness rise scanning each column
    upward), the two extreme horizontal lines of the scale bar, and the printed
    length in micrometres. */
module ScaleBar {
  import opened Imaging

  /** Rows at the bottom of the image that the footer scan skips. */
  const SKIP_BOTTOM_PIXELS: nat := 40

  /** `u32::MAX`, the "no line yet" value of the leftmost line. */
  const U32_MAX: nat := 0xFFFF_FFFF

  /** Width of the strip at the right of the footer that holds the scale bar. */
  const BAR_STRIP_WIDTH: nat := 650

  /** A run shorter than this many pixels is not part of the scale bar. */
  const MIN_LINE_LENGTH: nat := 16

  /** The `TextRecognition` section of the configuration. */
  datatype TextRecognition = TextRecognition(overrideScale: bool, scaleBarHeight: nat,
                                             overrideScaleMicrometers: real, overrideScalePixels: nat)

  /** The result: micrometres per pixel (None for the infinite or NaN quotient
      of a zero pixel count), micrometres, pixels, footer height and the image
      above the footer. */
  datatype Scale = Scale(micrometersPerPixel: Option<real>, micrometers: real, pixels: nat,
                         barHeight: nat, imageWithoutText: GrayImage)

  function AbsDiff(a: nat, b: nat): (d: nat)
    ensures d == Abs(a - b)
  {
    if a < b then b - a else a - b
  }

  /** `a / (b as f32)`; a zero divisor gives no finite quotient. */
  function Quotient(a: real, b: nat): (q: Option<real>)
    ensures q.Some? <==> 0 < b
    ensures q.Some? ==> q.value * b as real == a
  {
    if b == 0 then None else Some(a / b as real)
  }

  // ---------------------------------------------------------------------------
  // Crop and threshold (library operations on the image)
  // ---------------------------------------------------------------------------

  /** The w × h window of `img` whose top left corner is (x0, y0). */
  function Crop(img: GrayImage, x0: nat, y0: nat, w: nat, h: nat): (c: GrayImage)
    requires img.Valid() && x0 + w <= img.width && y0 + h <= img.height
    ensures c.Valid() && c.width == w && c.height == h
    ensures forall y, x :: 0 <= y < h && 0 <= x < w ==> c.rows[y][x] == img.rows[y0 + y][x0 + x]
  {
    GrayImage(w, h, seq(h, y requires 0 <= y < h => img.rows[y0 + y][x0..x0 + w]))
  }

  /** Pixels above `t` become 255, the others 0. */
  function Threshold(img: GrayImage, t: int): (r: GrayImage)
    requires img.Valid()
    ensures r.Valid() && r.width == img.width && r.height == img.height
    ensures forall y, x :: 0 <= y < r.height && 0 <= x < r.width ==>
              r.rows[y][x] == if img.rows[y][x] <= t then 0 else 255
  {
    GrayImage(img.width, img.height,
      seq(img.height, y requires 0 <= y < img.height =>
        seq(img.width, x requires 0 <= x < img.width => if img.rows[y][x] <= t then 0 else 255)))
  }

  /** The black and white strip below the footer row at the right of the image. */
  function FooterStrip(img: GrayImage, footerRow: nat): (strip: GrayImage)
    requires img.Valid() && BAR_STRIP_WIDTH <= img.width && footerRow <= img.height
    ensures strip.Valid() && strip.width == BAR_STRIP_WIDTH && strip.height == img.height - footerRow
  {
    Threshold(Crop(img, img.width - BAR_STRIP_WIDTH, footerRow, BAR_STRIP_WIDTH, img.height - footerRow), 240)
  }

  // ---------------------------------------------------------------------------
  // The footer row
  // ---------------------------------------------------------------------------

  /** Scanning column x upward over rows y - 1 .. 0 with the last accepted
      brightness `previous`: the first row that is more than 16 brighter. Rows
      darker than `previous` are skipped, and once `previous` is above 200 every
      row is. The row found is above y, and a column with no row more than 16
      brighter than `previous` never rises: the accepted brightness only grows. */
  function ColumnRise(img: GrayImage, x: nat, y: nat, previous: int): (r: Option<nat>)
    requires img.Valid() && x < img.width && y <= img.height
    ensures r.Some? ==> r.value < y
    ensures (forall j :: 0 <= j < y ==> img.rows[j][x] <= previous + 16) ==> r.None?
    decreases y
  {
    if y == 0 then None
    else
      var brightness := img.rows[y - 1][x];
      if 200 < previous || brightness < previous then ColumnRise(img, x, y - 1, previous)
      else if 16 < brightness - previous then Some(y - 1)
      else ColumnRise(img, x, y - 1, brightness)
  }

  /** The rise of column x, scanning up from the row just above the skipped bottom
      rows; a column never more than 16 brighter than that start row has none. */
  function Rise(img: GrayImage, x: nat): (r: Option<nat>)
    requires img.Valid() && SKIP_BOTTOM_PIXELS + 1 <= img.height && x < img.width
    ensures r.Some? ==> r.value < img.height - SKIP_BOTTOM_PIXELS
    ensures (forall j :: 0 <= j < img.height - SKIP_BOTTOM_PIXELS ==>
               img.rows[j][x] <= img.rows[img.height - SKIP_BOTTOM_PIXELS - 1][x] + 16) ==> r.None?
  {
    ColumnRise(img, x, img.height - SKIP_BOTTOM_PIXELS, img.rows[img.height - SKIP_BOTTOM_PIXELS - 1][x])
  }

  /** A recorded row lies above the start row, and it is more than 16 brighter
      than the brightness the scan started from, which was at most 200: the
      accepted brightness never decreases. */
  lemma {:induction false} ColumnRiseAbove(img: GrayImage, x: nat, y: nat, previous: int)
    requires img.Valid() && x < img.width && y <= img.height
    ensures ColumnRise(img, x, y, previous).Some? ==>
              var r := ColumnRise(img, x, y, previous).value;
              r < y && previous <= 200 && previous + 16 < img.rows[r][x]
    decreases y
  {
    if y > 0 {
      var brightness := img.rows[y - 1][x];
      if 200 < previous || brightness < previous {
        ColumnRiseAbove(img, x, y - 1, previous);
      } else if 16 < brightness - previous {
      } else {
        ColumnRiseAbove(img, x, y - 1, brightness);
      }
    }
  }

  lemma RiseAbove(img: GrayImage, x: nat)
    requires img.Valid() && SKIP_BOTTOM_PIXELS + 1 <= img.height && x < img.width
    ensures Rise(img, x).Some? ==>
              var start := img.rows[img.height - SKIP_BOTTOM_PIXELS - 1][x];
              Rise(img, x).value < img.height - SKIP_BOTTOM_PIXELS - 1
              && start <= 200 && start + 16 < img.rows[Rise(img, x).value][x]
  {
    ColumnRiseAbove(img, x, img.height - SKIP_BOTTOM_PIXELS, img.rows[img.height - SKIP_BOTTOM_PIXELS - 1][x]);
  }

  /** The scan of one column, with the source's `continue` and `break`. */
  method ScanColumn(img: GrayImage, x: nat) returns (row: Option<nat>)
    requires img.Valid() && SKIP_BOTTOM_PIXELS + 1 <= img.height && x < img.width
    ensures row == Rise(img, x)
  {
    var previousBrightness := img.rows[img.height - SKIP_BOTTOM_PIXELS - 1][x];
    row := None;
    for y := img.height - SKIP_BOTTOM_PIXELS downto 0
      invariant row == None
      invariant ColumnRise(img, x, y, previousBrightness) == Rise(img, x)
    {
      var brightness := img.rows[y][x];
      if 200 < previousBrightness || brightness < previousBrightness {
        continue;
      }
      if 16 < brightness - previousBrightness {
        row := Some(y);
        break;
      }
      previousBrightness := brightness;
    }
  }

  /** How many of the columns 0 .. m - 1 rise at row y. */
  function RisingColumns(img: GrayImage, y: nat, m: nat): nat
    requires img.Valid() && SKIP_BOTTOM_PIXELS + 1 <= img.height && m <= img.width
  {
    if m == 0 then 0 else RisingColumns(img, y, m - 1) + if Rise(img, m - 1) == Some(y) then 1 else 0
  }

  /** The `heights` map after the columns 0 .. m - 1: every recorded row was
      counted at least once and at most once per column. */
  function HeightCounts(img: GrayImage, m: nat): (heights: map<nat, nat>)
    requires img.Valid() && SKIP_BOTTOM_PIXELS + 1 <= img.height && m <= img.width
    ensures forall y :: y in heights ==> 0 < heights[y] <= m
  {
    if m == 0 then map[]
    else
      var heights := HeightCounts(img, m - 1);
      match Rise(img, m - 1)
      case None => heights
      case Some(y) => heights[y := (if y in heights then heights[y] else 0) + 1]
  }

  /** The map holds, for each row at which some column rises, the number of such
      columns, and no other rows. */
  lemma {:induction false} HeightCountsCountColumns(img: GrayImage, m: nat)
    requires img.Valid() && SKIP_BOTTOM_PIXELS + 1 <= img.height && m <= img.width
    ensures forall y :: y in HeightCounts(img, m) <==> 0 < RisingColumns(img, y, m)
    ensures forall y :: y in HeightCounts(img, m) ==> HeightCounts(img, m)[y] == RisingColumns(img, y, m)
  {
    if m > 0 {
      HeightCountsCountColumns(img, m - 1);
    }
  }

  /** Every recorded row lies above the scan's start row. */
  lemma {:induction false} HeightCountsRows(img: GrayImage, m: nat)
    requires img.Valid() && SKIP_BOTTOM_PIXELS + 1 <= img.height && m <= img.width
    ensures forall y :: y in HeightCounts(img, m) ==> y < img.height - SKIP_BOTTOM_PIXELS - 1
  {
    if m > 0 {
      HeightCountsRows(img, m - 1);
      RiseAbove(img, m - 1);
    }
  }

  /** The column loop, inserting each column's rise into the map. */
  method TallyHeights(img: GrayImage) returns (heights: map<nat, nat>)
    requires img.Valid() && SKIP_BOTTOM_PIXELS + 1 <= img.height
    ensures heights == HeightCounts(img, img.width)
  {
    heights := map[];
    for x := 0 to img.width
      invariant heights == HeightCounts(img, x)
    {
      var row := ScanColumn(img, x);
      if row.Some? {
        var y := row.value;
        if y in heights {
          heights := heights[y := heights[y] + 1];
        } else {
          heights := heights[y := 1];
        }
      }
    }
  }

  /** `row` is a most frequent key with count `count`; with no positive count
      the result stays at (0, 0). */
  predicate IsMode(heights: map<nat, nat>, row: nat, count: nat)
  {
    && (forall y :: y in heights ==> heights[y] <= count)
    && (if count == 0 then row == 0 else row in heights && heights[row] == count)
  }

  /** The mode loop. The map's iteration order is unspecified, so each step
      takes any key not yet visited; on ties the first visited wins. */
  method Mode(heights: map<nat, nat>) returns (scaleBarHeight: nat, modeCount: nat)
    ensures IsMode(heights, scaleBarHeight, modeCount)
  {
    scaleBarHeight, modeCount := 0, 0;
    var unvisited := heights.Keys;
    while unvisited != {}
      invariant unvisited <= heights.Keys
      invariant forall y :: y in heights && y !in unvisited ==> heights[y] <= modeCount
      invariant if modeCount == 0 then scaleBarHeight == 0
                else scaleBarHeight in heights && heights[scaleBarHeight] == modeCount
      decreases unvisited
    {
      var y :| y in unvisited;
      if modeCount < heights[y] {
        scaleBarHeight := y;
        modeCount := heights[y];
      }
      unvisited := unvisited - {y};
    }
  }

  /** The footer row: a row at which the largest number of columns rise, or 0
      when no column rises. */
  ghost predicate IsFooterRow(img: GrayImage, row: nat)
    requires img.Valid() && SKIP_BOTTOM_PIXELS + 1 <= img.height
  {
    if forall x :: 0 <= x < img.width ==> Rise(img, x).None? then row == 0
    else
      && 0 < RisingColumns(img, row, img.width)
      && forall y :: RisingColumns(img, y, img.width) <= RisingColumns(img, row, img.width)
  }

  /** The mode of the tally is the footer row, and it lies above the skipped rows. */
  lemma ModeIsFooterRow(img: GrayImage, row: nat, count: nat)
    requires img.Valid() && SKIP_BOTTOM_PIXELS + 1 <= img.height
    requires IsMode(HeightCounts(img, img.width), row, count)
    ensures IsFooterRow(img, row)
    ensures row < img.height - SKIP_BOTTOM_PIXELS
  {
    var heights := HeightCounts(img, img.width);
    HeightCountsCountColumns(img, img.width);
    HeightCountsRows(img, img.width);
    if forall x :: 0 <= x < img.width ==> Rise(img, x).None? {
      NoRiseNoColumns(img, img.width);
      assert forall y :: y !in heights;
    } else {
      var x :| 0 <= x < img.width && Rise(img, x).Some?;
      var y := Rise(img, x).value;
      RisingColumnsCounts(img, y, x, img.width);
      assert y in heights;
      forall z ensures RisingColumns(img, z, img.width) <= RisingColumns(img, row, img.width) {
        if z in heights {
          assert heights[z] <= count;
        }
      }
    }
  }

  lemma {:induction false} NoRiseNoColumns(img: GrayImage, m: nat)
    requires img.Valid() && SKIP_BOTTOM_PIXELS + 1 <= img.height && m <= img.width
    requires forall x :: 0 <= x < m ==> Rise(img, x).None?
    ensures forall y :: RisingColumns(img, y, m) == 0
  {
    if m > 0 {
      NoRiseNoColumns(img, m - 1);
    }
  }

  lemma {:induction false} RisingColumnsCounts(img: GrayImage, y: nat, x: nat, m: nat)
    requires img.Valid() && SKIP_BOTTOM_PIXELS + 1 <= img.height && x < m <= img.width
    requires Rise(img, x) == Some(y)
    ensures 0 < RisingColumns(img, y, m)
  {
    if x < m - 1 {
      RisingColumnsCounts(img, y, x, m - 1);
    }
  }

  // ---------------------------------------------------------------------------
  // The extreme lines of the scale bar
  // ---------------------------------------------------------------------------

  /** A closed horizontal run of contour points, its ends ordered by x. */
  datatype Run = Run(lo: Point, hi: Point)

  /** A line: its extreme x, its other x and its row. */
  datatype Line = Line(extreme: nat, other: nat, y: nat)

  /** The leftmost and the rightmost accepted line. */
  datatype Extremes = Extremes(minimumLine: Line, maximumLine: Line)

  /** Neither line found yet. */
  const NoLines: Extremes := Extremes(Line(U32_MAX, 0, 0), Line(0, 0, 0))

  /** The ends of a run, left end first (on equal x the end comes first). */
  function Ordered(start: Point, end: Point): (r: Run)
    ensures r.lo.x <= r.hi.x
    ensures (r.lo == start && r.hi == end) || (r.lo == end && r.hi == start)
  {
    if start.x < end.x then Run(start, end) else Run(end, start)
  }

  /** The runs closed while walking `points` with the open run from `start` to
      `end`: a point on the run's row extends it, a point on another row closes
      it and opens a new one. The last open run is never closed. */
  function Runs(points: seq<Point>, start: Point, end: Point): (runs: seq<Run>)
    requires start.y == end.y
    ensures |runs| <= |points|
    ensures forall i :: 0 <= i < |runs| ==> runs[i].lo.y == runs[i].hi.y && runs[i].lo.x <= runs[i].hi.x
    decreases |points|
  {
    if points == [] then []
    else if points[0].y == start.y then Runs(points[1..], start, points[0])
    else [Ordered(start, end)] + Runs(points[1..], points[0], points[0])
  }

  function ContourRuns(c: Contour): seq<Run>
    requires 0 < |c.points|
  {
    Runs(c.points, c.points[0], c.points[0])
  }

  /** The closed runs of all contours, in order. */
  function AllRuns(contours: seq<Contour>): seq<Run>
    requires AllNonEmpty(contours)
  {
    if contours == [] then [] else ContourRuns(contours[0]) + AllRuns(contours[1..])
  }

  /** A run long enough to be part of the scale bar. */
  predicate Accepted(r: Run)
  {
    MIN_LINE_LENGTH <= r.hi.x - r.lo.x
  }

  /** No run is long enough. */
  predicate NoneAccepted(runs: seq<Run>)
  {
    forall i :: 0 <= i < |runs| ==> !Accepted(runs[i])
  }

  /** The lines after closing run r: a long enough run replaces the leftmost line
      if it starts further left and the rightmost line if it ends further right.
      The leftmost start never moves right, the rightmost end never moves left, and
      an accepted run lies between the two afterwards. */
  function Record(e: Extremes, r: Run): (f: Extremes)
    ensures f.minimumLine.extreme <= e.minimumLine.extreme && e.maximumLine.extreme <= f.maximumLine.extreme
    ensures Accepted(r) ==> f.minimumLine.extreme <= r.lo.x && r.hi.x <= f.maximumLine.extreme
    ensures !Accepted(r) ==> f == e
  {
    if !Accepted(r) then e
    else
      Extremes(
        if r.lo.x < e.minimumLine.extreme then Line(r.lo.x, r.hi.x, r.lo.y) else e.minimumLine,
        if r.hi.x > e.maximumLine.extreme then Line(r.hi.x, r.lo.x, r.hi.y) else e.maximumLine)
  }

  /** The lines after closing every run in order; runs none of which is long
      enough leave them as they were. */
  function RecordAll(e: Extremes, runs: seq<Run>): (f: Extremes)
    ensures f.minimumLine.extreme <= e.minimumLine.extreme && e.maximumLine.extreme <= f.maximumLine.extreme
    ensures NoneAccepted(runs) ==> f == e
    decreases |runs|
  {
    if runs == [] then e else RecordAll(Record(e, runs[0]), runs[1..])
  }

  /** The lines found in the contours of the footer strip; without a long enough
      run they are the starting sentinels. */
  function Survey(contours: seq<Contour>): (e: Extremes)
    requires AllNonEmpty(contours)
    ensures e.minimumLine.extreme <= U32_MAX
    ensures NoneAccepted(AllRuns(contours)) ==> e == NoLines
  {
    RecordAll(NoLines, AllRuns(contours))
  }

  lemma {:induction false} RecordAllConcat(e: Extremes, a: seq<Run>, b: seq<Run>)
    ensures RecordAll(e, a + b) == RecordAll(RecordAll(e, a), b)
    decreases |a|
  {
    if a == [] {
      assert a + b == b;
    } else {
      assert (a + b)[0] == a[0];
      assert (a + b)[1..] == a[1..] + b;
      RecordAllConcat(Record(e, a[0]), a[1..], b);
      assert RecordAll(e, a) == RecordAll(Record(e, a[0]), a[1..]);
      assert RecordAll(e, a + b) == RecordAll(Record(e, a[0]), a[1..] + b);
    }
  }

  /** The leftmost line is the accepted run starting furthest left (or the
      starting line), the rightmost the accepted run ending furthest right. */
  lemma {:induction false} RecordAllExtremes(e: Extremes, runs: seq<Run>)
    ensures var f := RecordAll(e, runs);
            && f.minimumLine.extreme <= e.minimumLine.extreme
            && e.maximumLine.extreme <= f.maximumLine.extreme
            && (forall i :: 0 <= i < |runs| && Accepted(runs[i]) ==>
                  f.minimumLine.extreme <= runs[i].lo.x && runs[i].hi.x <= f.maximumLine.extreme)
            && (f.minimumLine == e.minimumLine ||
                exists i :: 0 <= i < |runs| && Accepted(runs[i]) && f.minimumLine == Line(runs[i].lo.x, runs[i].hi.x, runs[i].lo.y))
            && (f.maximumLine == e.maximumLine ||
                exists i :: 0 <= i < |runs| && Accepted(runs[i]) && f.maximumLine == Line(runs[i].hi.x, runs[i].lo.x, runs[i].hi.y))
    decreases |runs|
  {
    if runs != [] {
      var e' := Record(e, runs[0]);
      var rest := runs[1..];
      RecordAllExtremes(e', rest);
      var f := RecordAll(e, runs);
      assert f == RecordAll(e', rest);
      forall i | 0 <= i < |runs| && Accepted(runs[i])
        ensures f.minimumLine.extreme <= runs[i].lo.x && runs[i].hi.x <= f.maximumLine.extreme
      {
        if i > 0 {
          assert runs[i] == rest[i - 1];
        }
      }
      if f.minimumLine != e.minimumLine {
        if f.minimumLine == e'.minimumLine {
          assert f.minimumLine == Line(runs[0].lo.x, runs[0].hi.x, runs[0].lo.y);
        } else {
          var j :| 0 <= j < |rest| && Accepted(rest[j]) && f.minimumLine == Line(rest[j].lo.x, rest[j].hi.x, rest[j].lo.y);
          assert runs[j + 1] == rest[j];
        }
      }
      if f.maximumLine != e.maximumLine {
        if f.maximumLine == e'.maximumLine {
          assert f.maximumLine == Line(runs[0].hi.x, runs[0].lo.x, runs[0].hi.y);
        } else {
          var j :| 0 <= j < |rest| && Accepted(rest[j]) && f.maximumLine == Line(rest[j].hi.x, rest[j].lo.x, rest[j].hi.y);
          assert runs[j + 1] == rest[j];
        }
      }
    }
  }

  /** Every point of the contours has an x no larger than `bound`. */
  predicate XWithin(contours: seq<Contour>, bound: nat)
  {
    forall i, k :: 0 <= i < |contours| && 0 <= k < |contours[i].points| ==> contours[i].points[k].x <= bound
  }

  lemma {:induction false} RunsWithin(points: seq<Point>, start: Point, end: Point, bound: nat)
    requires start.y == end.y && start.x <= bound && end.x <= bound
    requires forall k :: 0 <= k < |points| ==> points[k].x <= bound
    ensures forall i :: 0 <= i < |Runs(points, start, end)| ==> Runs(points, start, end)[i].hi.x <= bound
    decreases |points|
  {
    if points != [] {
      if points[0].y == start.y {
        RunsWithin(points[1..], start, points[0], bound);
      } else {
        RunsWithin(points[1..], points[0], points[0], bound);
      }
    }
  }

  lemma {:induction false} AllRunsWithin(contours: seq<Contour>, bound: nat)
    requires AllNonEmpty(contours) && XWithin(contours, bound)
    ensures forall i :: 0 <= i < |AllRuns(contours)| ==> AllRuns(contours)[i].hi.x <= bound
  {
    if contours != [] {
      var c := contours[0];
      RunsWithin(c.points, c.points[0], c.points[0], bound);
      assert XWithin(contours[1..], bound) by {
        forall i, k | 0 <= i < |contours[1..]| && 0 <= k < |contours[1..][i].points|
          ensures contours[1..][i].points[k].x <= bound
        {
          assert contours[1..][i] == contours[i + 1];
        }
      }
      AllRunsWithin(contours[1..], bound);
    }
  }

  /** With coordinates below `u32::MAX`: no line is found exactly when no run is
      accepted, and otherwise the rightmost line ends at least 16 pixels right of
      where the leftmost line starts, so the pixel distance is positive. */
  lemma SurveyOutcome(contours: seq<Contour>)
    requires AllNonEmpty(contours) && XWithin(contours, U32_MAX)
    ensures (Survey(contours).minimumLine.extreme == U32_MAX || Survey(contours).maximumLine.extreme == 0)
            <==> NoneAccepted(AllRuns(contours))
    ensures !NoneAccepted(AllRuns(contours)) ==>
              Survey(contours).minimumLine.extreme + MIN_LINE_LENGTH <= Survey(contours).maximumLine.extreme
  {
    var runs := AllRuns(contours);
    AllRunsWithin(contours, U32_MAX);
    RecordAllExtremes(NoLines, runs);
    var e := Survey(contours);
    if exists i :: 0 <= i < |runs| && Accepted(runs[i]) {
      var i :| 0 <= i < |runs| && Accepted(runs[i]);
      assert runs[i].hi.x <= U32_MAX;
      assert e.minimumLine.extreme <= runs[i].lo.x && runs[i].hi.x <= e.maximumLine.extreme;
      assert e.minimumLine.extreme + MIN_LINE_LENGTH <= e.maximumLine.extreme;
      assert e.minimumLine.extreme != U32_MAX && e.maximumLine.extreme != 0;
    } else {
      assert e.minimumLine == NoLines.minimumLine;
    }
  }

  /** The walk over one contour's points: `line_start` and `line_end` delimit
      the open run, and each closed run that is long enough may replace either
      extreme line. */
  method ScanContour(points: seq<Point>, minimumLine0: Line, maximumLine0: Line)
    returns (minimumLine: Line, maximumLine: Line)
    requires 0 < |points|
    ensures Extremes(minimumLine, maximumLine)
         == RecordAll(Extremes(minimumLine0, maximumLine0), Runs(points, points[0], points[0]))
  {
    minimumLine, maximumLine := minimumLine0, maximumLine0;
    var lineStart, lineEnd := points[0], points[0];
    assert points[0..] == points;
    for i := 0 to |points|
      invariant lineStart.y == lineEnd.y
      invariant RecordAll(Extremes(minimumLine, maximumLine), Runs(points[i..], lineStart, lineEnd))
             == RecordAll(Extremes(minimumLine0, maximumLine0), Runs(points, points[0], points[0]))
    {
      var point := points[i];
      assert points[i..][1..] == points[i + 1..];
      if point.y == lineStart.y {
        lineEnd := point;
      } else {
        var minimumPoint, maximumPoint := lineStart, lineEnd;
        if !(lineStart.x < lineEnd.x) {
          minimumPoint, maximumPoint := lineEnd, lineStart;
        }
        if maximumPoint.x - minimumPoint.x < MIN_LINE_LENGTH {
          lineStart := point;
          lineEnd := point;
          continue;
        }
        if minimumPoint.x < minimumLine.extreme {
          minimumLine := Line(minimumPoint.x, maximumPoint.x, minimumPoint.y);
        }
        if maximumPoint.x > maximumLine.extreme {
          maximumLine := Line(maximumPoint.x, minimumPoint.x, maximumPoint.y);
        }
        lineEnd := point;
        lineStart := point;
      }
    }
  }

  /** The loop over the contours of the footer strip. */
  method ExtremeLines(contours: seq<Contour>) returns (minimumLine: Line, maximumLine: Line)
    requires AllNonEmpty(contours)
    ensures Extremes(minimumLine, maximumLine) == Survey(contours)
  {
    minimumLine, maximumLine := Line(U32_MAX, 0, 0), Line(0, 0, 0);
    assert contours[0..] == contours;
    for n := 0 to |contours|
      invariant RecordAll(Extremes(minimumLine, maximumLine), AllRuns(contours[n..])) == Survey(contours)
    {
      ghost var before := Extremes(minimumLine, maximumLine);
      minimumLine, maximumLine := ScanContour(contours[n].points, minimumLine, maximumLine);
      assert contours[n..][1..] == contours[n + 1..];
      assert AllRuns(contours[n..]) == ContourRuns(contours[n]) + AllRuns(contours[n + 1..]);
      RecordAllConcat(before, ContourRuns(contours[n]), AllRuns(contours[n + 1..]));
    }
  }

  // ---------------------------------------------------------------------------
  // The printed length
  // ---------------------------------------------------------------------------

  /** `char::is_whitespace`: the Unicode White_Space characters; no digit, no
      decimal point and no letter of "um" is one. */
  predicate IsWhitespace(c: char)
    ensures IsWhitespace(c) ==> !('0' <= c <= '9') && c != '.' && c != 'u' && c != 'm'
    ensures c == ' ' || c == '\t' || c == '\n' || c == '\r' ==> IsWhitespace(c)
  {
    || ('\t' <= c <= '\r') || c == ' ' || c == '\U{85}' || c == '\U{A0}' || c == '\U{1680}'
    || ('\U{2000}' <= c <= '\U{200A}') || c == '\U{2028}' || c == '\U{2029}' || c == '\U{202F}'
    || c == '\U{205F}' || c == '\U{3000}'
  }

  /** `str::trim_start`: the suffix left after dropping leading whitespace. */
  function TrimStart(s: string): (r: string)
    ensures |r| <= |s| && r == s[|s| - |r|..]
    ensures forall i :: 0 <= i < |s| - |r| ==> IsWhitespace(s[i])
    ensures r != [] ==> !IsWhitespace(r[0])
  {
    if s != [] && IsWhitespace(s[0]) then TrimStart(s[1..]) else s
  }

  /** `str::trim_end`: the prefix left after dropping trailing whitespace. */
  function TrimEnd(s: string): (r: string)
    ensures |r| <= |s| && r == s[..|r|]
    ensures forall i :: |r| <= i < |s| ==> IsWhitespace(s[i])
    ensures r != [] ==> !IsWhitespace(r[|r| - 1])
  {
    if s != [] && IsWhitespace(s[|s| - 1]) then TrimEnd(s[..|s| - 1]) else s
  }

  /** `str::trim`: what is left is empty or trimmed, and it is empty exactly when
      s is all whitespace. */
  function Trim(s: string): (t: string)
    ensures |t| <= |s|
    ensures t == [] || Trimmed(t)
    ensures t == [] <==> AllWhitespace(s)
  {
    var u := TrimStart(s);
    var t := TrimEnd(u);
    assert t != [] ==> t[0] == u[0];
    assert u != [] ==> !AllWhitespace(s) by {
      if u != [] {
        assert s[|s| - |u|] == u[0];
      }
    }
    t
  }

  /** Neither end of t is whitespace. */
  predicate Trimmed(t: string)
  {
    t != [] && !IsWhitespace(t[0]) && !IsWhitespace(t[|t| - 1])
  }

  predicate AllWhitespace(w: string)
  {
    forall i :: 0 <= i < |w| ==> IsWhitespace(w[i])
  }

  lemma {:induction false} TrimStartPadding(lead: string, rest: string)
    requires AllWhitespace(lead) && rest != [] && !IsWhitespace(rest[0])
    ensures TrimStart(lead + rest) == rest
  {
    if lead != [] {
      assert (lead + rest)[1..] == lead[1..] + rest;
      TrimStartPadding(lead[1..], rest);
    } else {
      assert lead + rest == rest;
    }
  }

  lemma {:induction false} TrimEndPadding(rest: string, trail: string)
    requires AllWhitespace(trail) && rest != [] && !IsWhitespace(rest[|rest| - 1])
    ensures TrimEnd(rest + trail) == rest
  {
    if trail != [] {
      assert (rest + trail)[..|rest + trail| - 1] == rest + trail[..|trail| - 1];
      TrimEndPadding(rest, trail[..|trail| - 1]);
    } else {
      assert rest + trail == rest;
    }
  }

  /** Trimming removes exactly the whitespace around a trimmed text. */
  lemma TrimPadding(lead: string, t: string, trail: string)
    requires AllWhitespace(lead) && AllWhitespace(trail) && Trimmed(t)
    ensures Trim(lead + t + trail) == t
  {
    assert lead + t + trail == lead + (t + trail);
    TrimStartPadding(lead, t + trail);
    TrimEndPadding(t, trail);
  }

  /** A string ending in `suffix` determines what precedes it. */
  lemma SuffixSplit(s: string, suffix: string)
    ensures forall d :: d + suffix == s ==>
              |suffix| <= |s| && s[|s| - |suffix|..] == suffix && d == s[..|s| - |suffix|]
  {
    forall d | d + suffix == s
      ensures |suffix| <= |s| && s[|s| - |suffix|..] == suffix && d == s[..|s| - |suffix|]
    {
      assert s[|d|..] == suffix;
      assert s[..|d|] == d;
    }
  }

  /** `s.strip_suffix(suffix)`: the unique d with d + suffix == s, if any. */
  function StripSuffix(s: string, suffix: string): (r: Option<string>)
    ensures r.Some? ==> r.value + suffix == s
    ensures r.None? ==> forall d :: d + suffix != s
  {
    SuffixSplit(s, suffix);
    if |suffix| <= |s| && s[|s| - |suffix|..] == suffix then
      assert s[..|s| - |suffix|] + suffix == s;
      Some(s[..|s| - |suffix|])
    else None
  }

  /** The OCR text must be a number followed by "um", with whitespace allowed
      around both; anything else is reported with the text as read. */
  function ReadMicrometers(text: string, parse: string -> Option<real>): (r: Result<real>)
    ensures r.Err? ==> r.error == FailedToDetectText(text)
  {
    match StripSuffix(Trim(text), "um")
    case None => Err(FailedToDetectText(text))
    case Some(digits) =>
      match parse(Trim(digits))
      case None => Err(FailedToDetectText(text))
      case Some(distance) => Ok(distance)
  }

  /** A text read as v is, trimmed, some digits followed by "um" whose trimmed
      form parses as v. */
  lemma ReadMicrometersSound(text: string, parse: string -> Option<real>)
    ensures ReadMicrometers(text, parse).Ok? ==>
              exists digits :: Trim(text) == digits + "um" && parse(Trim(digits)) == Some(ReadMicrometers(text, parse).value)
  {
    if ReadMicrometers(text, parse).Ok? {
      var digits := StripSuffix(Trim(text), "um").value;
      assert Trim(text) == digits + "um" && parse(Trim(digits)) == Some(ReadMicrometers(text, parse).value);
    }
  }

  /** Conversely, such a text is read as v. */
  lemma ReadMicrometersComplete(text: string, digits: string, parse: string -> Option<real>, v: real)
    requires Trim(text) == digits + "um" && parse(Trim(digits)) == Some(v)
    ensures ReadMicrometers(text, parse) == Ok(v)
  {
    SuffixSplit(Trim(text), "um");
    assert StripSuffix(Trim(text), "um") == Some(digits);
  }

  /** A number surrounded by whitespace and followed by "um" is read as that number. */
  lemma ReadsPaddedNumber(lead: string, number: string, gap: string, trail: string,
                          parse: string -> Option<real>, value: real)
    requires AllWhitespace(lead) && AllWhitespace(gap) && AllWhitespace(trail) && Trimmed(number)
    requires parse(number) == Some(value)
    ensures ReadMicrometers(lead + number + gap + "um" + trail, parse) == Ok(value)
  {
    var text := lead + number + gap + "um" + trail;
    var digits := number + gap;
    var body := digits + "um";
    assert text == lead + body + trail;
    assert Trim(text) == body by {
      SuffixedTrimmed(number, gap);
      TrimPadding(lead, body, trail);
    }
    assert Trim(digits) == number by {
      assert digits == [] + number + gap;
      TrimPadding([], number, gap);
    }
    ReadMicrometersComplete(text, digits, parse, value);
  }

  lemma SuffixedTrimmed(number: string, gap: string)
    requires Trimmed(number)
    ensures Trimmed(number + gap + "um")
  {
    var body := number + gap + "um";
    assert body[0] == number[0];
    assert body[|body| - 1] == 'm';
  }

  // ---------------------------------------------------------------------------
  // determine_scale
  // ---------------------------------------------------------------------------

  /** What the (external) contour tracer is relied on for: contours are
      non-empty and their points lie inside the traced image. */
  ghost predicate TracerLaw(findContours: GrayImage -> seq<Contour>)
  {
    forall g: GrayImage :: AllNonEmpty(findContours(g)) && XWithin(findContours(g), g.width)
  }

  /** The scale read from the contours of the bar strip: the extreme lines of
      the bar, their validation and the printed length. */
  function ScaleFromContours(contours: seq<Contour>, text: string, parse: string -> Option<real>,
                             barHeight: nat, imageWithoutText: GrayImage): (r: Result<Scale>)
    requires AllNonEmpty(contours) && XWithin(contours, U32_MAX)
    ensures r.Ok? ==> && MIN_LINE_LENGTH <= r.value.pixels
                      && r.value.micrometersPerPixel == Some(r.value.micrometers / r.value.pixels as real)
                      && r.value.barHeight == barHeight
                      && r.value.imageWithoutText == imageWithoutText
  {
    var e := Survey(contours);
    if e.minimumLine.extreme == U32_MAX || e.maximumLine.extreme == 0 then Err(LessThenTwoApplicableLinesFound)
    else if AbsDiff(e.maximumLine.extreme, e.minimumLine.extreme) < AbsDiff(e.maximumLine.y, e.minimumLine.y) * 20 then
      Err(ExtremeLineIsNonHorizontal)
    else
      SurveyOutcome(contours);
      var pixelDistance := e.maximumLine.extreme - e.minimumLine.extreme;
      match ReadMicrometers(text, parse)
      case Err(error) => Err(error)
      case Ok(micrometers) =>
        Ok(Scale(Quotient(micrometers, pixelDistance), micrometers, pixelDistance, barHeight, imageWithoutText))
  }

  /** The scale read from the footer that starts at `footerRow`. */
  function ScaleFromFooter(img: GrayImage, footerRow: nat, findContours: GrayImage -> seq<Contour>,
                           text: string, parse: string -> Option<real>): (r: Result<Scale>)
    requires img.Valid() && BAR_STRIP_WIDTH <= img.width && footerRow <= img.height
    requires TracerLaw(findContours)
    ensures r.Ok? ==> && MIN_LINE_LENGTH <= r.value.pixels
                      && r.value.micrometersPerPixel == Some(r.value.micrometers / r.value.pixels as real)
                      && r.value.barHeight == img.height - footerRow
                      && r.value.imageWithoutText == Crop(img, 0, 0, img.width, footerRow)
  {
    var contours := findContours(FooterStrip(img, footerRow));
    assert XWithin(contours, U32_MAX);
    ScaleFromContours(contours, text, parse, img.height - footerRow, Crop(img, 0, 0, img.width, footerRow))
  }

  /** The two line errors: no line at all when no run of the strip is accepted,
      and a non-horizontal bar when the extreme lines differ in row by more than
      a twentieth of their horizontal distance. */
  lemma LineErrors(img: GrayImage, footerRow: nat, findContours: GrayImage -> seq<Contour>,
                   text: string, parse: string -> Option<real>)
    requires img.Valid() && BAR_STRIP_WIDTH <= img.width && footerRow <= img.height
    requires TracerLaw(findContours)
    ensures var contours := findContours(FooterStrip(img, footerRow));
            var runs := AllRuns(contours);
            var e := Survey(contours);
            var r := ScaleFromFooter(img, footerRow, findContours, text, parse);
            && (r == Err(LessThenTwoApplicableLinesFound) <==> NoneAccepted(runs))
            && (r == Err(ExtremeLineIsNonHorizontal) <==>
                  && !NoneAccepted(runs)
                  && e.maximumLine.extreme - e.minimumLine.extreme < 20 * AbsDiff(e.maximumLine.y, e.minimumLine.y))
  {
    var contours := findContours(FooterStrip(img, footerRow));
    assert XWithin(contours, U32_MAX);
    SurveyOutcome(contours);
  }

  /** `determine_scale`. The footer scan's map order is unspecified, so the
      footer row is returned alongside and characterised rather than fixed. */
  method DetermineScale(img: GrayImage, config: TextRecognition, findContours: GrayImage -> seq<Contour>,
                        text: string, parse: string -> Option<real>)
    returns (r: Result<Scale>, footerRow: nat)
    requires img.Valid()
    requires config.overrideScale ==> config.scaleBarHeight <= img.height
    requires !config.overrideScale ==>
               SKIP_BOTTOM_PIXELS + 1 <= img.height && BAR_STRIP_WIDTH <= img.width && TracerLaw(findContours)
    ensures config.overrideScale ==>
              && footerRow == img.height - config.scaleBarHeight
              && r == Ok(Scale(Quotient(config.overrideScaleMicrometers, config.overrideScalePixels),
                               config.overrideScaleMicrometers, config.overrideScalePixels,
                               config.scaleBarHeight, Crop(img, 0, 0, img.width, footerRow)))
    ensures !config.overrideScale ==>
              && IsFooterRow(img, footerRow)
              && footerRow < img.height - SKIP_BOTTOM_PIXELS
              && r == ScaleFromFooter(img, footerRow, findContours, text, parse)
  {
    var scaleBarHeight: nat;
    if config.overrideScale {
      scaleBarHeight := img.height - config.scaleBarHeight;
    } else {
      var heights := TallyHeights(img);
      var modeCount;
      scaleBarHeight, modeCount := Mode(heights);
      ModeIsFooterRow(img, scaleBarHeight, modeCount);
    }
    footerRow := scaleBarHeight;
    var imageWithoutText := Crop(img, 0, 0, img.width, scaleBarHeight);
    if config.overrideScale {
      r := Ok(Scale(Quotient(config.overrideScaleMicrometers, config.overrideScalePixels),
                    config.overrideScaleMicrometers, config.overrideScalePixels,
                    config.scaleBarHeight, imageWithoutText));
      return;
    }
    r := ReadFooter(img, scaleBarHeight, imageWithoutText, findContours, text, parse);
  }

  /** The part of `determine_scale` after the footer row is known. */
  method ReadFooter(img: GrayImage, scaleBarHeight: nat, imageWithoutText: GrayImage,
                    findContours: GrayImage -> seq<Contour>, text: string, parse: string -> Option<real>)
    returns (r: Result<Scale>)
    requires img.Valid() && BAR_STRIP_WIDTH <= img.width && scaleBarHeight <= img.height
    requires TracerLaw(findContours)
    requires imageWithoutText == Crop(img, 0, 0, img.width, scaleBarHeight)
    ensures r == ScaleFromFooter(img, scaleBarHeight, findContours, text, parse)
  {
    var contours := findContours(FooterStrip(img, scaleBarHeight));
    assert XWithin(contours, U32_MAX);
    r := ReadLines(contours, text, parse, img.height - scaleBarHeight, imageWithoutText);
  }

  /** The extreme lines, their validation and the reading of the printed length. */
  method ReadLines(contours: seq<Contour>, text: string, parse: string -> Option<real>,
                   barHeight: nat, imageWithoutText: GrayImage)
    returns (r: Result<Scale>)
    requires AllNonEmpty(contours) && XWithin(contours, U32_MAX)
    ensures r == ScaleFromContours(contours, text, parse, barHeight, imageWithoutText)
  {
    var minimumLine, maximumLine := ExtremeLines(contours);
    SurveyOutcome(contours);
    ghost var expected := ScaleFromContours(contours, text, parse, barHeight, imageWithoutText);
    if minimumLine.extreme == U32_MAX || maximumLine.extreme == 0 {
      return Err(LessThenTwoApplicableLinesFound);
    }
    if AbsDiff(maximumLine.extreme, minimumLine.extreme) < AbsDiff(maximumLine.y, minimumLine.y) * 20 {
      return Err(ExtremeLineIsNonHorizontal);
    }
    var pixelDistance := maximumLine.extreme - minimumLine.extreme;
    var micrometerDistance := ReadMicrometers(text, parse);
    if micrometerDistance.Err? {
      return Err(micrometerDistance.error);
    }
    r := Ok(Scale(Quotient(micrometerDistance.value, pixelDistance), micrometerDistance.value, pixelDistance,
                  barHeight, imageWithoutText));
    assert expected.Ok? && expected.value.micrometers == micrometerDistance.value;
    assert expected.value.pixels == pixelDistance;
  }
}
