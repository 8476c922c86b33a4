# Bacterial exclusion prediction — verified model of the image-analysis core

This project models the four analysis stages of the bacterial-exclusion
predictor, which works on microscope images of graphene. Each stage is proved
against a specification written in Dafny.

- **Scale bar** (`text_recognition.dfy`, module `ScaleBar`). `determine_scale`
  finds the footer row where the image's text bar starts. It does this by
  tallying, per column, the first row, going up, that is more than 16 brighter
  than the last row not skipped. Rows darker than that one are skipped, and
  every row is once it exceeds 200. The footer row is the most frequent such
  row.
  - It crops the 650-pixel-wide bar strip and thresholds it at 240.
  - It walks each contour of the strip into horizontal runs. It keeps the
    leftmost and the rightmost run that is at least 16 pixels long.
  - It rejects a bar with no such run, or one that is not horizontal enough.
  - It reads the printed length as a number followed by `um`, with whitespace
    allowed around both.
  - With `override_scale`, the configured values are returned instead.
- **Contrast detector and area filter** (`helpers.dfy`, module `Helpers`).
  - `absolute_contrast_threshold` averages the absolute difference of the 8
    opposite neighbour pairs around each pixel, with neighbours clamped at the
    border. It thresholds that average into a 0/255 mask and stores it rounded.
  - `filter_by_minimum_area` keeps the contours whose rounded shoelace area
    exceeds the minimum.
- **Bacteria exclusion** (`bacteria_exclusion.dfy`, module `Exclusion`).
  - A radius below one pixel is rejected.
  - The zone is every pixel whose squared distance to the nearest edge is below
    the radius. The ratio is the zone's share of the image.
  - Optionally the ratio is re-weighted by rings around the optical centre
    `(width, height / 2)`. Only pixels strictly inside the field-of-view hull
    count. Ring `d` has weight `d² − (d − 1)²`, and the result is normalised
    by `(width − 1)²`.
- **Graphene angles** (`graphene_angles.dfy`, module `Flakes`). For each outer
  contour, the body of the loop over contours:
  - samples every fifth point;
  - finds the first farthest pair of samples;
  - drops flakes shorter than `min_graphene_size`;
  - finds the sample farthest from the long axis, and drops flakes whose length
    over that extent is below `min_graphene_ratio`;
  - reports the flake's centre, its length in µm, and the angle of the axis's
    normal, folded into (−π/2, π/2].

`common.dfy` (module `Imaging`) holds the shared entities: points, contours,
grayscale images as row-major values, the error kinds, `Result` and `Option`.

Mutated buffers are Dafny arrays. Allocated images are `array2<int>`, indexed
`[y, x]`, and the radius buckets are an `array<Bucket>`. Each method that fills
one is proved equal to a specification function of its inputs. The properties
are then proved about that function.

## Model

| member | source | states |
|---|---|---|
| Helpers.Clamp | src/algorithms/helpers.rs:70-71 | the clamped neighbour coordinate lies in the image and equals the unclamped one whenever that is inside |
| Helpers.Directional | src/algorithms/helpers.rs:67-86 | the absolute difference between a clamped neighbour and its clamped opposite is a byte value |
| Helpers.RoundedEighth | src/algorithms/helpers.rs:94-105 | the stored contrast is the nearest integer to the sum over 8, halves rounded up |
| Helpers.PairsCountedTwice | src/algorithms/helpers.rs:56-57 | each opposite pair is visited from both sides, so the summed difference is twice the sum over the four unordered pairs |
| Helpers.ContrastSumBound | src/algorithms/helpers.rs:93-94 | the average of the 8 differences stays within a byte, and so does its rounding |
| Helpers.ColumnOffsets | src/algorithms/helpers.rs:61-90 | the inner loop adds the differences of the three row offsets of a column, skips the centre, and counts 2 or 3 offsets |
| Helpers.PixelContrast | src/algorithms/helpers.rs:58-91 | the two loops visit exactly the 8 offsets around the pixel and sum their differences |
| Helpers.AbsoluteContrastThreshold | src/algorithms/helpers.rs:52-109 | both fresh images have the input's size; every mask pixel is 255 iff the threshold is below the average difference, else 0; every contrast pixel is the rounded average, at most 255 |
| Helpers.ClassifyRow | src/algorithms/helpers.rs:55-106 | fills one row of both images with the mask and rounded-contrast values and leaves every other row unchanged |
| Helpers.MaskValue | src/algorithms/helpers.rs:94-102 | the mask pixel is 0 or 255, and 255 exactly when the threshold is below the average difference |
| Helpers.RoundedHalf | src/algorithms/helpers.rs:23-26 | the rounded area is the nearest integer to abs(A)/2, halves rounded away from zero |
| Helpers.ShoelaceSum | src/algorithms/helpers.rs:12-22 | twice the signed area with the closing edge from the last point to the first; a contour of one or two points encloses nothing |
| Helpers.ContourArea | src/algorithms/helpers.rs:22-25 | the rounded area is the nearest integer to half the absolute shoelace sum, halves rounded up, and is 0 for fewer than three points |
| Helpers.ShoelaceLoop | src/algorithms/helpers.rs:14-21 | the loop that starts from the last point accumulates the closed shoelace sum, closing edge included |
| Helpers.KeepsContour | src/algorithms/helpers.rs:12-27 | the retain closure keeps a contour iff the minimum area is below its rounded shoelace area |
| Helpers.Keeps | src/algorithms/helpers.rs:25-26 | a kept contour has at least three points |
| Helpers.FilterByMinimumArea | src/algorithms/helpers.rs:8-27 | `retain` leaves exactly the input contours whose area passes the test, in their original order |
| Helpers.Kept | src/algorithms/helpers.rs:12-27 | the retained contours are among the input, no more of them, each with at least three points |
| Helpers.KeptMembers | src/algorithms/helpers.rs:12-27 | a contour survives iff it was an input contour that passes the area test |
| Helpers.KeptIsSubsequence | src/algorithms/helpers.rs:12 | retain yields an order-preserving subsequence of its input, never longer |
| Helpers.KeptNonEmpty | src/algorithms/helpers.rs:15 | every surviving contour still has a last point |
| Helpers.KeptComposes | src/algorithms/helpers.rs:26 | filtering with a larger minimum after a smaller one equals filtering with the larger one; the filter is idempotent |
| Helpers.KeptMonotone | src/algorithms/helpers.rs:26 | raising the minimum area keeps a subsequence of what a lower minimum keeps |
| Helpers.EdgeTermAntisymmetric | src/algorithms/helpers.rs:17-18 | traversing an edge backwards negates its shoelace term |
| Helpers.OpenSumConcat | src/algorithms/helpers.rs:16-21 | the shoelace sum of a concatenation is the two sums plus the joining edge |
| Helpers.RotationPreservesShoelace | src/algorithms/helpers.rs:14-21 | starting the walk at any other point of the contour gives the same shoelace sum |
| Helpers.ReversalNegatesShoelace | src/algorithms/helpers.rs:14-23 | walking the contour in the opposite direction negates the signed area, which the absolute value then removes |
| Helpers.KeepInvariantUnderRotationAndReversal | src/algorithms/helpers.rs:12-27 | the keep decision depends neither on the tracer's start point nor on its direction |
| Exclusion.SinglePixelField | src/algorithms/bacteria_exclusion.rs:56 | for a mask with one edge pixel, the squared distance transform is the squared distance to that pixel |
| Exclusion.NearCountBound | src/algorithms/bacteria_exclusion.rs:61-71 | the "on" count of m rows is at most m times the width |
| Exclusion.BuildZone | src/algorithms/bacteria_exclusion.rs:56-67 | the fresh zone has the image's size; each pixel is 255 iff its squared distance is below the radius, else 0; the counter is the number of "on" pixels, at most width × height |
| Exclusion.ZoneValue | src/algorithms/bacteria_exclusion.rs:63-64 | the zone pixel is 0 or 255, and 255 exactly when the squared distance is below the radius; an edge pixel is in the zone for any positive radius |
| Exclusion.EdgePixelsInZone | src/algorithms/bacteria_exclusion.rs:49-67 | with a radius of at least one pixel, every edge pixel is in the zone |
| Exclusion.ZoneUsesUnsquaredRadius | src/algorithms/bacteria_exclusion.rs:63 | the squared distance is compared with the unsquared radius: a pixel 2 away from the only edge is outside a zone of radius 3 |
| Exclusion.Side | src/algorithms/bacteria_exclusion.rs:119-121 | either end of a hull edge lies on the edge's line (side 0) |
| Exclusion.InsideHull | src/algorithms/bacteria_exclusion.rs:116-130 | a point inside the hull is none of its vertices, since each vertex is on the line of its edges |
| Exclusion.IsInsideHull | src/algorithms/bacteria_exclusion.rs:116-130 | the edge loop accepts a pixel iff it is strictly on the inner side of every hull edge, the closing edge included |
| Exclusion.RotatedEdges | src/algorithms/bacteria_exclusion.rs:116-124 | each vertex and each edge of a rotated hull, with its wrapped predecessor, is a vertex and an edge of the hull |
| Exclusion.HullRotationInvariant | src/algorithms/bacteria_exclusion.rs:116-130 | the inside test does not depend on which hull vertex comes first |
| Exclusion.RoundSqrt | src/algorithms/bacteria_exclusion.rs:133-136 | the rounded root k satisfies k − 1/2 ≤ sqrt(n) < k + 1/2 |
| Exclusion.CenterDistance | src/algorithms/bacteria_exclusion.rs:133-136 | every pixel of the image is at least ring 1 from the centre (width, height / 2) |
| Exclusion.CenterDistancePositive | src/algorithms/bacteria_exclusion.rs:133-136 | every image pixel is at least one ring from the centre on the right edge, so ring 0 stays empty |
| Exclusion.TallyBounds | src/algorithms/bacteria_exclusion.rs:143-148 | each bucket's sum of "on" pixels is between 0 and its pixel count, and bucket 0 is never filled |
| Exclusion.Visit | src/algorithms/bacteria_exclusion.rs:133-148 | one pixel adds at most one to a bucket's count and at most one "on" pixel to its sum; ring 0 is never visited |
| Exclusion.Tally | src/algorithms/bacteria_exclusion.rs:113-149 | the count of a bucket never exceeds the number of pixels visited so far |
| Exclusion.BucketTable | src/algorithms/bacteria_exclusion.rs:113-149 | one bucket per radius 0 .. width − 1, the centre's left at (0, 0) |
| Exclusion.AccumulateBuckets | src/algorithms/bacteria_exclusion.rs:113-149 | after the pass, bucket d holds the number of "on" pixels and the number of pixels strictly inside the hull at rounded distance d |
| Exclusion.VisitPixel | src/algorithms/bacteria_exclusion.rs:114-149 | one pixel changes only its own distance's bucket, and only when it is inside the hull and within the table |
| Exclusion.Averaged | src/algorithms/bacteria_exclusion.rs:152-156 | averaging keeps the count, leaves empty buckets alone and turns a sum within [0, count] into a mean within [0, 1] |
| Exclusion.AverageBuckets | src/algorithms/bacteria_exclusion.rs:152-156 | in place, every bucket becomes its average |
| Exclusion.WeightedExclusion | src/algorithms/bacteria_exclusion.rs:160-164 | the loop sums every bucket's mean times its ring weight |
| Exclusion.RingWeight | src/algorithms/bacteria_exclusion.rs:162 | the π-free ring area d² − (d − 1)² is 2d − 1 |
| Exclusion.Weighted | src/algorithms/bacteria_exclusion.rs:158-164 | with ring 0 at 0 and every mean in [0, 1], the weighted sum of n rings lies between 0 and the disc area (n − 1)² |
| Exclusion.WeightedBounds | src/algorithms/bacteria_exclusion.rs:158-164 | with means in [0, 1] and ring 0 empty, the weighted sum of n rings lies between 0 and the disc area (n − 1)² |
| Exclusion.DiscAreaStep | src/algorithms/bacteria_exclusion.rs:162 | the ring weight d² − (d − 1)² is 2d − 1 and the rings add up to the disc |
| Exclusion.AveragedTableInUnit | src/algorithms/bacteria_exclusion.rs:143-156 | after averaging, every bucket holds a mean in [0, 1] and bucket 0 holds 0 |
| Exclusion.DiscArea | src/algorithms/bacteria_exclusion.rs:168 | the π-free normaliser (width − 1)² is zero exactly for a one-pixel-wide image |
| Exclusion.NormalisedBounds | src/algorithms/bacteria_exclusion.rs:160-168 | the weighted sum over the disc area of the table's last radius lies in [0, 1] |
| Exclusion.AdjustedRatioBounds | src/algorithms/bacteria_exclusion.rs:113-168 | the radius-adjusted exclusion ratio lies in [0, 1] |
| Exclusion.BacteriaExclusion | src/algorithms/bacteria_exclusion.rs:51-188 | error iff the radius in pixels is below 1 (ToSmallExclusionDiameter); otherwise a ratio in [0, 1], the zone's share of the image or, when radius-adjusted, the ring-weighted mean over the disc |
| Flakes.Samples | src/algorithms/graphene_angles.rs:41 | the samples are the points at indices 0, 5, 10, …, in order, ⌈n/5⌉ of them |
| Flakes.FarthestPair | src/algorithms/graphene_angles.rs:44-60 | the pair the double loop settles on indexes two samples |
| Flakes.RowScanInv | src/algorithms/graphene_angles.rs:48-59 | the inner loop keeps the strict-improvement invariant: the candidate is at least every pair visited and farther than every pair before it |
| Flakes.GridScanInv | src/algorithms/graphene_angles.rs:47-60 | the outer loop keeps the same invariant row by row |
| Flakes.FarthestPairIsFirstFarthest | src/algorithms/graphene_angles.rs:44-60 | the loop returns a farthest pair, and every pair before it in loop order is strictly nearer |
| Flakes.FirstFarthestUnique | src/algorithms/graphene_angles.rs:53 | there is only one first farthest pair, so the strict comparison fixes the result |
| Flakes.CoincidentSamples | src/algorithms/graphene_angles.rs:44-46 | the maximal distance is 0 iff all samples coincide, and then both points stay the first sample |
| Flakes.SqrtStrictlyMonotone | src/algorithms/graphene_angles.rs:49-53 | comparing roots of squared distances is comparing the squared distances |
| Flakes.FarthestSamples | src/algorithms/graphene_angles.rs:44-60 | the double loop returns the first farthest pair of samples and the root of its squared distance |
| Flakes.FirstArgMaxIsFirstMax | src/algorithms/graphene_angles.rs:68-81 | the strict-improvement scan returns the maximum and the first index holding it |
| Flakes.Cross | src/algorithms/graphene_angles.rs:68-81 | the cross product is 0 at either end of the long axis |
| Flakes.MaximumDistanceToLine | src/algorithms/graphene_angles.rs:68-81 | the extent is never negative, bounds every sample's absolute cross product over the axis length and equals that of one sample |
| Flakes.PerpendicularMax | src/algorithms/graphene_angles.rs:68-81 | returns the largest perpendicular distance of a sample from the long axis and the first sample that attains it; 0 when the axis has length 0 |
| Flakes.Midpoint | src/algorithms/graphene_angles.rs:89-90 | abs_diff/2 + min is the midpoint (a + b)/2 |
| Flakes.RemEuclid | src/algorithms/graphene_angles.rs:99 | the Euclidean remainder modulo π lies in [0, π) |
| Flakes.RemEuclidPeriodic | src/algorithms/graphene_angles.rs:92-99 | adding or removing a half turn does not change the remainder |
| Flakes.Angle | src/algorithms/graphene_angles.rs:96-99 | the angle of the normal lies in (−π/2, π/2] |
| Flakes.AngleSymmetric | src/algorithms/graphene_angles.rs:92-99 | exchanging the two farthest points does not change the angle |
| Flakes.FlakeOfSamples | src/algorithms/graphene_angles.rs:62-102 | a reported flake is at least the minimum size long and has its angle in (−π/2, π/2] |
| Flakes.FlakeOfAxis | src/algorithms/graphene_angles.rs:83-102 | a flake that survives the elongation test has the length of the axis in µm and an angle in (−π/2, π/2] |
| Flakes.TooRound | src/algorithms/graphene_angles.rs:84 | for a positive extent, too round exactly when the length is below the ratio times the extent |
| Flakes.FlakeOf | src/algorithms/graphene_angles.rs:35-102 | hole contours yield nothing; a reported flake is at least the minimum size long and has its angle in (−π/2, π/2] |
| Flakes.Collect | src/algorithms/graphene_angles.rs:101-102 | at most one flake is pushed per contour |
| Flakes.FlakesOf | src/algorithms/graphene_angles.rs:29-102 | at most one flake per contour, and none from a lone hole |
| Flakes.AnalyseContour | src/algorithms/graphene_angles.rs:32-102 | the loop body skips hole contours and otherwise analyses the contour's samples |
| Flakes.AnalyseSamples | src/algorithms/graphene_angles.rs:40-65 | the farthest pair, then the size filter: flakes shorter than the minimum size are dropped |
| Flakes.AnalyseAxis | src/algorithms/graphene_angles.rs:67-102 | the perpendicular extent, the elongation filter, then the centre, the angle and the length of the flake |
| Flakes.GrapheneAngles | src/algorithms/graphene_angles.rs:29-157 | the flakes pushed are, in contour order, the outcomes of the contours that survive |
| Flakes.ElongationTest | src/algorithms/graphene_angles.rs:75-84 | with d the squared length and c the largest abs(cross), the flake is too round iff c > 0 and d / c is below the ratio |
| Flakes.CollectConcat | src/algorithms/graphene_angles.rs:101 | the flakes of concatenated outcomes are the concatenated flakes |
| Flakes.CollectMembers | src/algorithms/graphene_angles.rs:101 | a flake is reported iff some contour's outcome is that flake |
| Flakes.FlakesOfConcat | src/algorithms/graphene_angles.rs:31-102 | contours are analysed independently and in order |
| Flakes.HoleIgnored | src/algorithms/graphene_angles.rs:36-38 | inserting a hole contour anywhere does not change the result |
| Flakes.FlakesWithinLimits | src/algorithms/graphene_angles.rs:62-102 | every reported flake is at least the minimum size long and has its angle in (−π/2, π/2] |
| ScaleBar.Quotient | src/algorithms/text_recognition.rs:86 | µm per pixel exists iff the pixel count is positive, and times the pixel count it gives the µm back |
| ScaleBar.Crop | src/algorithms/text_recognition.rs:80-81 | the crop has the requested size and holds the window's pixels |
| ScaleBar.Threshold | src/algorithms/text_recognition.rs:103 | a pixel becomes 0 when at most the threshold, else 255 |
| ScaleBar.FooterStrip | src/algorithms/text_recognition.rs:95-103 | the bar strip is 650 pixels wide and reaches from the footer row to the bottom |
| ScaleBar.ColumnRise | src/algorithms/text_recognition.rs:32-56 | the rise row is above the scan start, and a column never more than 16 brighter than the starting brightness does not rise |
| ScaleBar.Rise | src/algorithms/text_recognition.rs:30-56 | the rise row is above the skipped bottom rows, and a column never more than 16 brighter than its start row has none |
| ScaleBar.ColumnRiseAbove | src/algorithms/text_recognition.rs:32-56 | a recorded row is above the start; it is more than 16 brighter than a start brightness that was at most 200 |
| ScaleBar.RiseAbove | src/algorithms/text_recognition.rs:29-56 | a column's recorded row lies above the 41 bottom rows and is a rise of more than 16 from at most 200 |
| ScaleBar.ScanColumn | src/algorithms/text_recognition.rs:30-56 | the upward scan with its skips and break returns the column's first rise |
| ScaleBar.HeightCounts | src/algorithms/text_recognition.rs:28-57 | every recorded row has a count between 1 and the number of columns scanned |
| ScaleBar.HeightCountsCountColumns | src/algorithms/text_recognition.rs:28-57 | a row is a key of the tally iff some column rises at it, and its value is the number of such columns |
| ScaleBar.HeightCountsRows | src/algorithms/text_recognition.rs:29-32 | every tallied row is above the skipped bottom rows |
| ScaleBar.TallyHeights | src/algorithms/text_recognition.rs:28-57 | the map built over all columns is the tally of their rises |
| ScaleBar.Mode | src/algorithms/text_recognition.rs:59-67 | in any iteration order, the result is a most frequent row with its count, or (0, 0) for an empty map |
| ScaleBar.ModeIsFooterRow | src/algorithms/text_recognition.rs:19-77 | the mode is a row at which the most columns rise (0 when none does), and it lies above the 40 skipped rows |
| ScaleBar.NoRiseNoColumns | src/algorithms/text_recognition.rs:28-57 | when no column rises, no row is counted |
| ScaleBar.RisingColumnsCounts | src/algorithms/text_recognition.rs:46-50 | a column's rise is counted at its row |
| ScaleBar.Ordered | src/algorithms/text_recognition.rs:129-134 | the two ends of a run are ordered by x |
| ScaleBar.Runs | src/algorithms/text_recognition.rs:120-166 | walking the points closes at most one run per point, each horizontal with ordered ends |
| ScaleBar.Record | src/algorithms/text_recognition.rs:136-161 | the leftmost start never moves right and the rightmost end never left; an accepted run lies between them afterwards, a short one changes nothing |
| ScaleBar.RecordAll | src/algorithms/text_recognition.rs:118-167 | the extremes only widen, and runs none of which is long enough leave them unchanged |
| ScaleBar.Survey | src/algorithms/text_recognition.rs:116-167 | the leftmost start stays within u32, and without a long enough run both lines are the starting sentinels |
| ScaleBar.RecordAllConcat | src/algorithms/text_recognition.rs:118-167 | recording the runs of two contours in turn equals recording their concatenation |
| ScaleBar.RecordAllExtremes | src/algorithms/text_recognition.rs:136-161 | the leftmost line starts at or left of every accepted run and is the start line or such a run; likewise for the rightmost line |
| ScaleBar.RunsWithin | src/algorithms/text_recognition.rs:120-166 | runs stay within the x bound of their points |
| ScaleBar.AllRunsWithin | src/algorithms/text_recognition.rs:118-167 | the runs of all contours stay within the contours' x bound |
| ScaleBar.SurveyOutcome | src/algorithms/text_recognition.rs:116-176 | either extreme is unset iff no run is accepted; otherwise the rightmost line ends at least 16 pixels right of the leftmost line's start |
| ScaleBar.ScanContour | src/algorithms/text_recognition.rs:120-166 | the walk over one contour records exactly that contour's runs |
| ScaleBar.ExtremeLines | src/algorithms/text_recognition.rs:112-167 | the loop over contours finds the extreme lines of all runs |
| ScaleBar.IsWhitespace | src/algorithms/text_recognition.rs:226 | no digit, decimal point, `u` or `m` is whitespace, and space, tab, newline and carriage return are |
| ScaleBar.TrimStart | src/algorithms/text_recognition.rs:226 | removes exactly the leading whitespace, leaving a suffix that does not start with whitespace |
| ScaleBar.TrimEnd | src/algorithms/text_recognition.rs:226 | removes exactly the trailing whitespace, leaving a prefix that does not end with whitespace |
| ScaleBar.Trim | src/algorithms/text_recognition.rs:226 | the trimmed text is empty or has no whitespace at either end, and is empty exactly when the text is all whitespace |
| ScaleBar.TrimStartPadding | src/algorithms/text_recognition.rs:226 | leading whitespace before a non-space is removed and nothing else is |
| ScaleBar.TrimEndPadding | src/algorithms/text_recognition.rs:226 | trailing whitespace after a non-space is removed and nothing else is |
| ScaleBar.TrimPadding | src/algorithms/text_recognition.rs:226 | trimming a padded trimmed text gives the text back |
| ScaleBar.StripSuffix | src/algorithms/text_recognition.rs:226 | Some(d) iff the text is d followed by the suffix |
| ScaleBar.ReadMicrometers | src/algorithms/text_recognition.rs:226-233 | every failure is FailedToDetectText carrying the text as read |
| ScaleBar.ReadMicrometersSound | src/algorithms/text_recognition.rs:226-228 | a value read means the trimmed text is digits followed by "um", and the trimmed digits parse to that value |
| ScaleBar.ReadMicrometersComplete | src/algorithms/text_recognition.rs:226-228 | digits followed by "um" that parse are always read |
| ScaleBar.ReadsPaddedNumber | src/algorithms/text_recognition.rs:224-228 | a number with whitespace around it, before "um" and after it, is read |
| ScaleBar.ScaleFromContours | src/algorithms/text_recognition.rs:174-242 | a scale is at least 16 pixels long, its µm per pixel is the printed length over the pixels, and it carries the bar height and the cropped image |
| ScaleBar.ScaleFromFooter | src/algorithms/text_recognition.rs:80-242 | a scale read from the footer has bar height = image height − footer row and the image above the footer |
| ScaleBar.LineErrors | src/algorithms/text_recognition.rs:173-181 | LessThenTwoApplicableLinesFound iff no run is accepted; ExtremeLineIsNonHorizontal iff some run is and the extremes' x distance is below 20 × their row difference |
| ScaleBar.DetermineScale | src/algorithms/text_recognition.rs:8-243 | with override, the configured scale, bar height and the image above height − scale_bar_height; otherwise the footer row is a most frequent rise row above the skipped rows, and the result is the scale read from that footer |
| ScaleBar.ReadFooter | src/algorithms/text_recognition.rs:94-242 | traces the thresholded bar strip and reads the scale from its contours |
| ScaleBar.ReadLines | src/algorithms/text_recognition.rs:112-242 | the extreme lines, the two line errors, the pixel distance and the printed length give the scale |

## Left out

- Image files, debug images, plots and CSV output are left out. So are the `debug` and `output_prefix` parameters, and every `?` on a save.
- Library image operations are parameters or inputs: contour tracing, the Gaussian blur, thresholding before tracing, the convex hull and `draw_polygon_mut`.
  - The squared Euclidean distance transform is the `dist` input of `Exclusion.BacteriaExclusion`. Every contract of `Exclusion.BacteriaExclusion` holds for any grid of naturals given as `dist`; no contract ties it to the mask. `Exclusion.IsSquaredDistanceField` describes the transform only for a mask with at least one edge pixel, and only `Exclusion.SinglePixelField` and `Exclusion.EdgePixelsInZone` use it. For a mask with no edge pixel the transform's distances are infinite (bacteria_exclusion.rs line 56); such a mask corresponds to a field with no entry below the radius, which gives an empty zone and a ratio of 0.
  - The contour tracer of `determine_scale` is a function parameter. It is relied on only for non-empty contours whose points lie inside the traced image.
- Helpers.FilterByMinimumArea: returns the kept contours rather than the mask with their polygons drawn. Polygon filling belongs to the image library.
- Exclusion.BacteriaExclusion: takes the distance field and the hull as inputs. The contrast detector, the area filter, the distance transform and the hull are therefore not chained inside it.
- Exclusion.BacteriaExclusion: requires a non-empty hull, because the source unwraps its last point. It also requires a width of at least 2, because at width 1 the source divides by a zero disc area.
- Exclusion.BacteriaExclusion: requires a non-empty image and a non-zero scale, and those inputs are excluded. For an image of width or height 0, such as a footer crop of height 0, the source divides 0 by 0 on bacteria_exclusion.rs lines 70-71 and returns `Ok(NaN)`, which a real cannot represent. For a scale of 0, such as the text "0um", the source's radius is infinite and it returns the share of pixels with a finite distance; a real division by 0 has no such value. A negative scale is admitted and goes through the same radius test (line 52) as in the source.
- Floating point (`f32`) is idealised to exact reals and integers. Where `round` matters, its rule (halves away from zero) is written out. Overflow of the `u32` product `× 20` on text_recognition.rs line 179 is not modelled.
- `sqrt` and `atan2` are function parameters.
  - `sqrt` is relied on to be the exact non-negative root.
  - `atan2` is relied on only in `Flakes.AngleSymmetric`: opposite directions differ by a half turn.
  - `Exclusion.RoundSqrt` specifies `round(sqrt(n))` exactly.
- Squares of `u32` differences are modelled as mathematical squares. These are `(a - b).pow(2)` on graphene_angles.rs lines 49-50 and `(y - height / 2).pow(2)` on bacteria_exclusion.rs line 134. A release build's wrapping arithmetic gives the same value for images under 65536 pixels; a debug build would panic when the difference is negative.
- The text crop, the blur and the Tesseract run (text_recognition.rs lines 186-222) are left out. The recognised text is a parameter, and `parse::<f32>` is a function parameter. The crop geometry can underflow for short lines; that panic is not modelled.
- ScaleBar.DetermineScale: three of its requires stand for `u32` subtractions that panic on underflow in a debug build, and those inputs are excluded rather than modelled as a panic: `BAR_STRIP_WIDTH <= img.width` for `width - 650` (text_recognition.rs line 97), `SKIP_BOTTOM_PIXELS + 1 <= img.height` for `height - SKIP_BOTTOM_PIXELS - 1` (line 31), and `scaleBarHeight <= img.height` for `height - config.scale_bar_height` (line 20).
- `std::collections::HashMap` iteration order is unspecified. `ScaleBar.Mode` visits the keys in any order. `ScaleBar.DetermineScale` therefore characterises the footer row it picks and returns it alongside the result, rather than fixing one row.
- `point_3` (graphene_angles.rs line 69) is used only for the debug drawing. It is computed by `Flakes.PerpendicularMax` and then dropped.
- `graphene_angles` returns only the angles. It writes `angles.csv`, holding each centre's rounded distance from (width, height / 2) times the scale and the angle in degrees, and `lengths.csv`, holding the lengths. `Flakes.GrapheneAngles` returns whole flakes (centre, angle, length), from which the angles are the projection.
- The zone compares the squared distance with the unsquared pixel radius (bacteria_exclusion.rs line 63). `Exclusion.ZoneUsesUnsquaredRadius` shows that a pixel 2 away from the only edge is outside a zone of radius 3.
- `LessThenTwoApplicableLinesFound` is returned only when no run at all is accepted, despite its name. A single accepted run sets both extreme lines.
