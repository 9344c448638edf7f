/** The analysis helpers of the context-aware tool: statistics of a curve (extent,
    perimeter, closedness, symmetry, a curvature estimate) and the settings it suggests
    for the optimiser, the deformer and performance from those statistics. */
module ContextTools {
  import opened Numeric
  import opened Wrappers
  import opened Geometry
  import opened Polyline
  import SmoothingOptimizer

  // ---------------------------------------------------------------------------
  // Sums, extremes and means of coordinate lists

  /** `sum(vals)`, added left to right. */
  function Sum(vals: seq<real>): real
  {
    if |vals| == 0 then 0.0 else Sum(vals[..|vals| - 1]) + vals[|vals| - 1]
  }

  /** A list of one repeated value sums to its length times the value. */
  lemma {:induction false} SumConstant(vals: seq<real>, c: real)
    requires forall i :: 0 <= i < |vals| ==> vals[i] == c
    ensures Sum(vals) == |vals| as real * c
    decreases |vals|
  {
    if |vals| > 0 {
      SumConstant(vals[..|vals| - 1], c);
    }
  }

  // ---------------------------------------------------------------------------
  // Perimeter

  /** The first `k` sides of the closed polygon through the points, side `i` running
      from point `i` to point `(i + 1) % n`. */
  function ClosedSides(points: seq<Point>, k: nat, sqrt: real -> real): real
    requires 0 < |points| && k <= |points|
  {
    if k == 0 then 0.0
    else ClosedSides(points, k - 1, sqrt) + Dist(points[k - 1], points[k % |points|], sqrt)
  }

  /** `_calculate_perimeter`: 0 for fewer than two points, otherwise all `n` sides of the
      closed polygon, the closing side from the last point back to the first included. */
  function Perimeter(points: seq<Point>, sqrt: real -> real): real
  {
    if |points| < 2 then 0.0 else ClosedSides(points, |points|, sqrt)
  }

  /** The length of the open polyline through the first `k` points. */
  function PathLength(points: seq<Point>, k: nat, sqrt: real -> real): real
    requires k <= |points|
  {
    if k <= 1 then 0.0 else PathLength(points, k - 1, sqrt) + Dist(points[k - 2], points[k - 1], sqrt)
  }

  /** The sides before the closing one are the segments of the open polyline. */
  lemma {:induction false} ClosedSidesArePath(points: seq<Point>, k: nat, sqrt: real -> real)
    requires 0 < k < |points|
    ensures ClosedSides(points, k, sqrt) == PathLength(points, k + 1, sqrt)
    decreases k
  {
    assert k % |points| == k;
    if k > 1 {
      ClosedSidesArePath(points, k - 1, sqrt);
    }
  }

  /** The perimeter is the open length plus the closing segment from the last point to
      the first. */
  lemma PerimeterIsPathPlusClosing(points: seq<Point>, sqrt: real -> real)
    requires |points| >= 2
    ensures Perimeter(points, sqrt) == PathLength(points, |points|, sqrt) + Dist(points[|points| - 1], points[0], sqrt)
  {
    ClosedSidesArePath(points, |points| - 1, sqrt);
  }

  /** With a square root obeying its laws every perimeter is non-negative. */
  lemma {:induction false} ClosedSidesNonneg(points: seq<Point>, k: nat, sqrt: real -> real)
    requires SqrtLaws(sqrt) && 0 < |points| && k <= |points|
    ensures 0.0 <= ClosedSides(points, k, sqrt)
    decreases k
  {
    if k > 0 {
      ClosedSidesNonneg(points, k - 1, sqrt);
      DistLaws(points[k - 1], points[k % |points|], sqrt);
    }
  }

  /** `_calculate_perimeter`: the accumulator loop. */
  method CalculatePerimeter(points: seq<Point>, sqrt: real -> real) returns (perimeter: real)
    ensures perimeter == Perimeter(points, sqrt)
    ensures SqrtLaws(sqrt) ==> 0.0 <= perimeter
  {
    if |points| < 2 {
      return 0.0;
    }
    perimeter := 0.0;
    for i := 0 to |points|
      invariant perimeter == ClosedSides(points, i, sqrt)
    {
      var p1 := points[i];
      var p2 := points[(i + 1) % |points|];
      perimeter := perimeter + Dist(p1, p2, sqrt);
    }
    if SqrtLaws(sqrt) {
      ClosedSidesNonneg(points, |points|, sqrt);
    }
  }

  // ---------------------------------------------------------------------------
  // Closedness

  /** `_is_curve_closed`: at least three points, and the last within distance 1 of the
      first. */
  function IsCurveClosed(points: seq<Point>, sqrt: real -> real): (r: bool)
    ensures |points| < 3 ==> !r
  {
    if |points| < 3 then false else Dist(points[0], points[|points| - 1], sqrt) < 1.0
  }

  /** With an exact square root the test is on the squared gap: closed exactly when there
      are at least three points and the squared distance from first to last is below 1. */
  lemma ClosedIffNear(points: seq<Point>, sqrt: real -> real)
    requires ExactSqrt(sqrt)
    ensures IsCurveClosed(points, sqrt) <==>
      |points| >= 3 && SqNorm(Sub(points[|points| - 1], points[0])) < 1.0
  {
    if |points| >= 3 {
      var x := SqNorm(Sub(points[|points| - 1], points[0]));
      SqNormZero(Sub(points[|points| - 1], points[0]));
      var s := sqrt(x);
      ExactSqrtAt(sqrt, x);
      if s < 1.0 {
        MulLe(s, s, 1.0, s * s, s * 1.0);
      } else {
        MulLe(s, 1.0, s, s * 1.0, s * s);
      }
    }
  }

  // ---------------------------------------------------------------------------
  // Symmetry

  /** The three flags `_analyze_symmetry` reports. */
  datatype Symmetry = Symmetry(horizontal: bool, vertical: bool, rotational: bool)

  /** `sum(vals) / len(vals)`. */
  function Mean(vals: seq<real>): real
    requires |vals| > 0
  {
    Sum(vals) / |vals| as real
  }

  /** `any(abs(v - target) < 1.0 for v in vals)`. */
  function AnyNear(vals: seq<real>, target: real): (r: bool)
    ensures r <==> exists j :: 0 <= j < |vals| && AbsR(vals[j] - target) < 1.0
  {
    if |vals| == 0 then false
    else
      assert forall j :: 0 <= j < |vals| - 1 ==> vals[..|vals| - 1][j] == vals[j];
      AnyNear(vals[..|vals| - 1], target) || AbsR(vals[|vals| - 1] - target) < 1.0
  }

  /** The mirror images of the first `k` values about `center` each lie within 1 of some
      value. */
  ghost predicate MirroredUpTo(vals: seq<real>, center: real, k: nat)
    requires k <= |vals|
  {
    forall i :: 0 <= i < k ==> AnyNear(vals, 2.0 * center - vals[i])
  }

  /** Every value's mirror image about the mean lies within 1 of some value. */
  ghost predicate MirrorSymmetric(vals: seq<real>)
    requires |vals| > 0
  {
    MirroredUpTo(vals, Mean(vals), |vals|)
  }

  /** One more value is mirrored exactly when the earlier ones are and its own image has
      a neighbour. */
  lemma MirroredStep(vals: seq<real>, center: real, k: nat)
    requires k < |vals|
    ensures MirroredUpTo(vals, center, k + 1) <==>
      MirroredUpTo(vals, center, k) && AnyNear(vals, 2.0 * center - vals[k])
  {
  }

  /** The flags `_analyze_symmetry` returns: all false below two points; otherwise
      mirror symmetry of the x and of the y coordinates about their means, and rotational
      symmetry when both hold. */
  ghost function SymmetryOf(points: seq<Point>): (r: Symmetry)
    ensures r.rotational == (r.horizontal && r.vertical)
    ensures |points| < 2 ==> !r.horizontal && !r.vertical
  {
    if |points| < 2 then Symmetry(false, false, false)
    else
      var h := MirrorSymmetric(Xs(points));
      var v := MirrorSymmetric(Ys(points));
      Symmetry(h, v, h && v)
  }

  /** `_analyze_symmetry`: the loop that clears a flag when some point's mirror image
      has no neighbour. */
  method AnalyzeSymmetry(points: seq<Point>) returns (r: Symmetry)
    ensures r == SymmetryOf(points)
  {
    if |points| < 2 {
      return Symmetry(false, false, false);
    }
    var xs := Xs(points);
    var ys := Ys(points);
    var centerX := Sum(xs) / |points| as real;
    var centerY := Sum(ys) / |points| as real;
    var horizontal := true;
    var vertical := true;
    for k := 0 to |points|
      invariant horizontal == MirroredUpTo(xs, centerX, k)
      invariant vertical == MirroredUpTo(ys, centerY, k)
    {
      MirroredStep(xs, centerX, k);
      MirroredStep(ys, centerY, k);
      var point := points[k];
      var reflectedX := 2.0 * centerX - point.x;
      if !AnyNear(xs, reflectedX) {
        horizontal := false;
      }
      var reflectedY := 2.0 * centerY - point.y;
      if !AnyNear(ys, reflectedY) {
        vertical := false;
      }
    }
    SymmetryOfScan(points, xs, ys, horizontal, vertical);
    return Symmetry(horizontal, vertical, horizontal && vertical);
  }

  /** The flags of a complete scan about the means are those of `SymmetryOf`. */
  lemma SymmetryOfScan(points: seq<Point>, xs: seq<real>, ys: seq<real>, h: bool, v: bool)
    requires |points| >= 2 && xs == Xs(points) && ys == Ys(points)
    requires h == MirroredUpTo(xs, Sum(xs) / |points| as real, |points|)
    requires v == MirroredUpTo(ys, Sum(ys) / |points| as real, |points|)
    ensures SymmetryOf(points) == Symmetry(h, v, h && v)
  {
  }

  /** Points on one vertical line (two or more) are horizontally symmetric: every mirror
      image is the line itself. */
  lemma VerticalLineIsHorizontallySymmetric(points: seq<Point>, c: real)
    requires |points| >= 2 && forall i :: 0 <= i < |points| ==> points[i].x == c
    ensures SymmetryOf(points).horizontal
  {
    var xs := Xs(points);
    SumConstant(xs, c);
    assert Mean(xs) == c;
    forall i | 0 <= i < |xs| ensures AnyNear(xs, 2.0 * Mean(xs) - xs[i]) {
      assert AbsR(xs[0] - (2.0 * c - xs[i])) < 1.0;
    }
  }

  // ---------------------------------------------------------------------------
  // Curve characteristics

  /** The dictionary `_analyze_curve_characteristics` returns for a non-empty curve. */
  datatype Analysis = Analysis(pointCount: int, width: real, height: real, area: real,
                               perimeter: real, curvature: real, complexity: real,
                               isClosed: bool, symmetry: Symmetry)

  /** The triangle areas at the interior points `1 .. e-1`. */
  function AreaSum(points: seq<Point>, e: nat): real
    requires e <= 1 || e < |points|
  {
    if e <= 1 then 0.0 else AreaSum(points, e - 1) + TriangleArea(points[e - 2], points[e - 1], points[e])
  }

  /** An area sum is non-negative. */
  lemma {:induction false} AreaSumNonneg(points: seq<Point>, e: nat)
    requires e <= 1 || e < |points|
    ensures 0.0 <= AreaSum(points, e)
    decreases e
  {
    if e > 1 {
      AreaSumNonneg(points, e - 1);
    }
  }

  /** The complexity measure: points per unit of extent, 0 for a curve without extent. */
  function Density(count: nat, extent: real): (r: real)
    ensures 0.0 <= extent ==> 0.0 <= r
    ensures extent <= 0.0 ==> r == 0.0
  {
    if extent > 0.0 then
      var r := count as real / extent;
      QuotientNonneg(count as real, extent, r);
      r
    else 0.0
  }

  /** Over a positive extent the density times the extent is the point count. */
  lemma DensityTimesExtent(count: nat, extent: real)
    requires 0.0 < extent
    ensures extent * Density(count, extent) == count as real
  {
    MulDivCancel(count as real, extent, extent * Density(count, extent));
  }

  /** `max_x - min_x`: the width of the bounding box. */
  function SpanX(points: seq<Point>): (r: real)
    requires |points| > 0
    ensures 0.0 <= r
  {
    assert Xs(points)[0] <= MaxOf(Xs(points));
    MaxOf(Xs(points)) - MinOf(Xs(points))
  }

  /** `max_y - min_y`: the height of the bounding box. */
  function SpanY(points: seq<Point>): (r: real)
    requires |points| > 0
    ensures 0.0 <= r
  {
    assert Ys(points)[0] <= MaxOf(Ys(points));
    MaxOf(Ys(points)) - MinOf(Ys(points))
  }

  /** The bounding box spanned from the smallest coordinates holds every point. */
  lemma BoundingBox(points: seq<Point>)
    requires |points| > 0
    ensures forall i :: 0 <= i < |points| ==>
      MinOf(Xs(points)) <= points[i].x <= MinOf(Xs(points)) + SpanX(points) &&
      MinOf(Ys(points)) <= points[i].y <= MinOf(Ys(points)) + SpanY(points)
  {
    var xs, ys := Xs(points), Ys(points);
    forall i | 0 <= i < |points|
      ensures MinOf(xs) <= points[i].x <= MinOf(xs) + SpanX(points)
      ensures MinOf(ys) <= points[i].y <= MinOf(ys) + SpanY(points)
    {
      assert xs[i] <= MaxOf(xs) && ys[i] <= MaxOf(ys);
    }
  }

  /** The bounding box is a single point exactly when every point coincides with the
      first. */
  lemma ZeroExtent(points: seq<Point>)
    requires |points| > 0
    ensures SpanX(points) + SpanY(points) == 0.0 <==> forall i :: 0 <= i < |points| ==> points[i] == points[0]
  {
    var xs, ys := Xs(points), Ys(points);
    if SpanX(points) + SpanY(points) == 0.0 {
      forall i | 0 <= i < |points| ensures points[i] == points[0] {
        assert xs[i] <= MaxOf(xs) && MinOf(xs) <= xs[0];
        assert ys[i] <= MaxOf(ys) && MinOf(ys) <= ys[0];
      }
    }
    if forall i :: 0 <= i < |points| ==> points[i] == points[0] {
      var ix :| 0 <= ix < |xs| && xs[ix] == MinOf(xs);
      var jx :| 0 <= jx < |xs| && xs[jx] == MaxOf(xs);
      var iy :| 0 <= iy < |ys| && ys[iy] == MinOf(ys);
      var jy :| 0 <= jy < |ys| && ys[jy] == MaxOf(ys);
      assert points[ix] == points[jx] && points[iy] == points[jy];
    }
  }

  /** `width * height`: the area of the bounding box. */
  function BoxArea(points: seq<Point>): (r: real)
    requires |points| > 0
    ensures 0.0 <= r
  {
    var width, height := SpanX(points), SpanY(points);
    ProductNonneg(width, height, width * height);
    width * height
  }

  /** `total_curvature / len(curve_points)`: the triangle areas at the interior points,
      averaged over all points. */
  function MeanTriangleArea(points: seq<Point>): (r: real)
    requires |points| > 0
    ensures 0.0 <= r
  {
    var n := |points|;
    var r := AreaSum(points, n - 1) / n as real;
    AreaSumNonneg(points, n - 1);
    QuotientNonneg(AreaSum(points, n - 1), n as real, r);
    r
  }

  /** `_analyze_curve_characteristics`: `None` for the empty curve (Python's `{}`),
      otherwise the point count, the bounding box and its area, the perimeter, the mean
      triangle area, the points per unit of extent, closedness and symmetry. */
  ghost function Characteristics(points: seq<Point>, sqrt: real -> real): (r: Option<Analysis>)
    ensures r.None? <==> |points| == 0
    ensures r.Some? ==> r.value.pointCount == |points| && 0.0 <= r.value.area
    ensures r.Some? ==> r.value.width == SpanX(points) && r.value.height == SpanY(points)
    ensures r.Some? ==> r.value.curvature == MeanTriangleArea(points)
    ensures r.Some? ==> r.value.complexity == Density(|points|, r.value.width + r.value.height)
    ensures r.Some? ==> r.value.perimeter == Perimeter(points, sqrt)
    ensures r.Some? ==> r.value.isClosed == IsCurveClosed(points, sqrt) && r.value.symmetry == SymmetryOf(points)
  {
    if |points| == 0 then None
    else
      var width, height := SpanX(points), SpanY(points);
      Some(Analysis(|points|, width, height, BoxArea(points), Perimeter(points, sqrt), MeanTriangleArea(points),
                    Density(|points|, width + height), IsCurveClosed(points, sqrt), SymmetryOf(points)))
  }

  /** The curvature accumulator loop of `_analyze_curve_characteristics`: the triangle
      areas at every interior point. */
  method TotalCurvature(points: seq<Point>) returns (total: real)
    requires |points| > 0
    ensures total == AreaSum(points, |points| - 1)
  {
    total := 0.0;
    var i := 1;
    while i < |points| - 1
      invariant 1 <= i && (i <= 1 || i < |points|)
      invariant total == AreaSum(points, i)
    {
      var p1, p2, p3 := points[i - 1], points[i], points[i + 1];
      total := total + TriangleArea(p1, p2, p3);
      i := i + 1;
    }
    assert i == |points| - 1 || (i == 1 && |points| <= 2);
  }

  /** `_analyze_curve_characteristics`: the statistics and the helper calls. */
  method AnalyzeCurve(points: seq<Point>, sqrt: real -> real) returns (r: Option<Analysis>)
    ensures r == Characteristics(points, sqrt)
  {
    if |points| == 0 {
      return None;
    }
    var width := SpanX(points);
    var height := SpanY(points);
    var totalCurvature := TotalCurvature(points);
    var avgCurvature := totalCurvature / |points| as real;
    var complexity := Density(|points|, width + height);
    var perimeter := CalculatePerimeter(points, sqrt);
    var symmetry := AnalyzeSymmetry(points);
    r := Some(Analysis(|points|, width, height, BoxArea(points), perimeter, avgCurvature,
                       complexity, IsCurveClosed(points, sqrt), symmetry));
  }

  /** Along a straight polyline (every interior point collinear with its neighbours) the
      curvature estimate is 0. */
  lemma {:induction false} StraightAreaSum(points: seq<Point>, e: nat)
    requires e <= 1 || e < |points|
    requires forall i :: 1 <= i < |points| - 1 ==>
      (points[i].x - points[i - 1].x) * (points[i + 1].y - points[i - 1].y)
      == (points[i + 1].x - points[i - 1].x) * (points[i].y - points[i - 1].y)
    ensures AreaSum(points, e) == 0.0
    decreases e
  {
    if e > 1 {
      StraightAreaSum(points, e - 1);
      var i := e - 1;
      assert (points[i].x - points[i - 1].x) * (points[i + 1].y - points[i - 1].y)
          == (points[i + 1].x - points[i - 1].x) * (points[i].y - points[i - 1].y);
    }
  }

  /** Along a straight polyline the reported curvature is 0. */
  lemma StraightCurveHasNoCurvature(points: seq<Point>)
    requires |points| > 0
    requires forall i :: 1 <= i < |points| - 1 ==>
      (points[i].x - points[i - 1].x) * (points[i + 1].y - points[i - 1].y)
      == (points[i + 1].x - points[i - 1].x) * (points[i].y - points[i - 1].y)
    ensures MeanTriangleArea(points) == 0.0
  {
    StraightAreaSum(points, |points| - 1);
  }

  // ---------------------------------------------------------------------------
  // Suggestions

  /** `curve_analysis.get(key, default)` for the entries the suggestions read: the
      analysed value, or the default when the analysis is empty. */
  function PointCount(analysis: Option<Analysis>): int
  {
    if analysis.Some? then analysis.value.pointCount else 100
  }

  function Complexity(analysis: Option<Analysis>): real
  {
    if analysis.Some? then analysis.value.complexity else 1.0
  }

  function CurvatureOf(analysis: Option<Analysis>): real
  {
    if analysis.Some? then analysis.value.curvature else 0.5
  }

  function Width(analysis: Option<Analysis>): real
  {
    if analysis.Some? then analysis.value.width else 100.0
  }

  function Height(analysis: Option<Analysis>): real
  {
    if analysis.Some? then analysis.value.height else 100.0
  }

  function Area(analysis: Option<Analysis>): real
  {
    if analysis.Some? then analysis.value.area else 10000.0
  }

  function Closed(analysis: Option<Analysis>): bool
  {
    if analysis.Some? then analysis.value.isClosed else true
  }

  /** The optimiser settings `_suggest_optimizer_settings` returns. */
  datatype OptimizerSettings = OptimizerSettings(
    optimizationLevel: string, smoothingFactor: real, simplificationThreshold: real,
    curvatureBased: bool, multiresOptimization: bool, optimizationIterations: int)

  /** `_suggest_optimizer_settings`: level, smoothing and simplification by point count
      (above 500, above 200, otherwise), smoothing scaled by 0.8 and simplification by
      1.5 for a complexity above 2, smoothing scaled by 1.2 for a curvature above 1, both
      clamped; multi-resolution above 300 points, three iterations above 200. */
  function SuggestOptimizer(analysis: Option<Analysis>): (r: OptimizerSettings)
    ensures r.optimizationLevel == (if PointCount(analysis) > 500 then "high"
                                    else if PointCount(analysis) > 200 then "medium" else "low")
    ensures 0.24 <= r.smoothingFactor <= 0.84
    ensures 0.005 <= r.simplificationThreshold <= 0.03
    ensures r.multiresOptimization <==> PointCount(analysis) > 300
    ensures r.optimizationIterations == (if PointCount(analysis) > 200 then 3 else 2)
  {
    var pointCount := PointCount(analysis);
    var level := if pointCount > 500 then "high" else if pointCount > 200 then "medium" else "low";
    var smoothing := if pointCount > 500 then 0.7 else if pointCount > 200 then 0.5 else 0.3;
    var simplification := if pointCount > 500 then 0.02 else if pointCount > 200 then 0.01 else 0.005;
    var complex := Complexity(analysis) > 2.0;
    var smoothing1 := if complex then smoothing * 0.8 else smoothing;
    var simplification1 := if complex then simplification * 1.5 else simplification;
    var smoothing2 := if CurvatureOf(analysis) > 1.0 then smoothing1 * 1.2 else smoothing1;
    OptimizerSettings(level, MinR(1.0, MaxR(0.0, smoothing2)), MinR(0.1, MaxR(0.001, simplification1)),
                      true, pointCount > 300, if pointCount > 200 then 3 else 2)
  }

  /** The suggested smoothing settings are accepted by the smoothing optimiser's
      parameter check. */
  lemma SuggestedSmoothingIsAccepted(analysis: Option<Analysis>)
    ensures var s := SuggestOptimizer(analysis);
      SmoothingOptimizer.Validate(SmoothingOptimizer.Params(s.smoothingFactor, true, s.optimizationIterations)).Pass?
  {
  }

  /** The deformer settings `_suggest_deformer_settings` returns. */
  datatype DeformerSettings = DeformerSettings(
    offsetDistance: real, offsetDirection: string, smoothCurves: bool, offsetAlgorithm: string,
    offsetQuality: string, autoOffsetAdjustment: bool, collisionResolution: bool)

  /** `_suggest_deformer_settings`: an offset of a tenth of the mean of width and height;
      both sides with the parallel algorithm for a closed curve, the right side with the
      perpendicular one otherwise; quality by area (above 50000, 20000, 10000). */
  function SuggestDeformer(analysis: Option<Analysis>): (r: DeformerSettings)
    ensures r.offsetDirection == (if Closed(analysis) then "both" else "right")
    ensures r.offsetAlgorithm == (if Closed(analysis) then "parallel" else "perpendicular")
    ensures r.offsetQuality == (if Area(analysis) > 50000.0 then "ultra"
                                else if Area(analysis) > 20000.0 then "high"
                                else if Area(analysis) > 10000.0 then "medium" else "low")
    ensures 20.0 * r.offsetDistance == Width(analysis) + Height(analysis)
  {
    var avgSize := (Width(analysis) + Height(analysis)) / 2.0;
    var quality :=
      if Area(analysis) > 50000.0 then "ultra"
      else if Area(analysis) > 20000.0 then "high"
      else if Area(analysis) > 10000.0 then "medium"
      else "low";
    var closed := Closed(analysis);
    DeformerSettings(avgSize * 0.1, if closed then "both" else "right", true,
                     if closed then "parallel" else "perpendicular", quality, true, true)
  }

  /** For an analysed curve the suggested offset is non-negative, and zero exactly when
      every point coincides with the first. */
  lemma SuggestedOffsetForCurve(points: seq<Point>, sqrt: real -> real)
    requires |points| > 0
    ensures var d := SuggestDeformer(Characteristics(points, sqrt)).offsetDistance;
      0.0 <= d && (d == 0.0 <==> forall i :: 0 <= i < |points| ==> points[i] == points[0])
  {
    ZeroExtent(points);
  }

  /** The performance settings `_suggest_performance_settings` returns. */
  datatype PerformanceSettings = PerformanceSettings(
    processingPriority: string, parallelProcessing: bool, memoryLimit: int, useCache: bool)

  /** `_suggest_performance_settings`: priority by complexity (above 2, above 1), memory by
      point count (above 1000, above 500), parallel processing above 100 points and the
      cache above 200. */
  function SuggestPerformance(analysis: Option<Analysis>): (r: PerformanceSettings)
    ensures r.processingPriority == (if Complexity(analysis) > 2.0 then "quality"
                                     else if Complexity(analysis) > 1.0 then "balanced" else "speed")
    ensures r.memoryLimit in {512, 768, 1024}
    ensures r.memoryLimit == 1024 <==> PointCount(analysis) > 1000
    ensures r.memoryLimit == 768 <==> 500 < PointCount(analysis) <= 1000
    ensures r.memoryLimit == 512 <==> PointCount(analysis) <= 500
    ensures r.parallelProcessing <==> PointCount(analysis) > 100
    ensures r.useCache <==> PointCount(analysis) > 200
    ensures r.useCache ==> r.parallelProcessing
  {
    var pointCount := PointCount(analysis);
    var priority :=
      if Complexity(analysis) > 2.0 then "quality"
      else if Complexity(analysis) > 1.0 then "balanced"
      else "speed";
    var memoryLimit := if pointCount > 1000 then 1024 else if pointCount > 500 then 768 else 512;
    PerformanceSettings(priority, pointCount > 100, memoryLimit, pointCount > 200)
  }

  /** More points never lower the memory limit and never switch parallel processing or
      the cache off. */
  lemma PerformanceMonotone(a: Option<Analysis>, b: Option<Analysis>)
    requires PointCount(a) <= PointCount(b)
    ensures SuggestPerformance(a).memoryLimit <= SuggestPerformance(b).memoryLimit
    ensures SuggestPerformance(a).parallelProcessing ==> SuggestPerformance(b).parallelProcessing
    ensures SuggestPerformance(a).useCache ==> SuggestPerformance(b).useCache
  {
  }

  /** The three groups `_generate_automatic_suggestions` returns. */
  datatype Suggestions = Suggestions(optimizer: OptimizerSettings, deformer: DeformerSettings,
                                     performance: PerformanceSettings)

  /** `_generate_automatic_suggestions`: nothing (Python's `{}`) without an analysis,
      otherwise the three groups computed from it. */
  function GenerateSuggestions(analysis: Option<Analysis>): (r: Option<Suggestions>)
    ensures r.Some? <==> analysis.Some?
    ensures r.Some? ==> r.value.deformer.offsetAlgorithm == (if analysis.value.isClosed then "parallel" else "perpendicular")
    ensures r.Some? ==> r.value.optimizer.optimizationIterations == (if analysis.value.pointCount > 200 then 3 else 2)
  {
    if analysis.None? then None
    else Some(Suggestions(SuggestOptimizer(analysis), SuggestDeformer(analysis), SuggestPerformance(analysis)))
  }
}
