/** `ParallelOffsetAlgorithm`: move every point along the unit normals of its segments,
    optionally replace sharp or strongly curved vertices of the moved curve by two
    Bezier points, and optionally smooth the result. */
module ParallelOffset {
  import opened Numeric
  import opened Wrappers
  import opened Geometry
  import opened Smoothing
  import opened OffsetCommon
  import opened Polyline

  /** The `corner_handling` entry: the three supported names, or any other string. */
  datatype CornerHandling = NoHandling | RoundHandling | AdaptiveHandling | Unsupported(name: string)

  /** The entries of the parameter dictionary the algorithm reads. */
  datatype Params = Params(
    smoothCurves: bool,
    cornerHandling: CornerHandling,
    cornerThreshold: real,
    curvatureThreshold: real,
    smoothingFactor: real,
    smoothingIterations: int)

  /** The values `parameters.get` falls back to; the corner threshold is 30 degrees. */
  const Defaults: Params := Params(true, AdaptiveHandling, PI / 6.0, 0.5, 0.3, 2)

  /** `validate_parameters`: only the three supported corner-handling names pass. */
  function Validate(p: Params): (r: Outcome)
    ensures r.Pass? <==> !p.cornerHandling.Unsupported?
  {
    if p.cornerHandling.Unsupported? then Fail("unsupported corner handling: " + p.cornerHandling.name)
    else Pass
  }

  // ---------------------------------------------------------------------------------
  // Segment normals

  /** The normal of segment `a b`: `(-dy, dx)`, normalised when its length is positive. */
  function SegmentNormal(a: Point, b: Point, sqrt: real -> real): Point
  {
    Normalize(Perp(Sub(b, a)), sqrt)
  }

  /** One normal per segment. */
  function Normals(points: seq<Point>, sqrt: real -> real): (r: seq<Point>)
    ensures |points| >= 1 ==> |r| == |points| - 1
    ensures |points| == 0 ==> r == []
  {
    if |points| < 2 then []
    else seq(|points| - 1, i requires 0 <= i < |points| - 1 => SegmentNormal(points[i], points[i + 1], sqrt))
  }

  /** `_calculate_normals`. */
  method CalculateNormals(points: seq<Point>, sqrt: real -> real) returns (normals: seq<Point>)
    ensures normals == Normals(points, sqrt)
  {
    normals := [];
    if |points| < 2 {
      return;
    }
    for i := 0 to |points| - 1
      invariant |normals| == i
      invariant forall k :: 0 <= k < i ==> normals[k] == SegmentNormal(points[k], points[k + 1], sqrt)
    {
      var dx := points[i + 1].x - points[i].x;
      var dy := points[i + 1].y - points[i].y;
      var normal := Normalize(Point(-dy, dx), sqrt);
      assert Point(-dy, dx) == Perp(Sub(points[i + 1], points[i]));
      normals := normals + [normal];
    }
  }

  /** With an exact square root every normal is a unit vector, or the zero vector exactly
      when the segment has length 0, and it is perpendicular to its segment. */
  lemma NormalsAreUnitPerpendiculars(points: seq<Point>, sqrt: real -> real, i: nat)
    requires ExactSqrt(sqrt) && i + 1 < |points|
    ensures UnitOrZero(Normals(points, sqrt)[i])
    ensures Normals(points, sqrt)[i] == Origin <==> points[i] == points[i + 1]
    ensures Dot(Normals(points, sqrt)[i], Sub(points[i + 1], points[i])) == 0.0
  {
    assert Normals(points, sqrt)[i] == SegmentNormal(points[i], points[i + 1], sqrt);
    SegmentNormalLaws(points[i], points[i + 1], sqrt);
  }

  /** The laws above for one segment. */
  lemma SegmentNormalLaws(a: Point, b: Point, sqrt: real -> real)
    requires ExactSqrt(sqrt)
    ensures UnitOrZero(SegmentNormal(a, b, sqrt))
    ensures SegmentNormal(a, b, sqrt) == Origin <==> a == b
    ensures Dot(SegmentNormal(a, b, sqrt), Sub(b, a)) == 0.0
  {
    SubZero(a, b);
    NormalizedUnitOrZero(Perp(Sub(b, a)), sqrt);
    NormalizedPerpIsPerpendicular(Sub(b, a), sqrt);
  }

  /** The normalised quarter-turn of a vector is perpendicular to it. */
  lemma NormalizedPerpIsPerpendicular(v: Point, sqrt: real -> real)
    ensures Dot(Normalize(Perp(v), sqrt), v) == 0.0
  {
    var m := Norm(Perp(v), sqrt);
    if m > 0.0 {
      var n := Normalize(Perp(v), sqrt);
      assert n == Point(-v.y / m, v.x / m);
      assert Dot(n, v) * m == -v.y * v.x + v.x * v.y;
    }
  }

  // ---------------------------------------------------------------------------------
  // The moved points

  /** Point `i` of the moved curve: an end moves along its own segment's normal; an
      interior point moves along the renormalised average of its two segments' normals. */
  function BasePoint(points: seq<Point>, normals: seq<Point>, i: nat, d: real, sqrt: real -> real): Point
    requires 2 <= |points| && |normals| == |points| - 1 && i < |points|
  {
    if i == 0 || i == |points| - 1 then
      Displace(points[i], if i < |normals| then normals[i] else normals[i - 1], d)
    else
      Displace(points[i], Normalize(Mid(normals[i - 1], normals[i]), sqrt), d)
  }

  /** The moved curve, one point per input point. */
  function BaseOffset(points: seq<Point>, d: real, sqrt: real -> real): (r: seq<Point>)
    requires |points| >= 2
    ensures |r| == |points|
  {
    var normals := Normals(points, sqrt);
    seq(|points|, i requires 0 <= i < |points| => BasePoint(points, normals, i, d, sqrt))
  }

  /** The first loop of `generate_offset`. */
  method ComputeBaseOffset(points: seq<Point>, d: real, sqrt: real -> real) returns (offsetPoints: seq<Point>)
    requires |points| >= 2
    ensures offsetPoints == BaseOffset(points, d, sqrt)
  {
    var normals := CalculateNormals(points, sqrt);
    offsetPoints := [];
    for i := 0 to |points|
      invariant |offsetPoints| == i
      invariant forall k :: 0 <= k < i ==> offsetPoints[k] == BasePoint(points, normals, k, d, sqrt)
    {
      var offsetPoint := OffsetPoint(points, normals, i, d, sqrt);
      offsetPoints := offsetPoints + [offsetPoint];
    }
    BaseOffsetPointwise(points, d, sqrt, offsetPoints);
  }

  /** The body of the first loop of `generate_offset` for point `i`. */
  method OffsetPoint(points: seq<Point>, normals: seq<Point>, i: nat, d: real, sqrt: real -> real)
    returns (offsetPoint: Point)
    requires 2 <= |points| && |normals| == |points| - 1 && i < |points|
    ensures offsetPoint == BasePoint(points, normals, i, d, sqrt)
  {
    var p := points[i];
    if i == 0 || i == |points| - 1 {
      var normal := if i < |normals| then normals[i] else normals[i - 1];
      offsetPoint := Displace(p, normal, d);
    } else {
      var prev, curr := normals[i - 1], normals[i];
      var avg := Mid(prev, curr);
      avg := Normalize(avg, sqrt);
      offsetPoint := Displace(p, avg, d);
    }
  }

  /** A list that agrees with the moved curve point by point is the moved curve. */
  lemma BaseOffsetPointwise(points: seq<Point>, d: real, sqrt: real -> real, s: seq<Point>)
    requires |points| >= 2 && |s| == |points|
    requires forall k :: 0 <= k < |s| ==> s[k] == BasePoint(points, Normals(points, sqrt), k, d, sqrt)
    ensures s == BaseOffset(points, d, sqrt)
  {
    var b := BaseOffset(points, d, sqrt);
    assert forall k :: 0 <= k < |s| ==> s[k] == b[k];
  }

  /** The direction point `i` moves along before normalising: its segment's normal at the
      two ends, the mean of the two adjacent normals inside. */
  function BaseDirection(normals: seq<Point>, i: nat): Point
    requires 0 < |normals| && i <= |normals|
  {
    if i == 0 then normals[0]
    else if i == |normals| then normals[i - 1]
    else Mid(normals[i - 1], normals[i])
  }

  /** With an exact square root every moved point lies at distance `|d|` from its input
      point when its direction is not zero, and on it when the direction is zero; the two
      ends use the first and the last segment's normal. */
  lemma BaseOffsetDistance(points: seq<Point>, d: real, sqrt: real -> real, i: nat)
    requires ExactSqrt(sqrt) && 2 <= |points| && i < |points|
    ensures MovedBy(points[i], BaseOffset(points, d, sqrt)[i], BaseDirection(Normals(points, sqrt), i), d)
  {
    var normals := Normals(points, sqrt);
    assert BaseOffset(points, d, sqrt)[i] == BasePoint(points, normals, i, d, sqrt);
    if i == 0 || i == |points| - 1 {
      var j := if i < |normals| then i else i - 1;
      NormalsAreUnitPerpendiculars(points, sqrt, j);
      DisplaceMovesBy(points[i], normals[j], d);
    } else {
      DisplaceAlongNormalized(points[i], Mid(normals[i - 1], normals[i]), d, sqrt);
    }
  }

  // ---------------------------------------------------------------------------------
  // Corner handling

  /** `_create_rounded_corner`: the quadratic Bezier curve through `p1 p2 p3` sampled at
      t = 1/3 and t = 2/3. */
  function RoundedCorner(p1: Point, p2: Point, p3: Point): (r: seq<Point>)
    ensures |r| == 2
  {
    [QuadBezier(p1, p2, p3, 1.0 / 3.0), QuadBezier(p1, p2, p3, 2.0 / 3.0)]
  }

  /** Both rounded points lie in the bounding box of the three control points. */
  lemma RoundedCornerInBox(p1: Point, p2: Point, p3: Point)
    ensures forall q :: q in RoundedCorner(p1, p2, p3) ==> WithinX(q, p1, p2, p3) && WithinY(q, p1, p2, p3)
  {
    QuadBezierInBox(p1, p2, p3, 1.0 / 3.0);
    QuadBezierInBox(p1, p2, p3, 2.0 / 3.0);
  }

  /** `_calculate_angle`: the interior angle at `p2`, or 0 when a neighbouring segment is
      degenerate. */
  function CalculateAngle(p1: Point, p2: Point, p3: Point, sqrt: real -> real, acos: real -> real): real
  {
    match InteriorAngle(p1, p2, p3, sqrt, acos)
    case Some(a) => a
    case None => 0.0
  }

  /** The angle lies in [0, pi], and is 0 at a degenerate vertex, which therefore counts as
      a corner for every positive threshold. */
  lemma CalculateAngleLaws(p1: Point, p2: Point, p3: Point, sqrt: real -> real, acos: real -> real)
    requires SqrtLaws(sqrt) && AcosLaws(acos)
    ensures 0.0 <= CalculateAngle(p1, p2, p3, sqrt, acos) <= PI
    ensures p1 == p2 || p3 == p2 ==> CalculateAngle(p1, p2, p3, sqrt, acos) == 0.0
  {
    VectorAngleLaws(Sub(p1, p2), Sub(p3, p2), sqrt, acos);
    SubZero(p2, p1);
    SubZero(p2, p3);
  }

  /** Which interior vertices `_round_corners` replaces: flag `k` is vertex `k + 1`, set
      when its angle is below the threshold. */
  function RoundTriggers(points: seq<Point>, threshold: real, sqrt: real -> real, acos: real -> real): (f: seq<bool>)
    requires |points| >= 3
    ensures |f| == |points| - 2
    decreases |points|
  {
    var head := CalculateAngle(points[0], points[1], points[2], sqrt, acos) < threshold;
    if |points| == 3 then [head] else [head] + RoundTriggers(points[1..], threshold, sqrt, acos)
  }

  /** Which interior vertices `_adaptive_corner_handling` replaces: those whose curvature
      is above the threshold. */
  function AdaptiveTriggers(points: seq<Point>, threshold: real, sqrt: real -> real): (f: seq<bool>)
    requires |points| >= 3
    ensures |f| == |points| - 2
    decreases |points|
  {
    var head := Curvature(points[0], points[1], points[2], sqrt) > threshold;
    if |points| == 3 then [head] else [head] + AdaptiveTriggers(points[1..], threshold, sqrt)
  }

  /** What replaces interior vertex `k + 1`: its two rounded points, or the vertex itself. */
  function CornerPiece(points: seq<Point>, k: nat, flag: bool): (r: seq<Point>)
    requires k + 2 < |points|
    ensures |r| == if flag then 2 else 1
  {
    if flag then RoundedCorner(points[k], points[k + 1], points[k + 2]) else [points[k + 1]]
  }

  /** The replacements of the first `|flags|` interior vertices, one after another. */
  function Replacements(points: seq<Point>, flags: seq<bool>): (r: seq<Point>)
    requires |flags| + 2 <= |points|
    decreases |flags|
  {
    if |flags| == 0 then []
    else
      var k := |flags| - 1;
      Replacements(points, flags[..k]) + CornerPiece(points, k, flags[k])
  }

  /** The number of set flags. */
  function CountTrue(flags: seq<bool>): (c: nat)
    ensures c <= |flags|
    decreases |flags|
  {
    if |flags| == 0 then 0
    else CountTrue(flags[..|flags| - 1]) + (if flags[|flags| - 1] then 1 else 0)
  }

  /** Each set flag contributes two points, each clear flag one. */
  lemma {:induction false} ReplacementsLength(points: seq<Point>, flags: seq<bool>)
    requires |flags| + 2 <= |points|
    ensures |Replacements(points, flags)| == |flags| + CountTrue(flags)
    decreases |flags|
  {
    if |flags| > 0 {
      ReplacementsLength(points, flags[..|flags| - 1]);
    }
  }

  /** With no flag set, every interior vertex is kept as it is. */
  lemma {:induction false} ReplacementsUnflagged(points: seq<Point>, flags: seq<bool>)
    requires |flags| + 2 <= |points|
    requires forall k :: 0 <= k < |flags| ==> !flags[k]
    ensures Replacements(points, flags) == points[1..|flags| + 1]
    decreases |flags|
  {
    if |flags| > 0 {
      var k := |flags| - 1;
      ReplacementsUnflagged(points, flags[..k]);
      assert points[1..k + 2] == points[1..k + 1] + [points[k + 1]];
    }
  }

  /** The curve after corner handling: the first point, the replacements of the interior
      vertices, the last point. It has one extra point per replaced vertex and keeps both
      ends. */
  function WithCorners(points: seq<Point>, flags: seq<bool>): (r: seq<Point>)
    requires |points| >= 3 && |flags| == |points| - 2
    ensures |r| == |points| + CountTrue(flags)
    ensures r[0] == points[0] && r[|r| - 1] == points[|points| - 1]
  {
    ReplacementsLength(points, flags);
    [points[0]] + Replacements(points, flags) + [points[|points| - 1]]
  }

  /** When no vertex is replaced, corner handling returns the curve unchanged. */
  lemma WithCornersUnflagged(points: seq<Point>, flags: seq<bool>)
    requires |points| >= 3 && |flags| == |points| - 2
    requires forall k :: 0 <= k < |flags| ==> !flags[k]
    ensures WithCorners(points, flags) == points
  {
    ReplacementsUnflagged(points, flags);
    assert points == [points[0]] + points[1..|points| - 1] + [points[|points| - 1]];
  }

  /** One more vertex handled: the replacements grow by that vertex's piece. */
  lemma ReplacementsStep(points: seq<Point>, flags: seq<bool>, i: nat)
    requires |flags| + 2 <= |points| && i < |flags|
    ensures Replacements(points, flags[..i + 1]) == Replacements(points, flags[..i]) + CornerPiece(points, i, flags[i])
  {
    assert flags[..i + 1][..i] == flags[..i];
  }

  /** The corner loops finish with every interior vertex handled and the last point. */
  lemma WithCornersComplete(points: seq<Point>, flags: seq<bool>, r: seq<Point>)
    requires |points| >= 3 && |flags| == |points| - 2
    requires r == [points[0]] + Replacements(points, flags[..|points| - 2]) + [points[|points| - 1]]
    ensures r == WithCorners(points, flags)
  {
    assert flags[..|points| - 2] == flags;
  }

  /** One turn of the corner loops: append the two rounded points of vertex `i` when it is
      replaced, the vertex itself otherwise. */
  method CornerTurn(points: seq<Point>, ghost flags: seq<bool>, i: nat, acc: seq<Point>, replace: bool)
    returns (next: seq<Point>)
    requires |flags| + 2 == |points| && 1 <= i < |points| - 1
    requires acc == [points[0]] + Replacements(points, flags[..i - 1]) && replace == flags[i - 1]
    ensures next == [points[0]] + Replacements(points, flags[..i])
  {
    var piece;
    if replace {
      piece := RoundedCorner(points[i - 1], points[i], points[i + 1]);
    } else {
      piece := [points[i]];
    }
    ReplacementsStep(points, flags, i - 1);
    next := acc + piece;
  }

  /** Flag `k` of the angle rule. */
  lemma {:induction false} RoundTriggerAt(points: seq<Point>, threshold: real, sqrt: real -> real, acos: real -> real, k: nat)
    requires k + 2 < |points|
    ensures RoundTriggers(points, threshold, sqrt, acos)[k]
      == (CalculateAngle(points[k], points[k + 1], points[k + 2], sqrt, acos) < threshold)
    decreases k
  {
    if k > 0 {
      RoundTriggerAt(points[1..], threshold, sqrt, acos, k - 1);
      assert points[1..][k - 1] == points[k] && points[1..][k] == points[k + 1] && points[1..][k + 1] == points[k + 2];
    }
  }

  /** Flag `k` of the curvature rule. */
  lemma {:induction false} AdaptiveTriggerAt(points: seq<Point>, threshold: real, sqrt: real -> real, k: nat)
    requires k + 2 < |points|
    ensures AdaptiveTriggers(points, threshold, sqrt)[k]
      == (Curvature(points[k], points[k + 1], points[k + 2], sqrt) > threshold)
    decreases k
  {
    if k > 0 {
      AdaptiveTriggerAt(points[1..], threshold, sqrt, k - 1);
      assert points[1..][k - 1] == points[k] && points[1..][k] == points[k + 1] && points[1..][k + 1] == points[k + 2];
    }
  }

  /** `_round_corners`: a vertex whose angle is below the threshold is replaced. */
  method RoundCorners(points: seq<Point>, threshold: real, sqrt: real -> real, acos: real -> real)
    returns (rounded: seq<Point>)
    ensures |points| < 3 ==> rounded == points
    ensures |points| >= 3 ==> rounded == WithCorners(points, RoundTriggers(points, threshold, sqrt, acos))
  {
    if |points| < 3 {
      return points;
    }
    ghost var flags := RoundTriggers(points, threshold, sqrt, acos);
    rounded := [points[0]];
    for i := 1 to |points| - 1
      invariant rounded == [points[0]] + Replacements(points, flags[..i - 1])
    {
      RoundTriggerAt(points, threshold, sqrt, acos, i - 1);
      var angle := CalculateAngle(points[i - 1], points[i], points[i + 1], sqrt, acos);
      rounded := CornerTurn(points, flags, i, rounded, angle < threshold);
    }
    rounded := rounded + [points[|points| - 1]];
    WithCornersComplete(points, flags, rounded);
  }

  /** `_adaptive_corner_handling`: a vertex whose curvature is above the threshold is
      replaced. */
  method AdaptiveCornerHandling(points: seq<Point>, threshold: real, sqrt: real -> real)
    returns (processed: seq<Point>)
    ensures |points| < 3 ==> processed == points
    ensures |points| >= 3 ==> processed == WithCorners(points, AdaptiveTriggers(points, threshold, sqrt))
  {
    if |points| < 3 {
      return points;
    }
    ghost var flags := AdaptiveTriggers(points, threshold, sqrt);
    processed := [points[0]];
    for i := 1 to |points| - 1
      invariant processed == [points[0]] + Replacements(points, flags[..i - 1])
    {
      AdaptiveTriggerAt(points, threshold, sqrt, i - 1);
      var curvature := Curvature(points[i - 1], points[i], points[i + 1], sqrt);
      processed := CornerTurn(points, flags, i, processed, curvature > threshold);
    }
    processed := processed + [points[|points| - 1]];
    WithCornersComplete(points, flags, processed);
  }

  /** What `_handle_corners` returns. */
  function CornersHandled(points: seq<Point>, params: Params, sqrt: real -> real, acos: real -> real): (r: seq<Point>)
    ensures |points| < 3 ==> r == points
    ensures |points| >= 3 ==> |r| >= |points| && r[0] == points[0] && r[|r| - 1] == points[|points| - 1]
  {
    if |points| < 3 then points
    else
      match params.cornerHandling
      case RoundHandling => WithCorners(points, RoundTriggers(points, params.cornerThreshold, sqrt, acos))
      case AdaptiveHandling => WithCorners(points, AdaptiveTriggers(points, params.curvatureThreshold, sqrt))
      case _ => points
  }

  /** `_handle_corners`. */
  method HandleCorners(points: seq<Point>, params: Params, sqrt: real -> real, acos: real -> real)
    returns (r: seq<Point>)
    ensures r == CornersHandled(points, params, sqrt, acos)
  {
    if params.cornerHandling.NoHandling? || |points| < 3 {
      return points;
    }
    if params.cornerHandling.RoundHandling? {
      r := RoundCorners(points, params.cornerThreshold, sqrt, acos);
    } else if params.cornerHandling.AdaptiveHandling? {
      r := AdaptiveCornerHandling(points, params.curvatureThreshold, sqrt);
    } else {
      r := points;
    }
  }

  /** A curve whose every vertex is collinear with its neighbours has curvature 0 there,
      so adaptive handling with a non-negative threshold leaves it as it is. */
  lemma AdaptiveKeepsStraightCurves(points: seq<Point>, threshold: real, sqrt: real -> real)
    requires |points| >= 3 && 0.0 <= threshold
    requires forall k :: 0 <= k < |points| - 2 ==>
      (points[k + 1].x - points[k].x) * (points[k + 2].y - points[k].y)
        == (points[k + 2].x - points[k].x) * (points[k + 1].y - points[k].y)
    ensures WithCorners(points, AdaptiveTriggers(points, threshold, sqrt)) == points
  {
    var flags := AdaptiveTriggers(points, threshold, sqrt);
    forall k | 0 <= k < |flags|
      ensures !flags[k]
    {
      CollinearCurvature(points[k], points[k + 1], points[k + 2], sqrt);
      AdaptiveTriggerAt(points, threshold, sqrt, k);
    }
    WithCornersUnflagged(points, flags);
  }

  // ---------------------------------------------------------------------------------
  // Smoothing and the whole algorithm

  /** What `_smooth_offset_curve` returns: short curves unchanged, otherwise the requested
      number of smoothing passes. */
  function SmoothedOffset(points: seq<Point>, params: Params): (r: seq<Point>)
    ensures |r| == |points|
    ensures |points| > 0 ==> r[0] == points[0] && r[|r| - 1] == points[|points| - 1]
  {
    if |points| < 3 then points
    else SmoothTimes(points, params.smoothingFactor, MaxI(0, params.smoothingIterations))
  }

  /** `_smooth_offset_curve`. */
  method SmoothOffsetCurve(points: seq<Point>, params: Params) returns (r: seq<Point>)
    ensures r == SmoothedOffset(points, params)
  {
    if |points| < 3 {
      return points;
    }
    r := SmoothRepeatedly(points, params.smoothingFactor, params.smoothingIterations);
  }

  /** What `generate_offset` does to the moved curve: corner handling unless it is off,
      then smoothing if requested; no point is lost. Each step keeps both ends (see
      `Cornered` and `SmoothingStep`). */
  function Finish(base: seq<Point>, params: Params, sqrt: real -> real, acos: real -> real): (r: seq<Point>)
    ensures |r| >= |base|
  {
    SmoothingStep(Cornered(base, params, sqrt, acos), params)
  }

  /** The smoothing step of `generate_offset`, skipped unless requested. */
  function SmoothingStep(cornered: seq<Point>, params: Params): (r: seq<Point>)
    ensures |r| == |cornered|
    ensures |cornered| > 0 ==> r[0] == cornered[0] && r[|r| - 1] == cornered[|cornered| - 1]
  {
    if params.smoothCurves then SmoothedOffset(cornered, params) else cornered
  }

  /** The corner-handling step of `generate_offset`, skipped when handling is off. */
  function Cornered(base: seq<Point>, params: Params, sqrt: real -> real, acos: real -> real): (r: seq<Point>)
    ensures |r| >= |base|
    ensures |base| > 0 ==> r[0] == base[0] && r[|r| - 1] == base[|base| - 1]
  {
    if params.cornerHandling.NoHandling? then base else CornersHandled(base, params, sqrt, acos)
  }

  /** The list `generate_offset` returns: `None` for fewer than two points; otherwise the
      moved curve, corner-handled unless handling is off, then smoothed if requested. */
  function Offset(points: seq<Point>, d: real, params: Params, sqrt: real -> real, acos: real -> real)
    : (r: Option<seq<Point>>)
    ensures r.Some? <==> |points| >= 2
  {
    if |points| < 2 then None
    else Some(Finish(BaseOffset(points, d, sqrt), params, sqrt, acos))
  }

  /** `generate_offset`. */
  method GenerateOffset(points: seq<Point>, d: real, params: Params, sqrt: real -> real, acos: real -> real)
    returns (r: Option<seq<Point>>)
    ensures r == Offset(points, d, params, sqrt, acos)
  {
    if |points| < 2 {
      return None;
    }
    var offsetPoints := ComputeBaseOffset(points, d, sqrt);
    if !params.cornerHandling.NoHandling? {
      offsetPoints := HandleCorners(offsetPoints, params, sqrt, acos);
    }
    if params.smoothCurves {
      offsetPoints := SmoothOffsetCurve(offsetPoints, params);
    }
    return Some(offsetPoints);
  }

  /** The ends of the moved curve move along the first and the last segment's normal. */
  lemma BaseOffsetEnds(points: seq<Point>, d: real, sqrt: real -> real)
    requires |points| >= 2
    ensures var base := BaseOffset(points, d, sqrt);
      var normals := Normals(points, sqrt);
      && base[0] == Displace(points[0], normals[0], d)
      && base[|base| - 1] == Displace(points[|points| - 1], normals[|points| - 2], d)
  {
    var base := BaseOffset(points, d, sqrt);
    var normals := Normals(points, sqrt);
    assert base[0] == BasePoint(points, normals, 0, d, sqrt);
    assert base[|points| - 1] == BasePoint(points, normals, |points| - 1, d, sqrt);
  }

  /** The returned curve starts at the first point moved along the first normal, whatever
      corner handling and smoothing did after it. */
  lemma OffsetFirst(points: seq<Point>, d: real, params: Params, sqrt: real -> real, acos: real -> real)
    requires |points| >= 2
    ensures Offset(points, d, params, sqrt, acos).value[0]
      == Displace(points[0], Normals(points, sqrt)[0], d)
  {
    var base := BaseOffset(points, d, sqrt);
    BaseOffsetEnds(points, d, sqrt);
    FinishEnds(base, params, sqrt, acos);
  }

  /** The returned curve ends at the last point moved along the last normal, whatever
      corner handling and smoothing did before it. */
  lemma OffsetLast(points: seq<Point>, d: real, params: Params, sqrt: real -> real, acos: real -> real)
    requires |points| >= 2
    ensures Last(Offset(points, d, params, sqrt, acos).value)
      == Displace(points[|points| - 1], Normals(points, sqrt)[|points| - 2], d)
  {
    var base := BaseOffset(points, d, sqrt);
    FinishEnds(base, params, sqrt, acos);
    BaseOffsetEnds(points, d, sqrt);
  }

  /** Corner handling followed by smoothing keeps the first and the last point. */
  lemma FinishEnds(base: seq<Point>, params: Params, sqrt: real -> real, acos: real -> real)
    requires |base| > 0
    ensures Finish(base, params, sqrt, acos)[0] == base[0]
    ensures Last(Finish(base, params, sqrt, acos)) == Last(base)
  {
    var cornered := Cornered(base, params, sqrt, acos);
    var r := SmoothingStep(cornered, params);
    assert r[0] == cornered[0];
    assert r[|r| - 1] == cornered[|cornered| - 1];
  }

  /** Without corner handling (switched off, or an unsupported name) the offset has exactly
      one point per input point; with it, one more per replaced vertex of the moved curve. */
  lemma OffsetLength(points: seq<Point>, d: real, params: Params, sqrt: real -> real, acos: real -> real)
    requires |points| >= 2
    ensures var r := Offset(points, d, params, sqrt, acos).value;
      var base := BaseOffset(points, d, sqrt);
      && (params.cornerHandling.NoHandling? || params.cornerHandling.Unsupported? || |points| < 3 ==>
            |r| == |points|)
      && (params.cornerHandling.RoundHandling? && |points| >= 3 ==>
            |r| == |points| + CountTrue(RoundTriggers(base, params.cornerThreshold, sqrt, acos)))
      && (params.cornerHandling.AdaptiveHandling? && |points| >= 3 ==>
            |r| == |points| + CountTrue(AdaptiveTriggers(base, params.curvatureThreshold, sqrt)))
  {
  }
}
