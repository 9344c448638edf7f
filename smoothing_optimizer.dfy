/** `SmoothingOptimizer`: repeated neighbour smoothing, then pulling back the interior
    points that moved too far from the original curve. */
module SmoothingOptimizer {
  import opened Numeric
  import opened Wrappers
  import opened Geometry
  import opened Smoothing

  /** The entries of the parameter dictionary the optimiser reads. */
  datatype Params = Params(smoothingFactor: real, preserveShape: bool, iterations: int)

  /** The values `parameters.get` falls back to. */
  const Defaults: Params := Params(0.5, true, 3)

  /** `validate_parameters`: the factor must lie in [0, 1] and the pass count in [1, 10];
      the factor is checked first. */
  function Validate(p: Params): (r: Outcome)
    ensures r.Pass? <==> 0.0 <= p.smoothingFactor <= 1.0 && 1 <= p.iterations <= 10
    ensures !(0.0 <= p.smoothingFactor <= 1.0) ==> r == Fail("smoothing factor must be between 0.0 and 1.0")
  {
    if !(0.0 <= p.smoothingFactor <= 1.0) then Fail("smoothing factor must be between 0.0 and 1.0")
    else if !(1 <= p.iterations <= 10) then Fail("smoothing iterations must be between 1 and 10")
    else Pass
  }

  /** How far a smoothed point may drift from its original before it is pulled back. */
  const DriftLimit: real := 0.5

  /** Point `i` of `n` after shape preservation: the ends are the original points; an
      interior point that drifted more than the limit is replaced by the midpoint of the
      original and the smoothed point. */
  function PreservePoint(i: nat, n: nat, orig: Point, smooth: Point, sqrt: real -> real): Point
  {
    if i == 0 || i == n - 1 then orig
    else if Dist(smooth, orig, sqrt) > DriftLimit then Mid(orig, smooth)
    else smooth
  }

  /** The list `_preserve_shape_after_smoothing` returns. Lists of different lengths leave
      the smoothed list as it is. */
  function PreservedShape(orig: seq<Point>, smoothed: seq<Point>, sqrt: real -> real): (r: seq<Point>)
    ensures |r| == |smoothed|
    ensures |orig| != |smoothed| ==> r == smoothed
    ensures |orig| == |smoothed| > 0 ==> r[0] == orig[0] && r[|r| - 1] == orig[|orig| - 1]
    ensures |orig| == |smoothed| ==> forall k :: 0 < k < |r| - 1 ==>
      if Dist(smoothed[k], orig[k], sqrt) > DriftLimit then r[k] == Mid(orig[k], smoothed[k])
      else r[k] == smoothed[k]
  {
    if |orig| != |smoothed| then smoothed
    else seq(|orig|, k requires 0 <= k < |orig| => PreservePoint(k, |orig|, orig[k], smoothed[k], sqrt))
  }

  /** `_preserve_shape_after_smoothing`: the list built by appending one point at a time. */
  method PreserveShapeAfterSmoothing(orig: seq<Point>, smoothed: seq<Point>, sqrt: real -> real)
    returns (preserved: seq<Point>)
    ensures preserved == PreservedShape(orig, smoothed, sqrt)
  {
    if |orig| != |smoothed| {
      return smoothed;
    }
    preserved := [];
    for i := 0 to |orig|
      invariant |preserved| == i
      invariant forall k :: 0 <= k < i ==> preserved[k] == PreservePoint(k, |orig|, orig[k], smoothed[k], sqrt)
    {
      var o, s := orig[i], smoothed[i];
      if i == 0 || i == |orig| - 1 {
        preserved := preserved + [o];
      } else {
        var distance := Dist(s, o, sqrt);
        if distance > DriftLimit {
          preserved := preserved + [Mid(o, s)];
        } else {
          preserved := preserved + [s];
        }
      }
    }
  }

  /** Shape preservation never moves a point further from its original than smoothing did;
      a pulled-back point is at a quarter of the squared drift. */
  lemma PreservedShapeCloser(orig: seq<Point>, smoothed: seq<Point>, sqrt: real -> real, k: nat)
    requires |orig| == |smoothed| && k < |orig|
    ensures SqNorm(Sub(orig[k], PreservedShape(orig, smoothed, sqrt)[k]))
         <= SqNorm(Sub(orig[k], smoothed[k]))
    ensures 0 < k < |orig| - 1 && Dist(smoothed[k], orig[k], sqrt) > DriftLimit ==>
      4.0 * SqNorm(Sub(orig[k], PreservedShape(orig, smoothed, sqrt)[k]))
        == SqNorm(Sub(orig[k], smoothed[k]))
  {
    var r := PreservedShape(orig, smoothed, sqrt);
    var d := Sub(orig[k], smoothed[k]);
    var dd := SqNorm(d);
    SquareNonneg(d.x, d.x * d.x);
    SquareNonneg(d.y, d.y * d.y);
    if k == 0 || k == |orig| - 1 {
      assert r[k] == orig[k];
      assert Sub(orig[k], r[k]) == Origin;
    } else if Dist(smoothed[k], orig[k], sqrt) > DriftLimit {
      var h := Sub(orig[k], r[k]);
      assert h == Point(d.x / 2.0, d.y / 2.0);
      assert 4.0 * SqNorm(h) == dd;
    }
  }

  /** What `optimize` returns: lists shorter than 3 unchanged; otherwise the requested
      number of smoothing passes, followed by shape preservation when it is switched on. */
  function Smoothed(points: seq<Point>, params: Params, sqrt: real -> real): (r: seq<Point>)
    ensures |r| == |points|
    ensures |points| > 0 ==> r[0] == points[0] && r[|r| - 1] == points[|points| - 1]
  {
    if |points| < 3 then points
    else
      var s := SmoothTimes(points, params.smoothingFactor, MaxI(0, params.iterations));
      if params.preserveShape then PreservedShape(points, s, sqrt) else s
  }

  /** `optimize`. */
  method Optimize(points: seq<Point>, params: Params, sqrt: real -> real) returns (r: seq<Point>)
    ensures r == Smoothed(points, params, sqrt)
  {
    if |points| < 3 {
      return points;
    }
    r := SmoothRepeatedly(points, params.smoothingFactor, params.iterations);
    if params.preserveShape {
      r := PreserveShapeAfterSmoothing(points, r, sqrt);
    }
  }

  /** A smoothing factor of 0 leaves every curve as it was, with or without shape
      preservation. */
  lemma ZeroFactorIdentity(points: seq<Point>, params: Params, sqrt: real -> real)
    requires SqrtLaws(sqrt) && params.smoothingFactor == 0.0
    ensures Smoothed(points, params, sqrt) == points
  {
    if |points| >= 3 {
      SmoothTimesIdentity(points, MaxI(0, params.iterations));
      if params.preserveShape {
        PreservedShapeIdentity(points, sqrt);
      }
    }
  }

  /** Preserving the shape of an unmoved list changes nothing. */
  lemma PreservedShapeIdentity(points: seq<Point>, sqrt: real -> real)
    requires SqrtLaws(sqrt)
    ensures PreservedShape(points, points, sqrt) == points
  {
    var r := PreservedShape(points, points, sqrt);
    forall k | 0 <= k < |points|
      ensures r[k] == points[k]
    {
      DistLaws(points[k], points[k], sqrt);
    }
  }
}
