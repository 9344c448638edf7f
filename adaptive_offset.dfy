/** `AdaptiveOffsetAlgorithm`: the perpendicular offset with a distance that shrinks at
    sharply curved vertices and grows, up to a cap, where the curve is flat. */
module AdaptiveOffset {
  import opened Numeric
  import opened Wrappers
  import opened Geometry
  import opened Polyline
  import opened OffsetCommon
  import PerpendicularOffset

  /** The entries of the parameter dictionary the algorithm reads. */
  datatype Params = Params(curvatureThreshold: real, maxDistanceFactor: real)

  /** The values `parameters.get` falls back to. */
  const Defaults: Params := Params(0.3, 2.0)

  /** `validate_parameters`: the threshold must lie in [0, 1] (checked first) and the
      distance factor must exceed 1. */
  function Validate(p: Params): (r: Outcome)
    ensures r.Pass? <==> 0.0 <= p.curvatureThreshold <= 1.0 && p.maxDistanceFactor > 1.0
    ensures !(0.0 <= p.curvatureThreshold <= 1.0) ==> r == Fail("curvature threshold must be between 0.0 and 1.0")
  {
    if !(0.0 <= p.curvatureThreshold <= 1.0) then Fail("curvature threshold must be between 0.0 and 1.0")
    else if p.maxDistanceFactor <= 1.0 then Fail("max distance factor must be greater than 1.0")
    else Pass
  }

  /** The offset distance at an interior vertex of curvature `c`: `d * (1 - c/2)` above
      the threshold, otherwise `min(d * factor, d * (1 + 0.3 * (1 - c)))`. */
  function ModulatedDistance(c: real, d: real, params: Params): real
  {
    if c > params.curvatureThreshold then d * (1.0 - c * 0.5)
    else MinR(d * params.maxDistanceFactor, d * (1.0 + (1.0 - c) * 0.3))
  }

  /** The offset distance at point `i`: `d` at the two ends, modulated by the vertex
      curvature in between. */
  function AdjustedDistance(points: seq<Point>, i: nat, d: real, params: Params, sqrt: real -> real): real
    requires i < |points|
  {
    if i == 0 || i == |points| - 1 then d
    else ModulatedDistance(VertexCurvature(points, i, sqrt), d, params)
  }

  /** For a curvature in [0, 1], a non-negative distance and a factor of at least one
      half, the modulated distance stays within [d/2, 1.3 d]. */
  lemma ModulatedDistanceBounds(c: real, d: real, params: Params)
    requires 0.0 <= c <= 1.0 && 0.0 <= d && params.maxDistanceFactor >= 0.5
    ensures 0.5 * d <= ModulatedDistance(c, d, params) <= 1.3 * d
  {
    if c > params.curvatureThreshold {
      MulLe(d, 0.5, 1.0 - c * 0.5, d * 0.5, d * (1.0 - c * 0.5));
      MulLe(d, 1.0 - c * 0.5, 1.0, d * (1.0 - c * 0.5), d * 1.0);
    } else {
      MulLe(d, 1.0, 1.0 + (1.0 - c) * 0.3, d * 1.0, d * (1.0 + (1.0 - c) * 0.3));
      MulLe(d, 1.0 + (1.0 - c) * 0.3, 1.3, d * (1.0 + (1.0 - c) * 0.3), d * 1.3);
      MulLe(d, 0.5, params.maxDistanceFactor, d * 0.5, d * params.maxDistanceFactor);
    }
  }

  /** Every point's offset distance stays within [d/2, 1.3 d] for a non-negative distance
      and a factor of at least one half (every accepted factor is above 1). */
  lemma AdjustedDistanceBounds(points: seq<Point>, i: nat, d: real, params: Params, sqrt: real -> real)
    requires i < |points| && 0.0 <= d && params.maxDistanceFactor >= 0.5
    ensures 0.5 * d <= AdjustedDistance(points, i, d, params, sqrt) <= 1.3 * d
  {
    if 0 < i < |points| - 1 {
      ModulatedDistanceBounds(VertexCurvature(points, i, sqrt), d, params);
    }
  }

  /** On a straight stretch (curvature 0, below any non-negative threshold) an interior
      point is offset by `min(d * factor, 1.3 d)`, not by `d`. */
  lemma StraightLineDistance(points: seq<Point>, i: nat, d: real, params: Params, sqrt: real -> real)
    requires 0 < i < |points| - 1 && 0.0 <= params.curvatureThreshold
    requires (points[i].x - points[i - 1].x) * (points[i + 1].y - points[i - 1].y)
          == (points[i + 1].x - points[i - 1].x) * (points[i].y - points[i - 1].y)
    ensures AdjustedDistance(points, i, d, params, sqrt) == MinR(d * params.maxDistanceFactor, d * 1.3)
  {
    CollinearCurvature(points[i - 1], points[i], points[i + 1], sqrt);
  }

  /** With the default parameters a positive distance on a straight stretch becomes
      `1.3 d` at every interior point. */
  lemma StraightLineDefaults(points: seq<Point>, i: nat, d: real, sqrt: real -> real)
    requires 0 < i < |points| - 1 && 0.0 < d
    requires (points[i].x - points[i - 1].x) * (points[i + 1].y - points[i - 1].y)
          == (points[i + 1].x - points[i - 1].x) * (points[i].y - points[i - 1].y)
    ensures AdjustedDistance(points, i, d, Defaults, sqrt) == 1.3 * d
    ensures AdjustedDistance(points, i, d, Defaults, sqrt) != d
  {
    StraightLineDistance(points, i, d, Defaults, sqrt);
    MulLe(d, 1.3, 2.0, d * 1.3, d * 2.0);
  }

  /** The unnormalised direction at point `i`: the perpendicular of the first or last
      segment at the ends, and of half the chord from the previous to the next point in
      between. */
  function Direction(points: seq<Point>, i: nat): Point
    requires 2 <= |points| && i < |points|
  {
    if i == 0 then Perp(Sub(points[1], points[0]))
    else if i == |points| - 1 then Perp(Sub(points[i], points[i - 1]))
    else
      Perp(Point((points[i + 1].x - points[i - 1].x) / 2.0, (points[i + 1].y - points[i - 1].y) / 2.0))
  }

  /** Point for point, the direction is the perpendicular algorithm's. */
  lemma SameDirectionAsPerpendicular(points: seq<Point>, i: nat)
    requires 2 <= |points| && i < |points|
    ensures Direction(points, i) == PerpendicularOffset.Direction(points, i)
  {
  }

  /** Point `i` moved by its adjusted distance along its normalised direction. */
  function OffsetPoint(points: seq<Point>, i: nat, d: real, params: Params, sqrt: real -> real): Point
    requires 2 <= |points| && i < |points|
  {
    Displace(points[i], Normalize(Direction(points, i), sqrt), AdjustedDistance(points, i, d, params, sqrt))
  }

  /** The list `generate_offset` returns: `None` for fewer than two points, otherwise one
      displaced point per input point. */
  function Offset(points: seq<Point>, d: real, params: Params, sqrt: real -> real): (r: Option<seq<Point>>)
    ensures r.Some? <==> |points| >= 2
    ensures r.Some? ==> |r.value| == |points|
  {
    if |points| < 2 then None
    else Some(seq(|points|, i requires 0 <= i < |points| => OffsetPoint(points, i, d, params, sqrt)))
  }

  /** `generate_offset`: the loop over the points. */
  method GenerateOffset(points: seq<Point>, d: real, params: Params, sqrt: real -> real)
    returns (r: Option<seq<Point>>)
    ensures r == Offset(points, d, params, sqrt)
  {
    if |points| < 2 {
      return None;
    }
    var offsetPoints: seq<Point> := [];
    for i := 0 to |points|
      invariant |offsetPoints| == i
      invariant forall k :: 0 <= k < i ==> offsetPoints[k] == OffsetPoint(points, k, d, params, sqrt)
    {
      var p := GenerateOffsetPoint(points, i, d, params, sqrt);
      offsetPoints := offsetPoints + [p];
    }
    OffsetPointwise(points, d, params, sqrt, offsetPoints);
    return Some(offsetPoints);
  }

  /** The body of the loop of `generate_offset` for point `i`: the distance adjusted by the
      curvature, then the move along the normalised direction. */
  method GenerateOffsetPoint(points: seq<Point>, i: nat, d: real, params: Params, sqrt: real -> real)
    returns (p: Point)
    requires 2 <= |points| && i < |points|
    ensures p == OffsetPoint(points, i, d, params, sqrt)
  {
    var adjusted: real;
    if i == 0 || i == |points| - 1 {
      adjusted := d;
    } else {
      var curvature := VertexCurvature(points, i, sqrt);
      if curvature > params.curvatureThreshold {
        adjusted := d * (1.0 - curvature * 0.5);
      } else {
        adjusted := MinR(d * params.maxDistanceFactor, d * (1.0 + (1.0 - curvature) * 0.3));
      }
    }
    var dx: real, dy: real;
    if i == 0 {
      dx, dy := points[i + 1].x - points[i].x, points[i + 1].y - points[i].y;
    } else if i == |points| - 1 {
      dx, dy := points[i].x - points[i - 1].x, points[i].y - points[i - 1].y;
    } else {
      dx, dy := (points[i + 1].x - points[i - 1].x) / 2.0, (points[i + 1].y - points[i - 1].y) / 2.0;
    }
    var normal := Point(-dy, dx);
    assert normal == Direction(points, i);
    assert adjusted == AdjustedDistance(points, i, d, params, sqrt);
    normal := Normalize(normal, sqrt);
    p := Displace(points[i], normal, adjusted);
  }

  /** A list that agrees with `OffsetPoint` at every index is the offset. */
  lemma OffsetPointwise(points: seq<Point>, d: real, params: Params, sqrt: real -> real, s: seq<Point>)
    requires 2 <= |points| == |s|
    requires forall k :: 0 <= k < |s| ==> s[k] == OffsetPoint(points, k, d, params, sqrt)
    ensures Offset(points, d, params, sqrt) == Some(s)
  {
    var o := seq(|points|, i requires 0 <= i < |points| => OffsetPoint(points, i, d, params, sqrt));
    assert Offset(points, d, params, sqrt) == Some(o);
    assert forall k :: 0 <= k < |s| ==> o[k] == s[k];
    assert o == s;
  }

  /** At both ends the adaptive and the perpendicular offsets produce the same point. */
  lemma EndpointsAgreeWithPerpendicular(points: seq<Point>, d: real, params: Params, sqrt: real -> real)
    requires |points| >= 2
    ensures Offset(points, d, params, sqrt).value[0] == PerpendicularOffset.Offset(points, d, sqrt).value[0]
    ensures Offset(points, d, params, sqrt).value[|points| - 1]
         == PerpendicularOffset.Offset(points, d, sqrt).value[|points| - 1]
  {
    SameDirectionAsPerpendicular(points, 0);
    SameDirectionAsPerpendicular(points, |points| - 1);
  }

  /** With an exact square root every offset point lies at its adjusted distance from its
      input point when the direction there is not zero, and on it when the direction is
      zero. */
  lemma OffsetDistance(points: seq<Point>, d: real, params: Params, sqrt: real -> real, i: nat)
    requires ExactSqrt(sqrt) && 2 <= |points| && i < |points|
    ensures MovedBy(points[i], Offset(points, d, params, sqrt).value[i], Direction(points, i),
                    AdjustedDistance(points, i, d, params, sqrt))
  {
    var n := Normalize(Direction(points, i), sqrt);
    var a := AdjustedDistance(points, i, d, params, sqrt);
    assert Offset(points, d, params, sqrt).value[i] == Displace(points[i], n, a);
    NormalizedUnitOrZero(Direction(points, i), sqrt);
    DisplaceMovesBy(points[i], n, a);
  }
}
