/** `PerpendicularOffsetAlgorithm`: every point moves by the offset distance along the
    normalised perpendicular of its neighbouring segments. */
module PerpendicularOffset {
  import opened Numeric
  import opened Wrappers
  import opened Geometry
  import opened OffsetCommon

  /** The unnormalised offset direction at point `i`: the perpendicular of the first
      segment at the start, of the last segment at the end, and the average of the
      incoming and outgoing perpendiculars in between. */
  function Direction(points: seq<Point>, i: nat): Point
    requires 2 <= |points| && i < |points|
  {
    if i == 0 then Perp(Sub(points[1], points[0]))
    else if i == |points| - 1 then Perp(Sub(points[i], points[i - 1]))
    else Mid(Perp(Sub(points[i], points[i - 1])), Perp(Sub(points[i + 1], points[i])))
  }

  /** Point `i` moved by `d` along its normalised direction. */
  function OffsetPoint(points: seq<Point>, i: nat, d: real, sqrt: real -> real): Point
    requires 2 <= |points| && i < |points|
  {
    Displace(points[i], Normalize(Direction(points, i), sqrt), d)
  }

  /** The list `generate_offset` returns: `None` for fewer than two points, otherwise one
      displaced point per input point. */
  function Offset(points: seq<Point>, d: real, sqrt: real -> real): (r: Option<seq<Point>>)
    ensures r.Some? <==> |points| >= 2
    ensures r.Some? ==> |r.value| == |points|
  {
    if |points| < 2 then None
    else Some(seq(|points|, i requires 0 <= i < |points| => OffsetPoint(points, i, d, sqrt)))
  }

  /** `generate_offset`: the loop over the points. */
  method GenerateOffset(points: seq<Point>, d: real, sqrt: real -> real) returns (r: Option<seq<Point>>)
    ensures r == Offset(points, d, sqrt)
  {
    if |points| < 2 {
      return None;
    }
    var offsetPoints: seq<Point> := [];
    for i := 0 to |points|
      invariant |offsetPoints| == i
      invariant forall k :: 0 <= k < i ==> offsetPoints[k] == OffsetPoint(points, k, d, sqrt)
    {
      var normal: Point;
      if i == 0 {
        normal := Perp(Sub(points[i + 1], points[i]));
      } else if i == |points| - 1 {
        normal := Perp(Sub(points[i], points[i - 1]));
      } else {
        var n1 := Perp(Sub(points[i], points[i - 1]));
        var n2 := Perp(Sub(points[i + 1], points[i]));
        normal := Point((n1.x + n2.x) / 2.0, (n1.y + n2.y) / 2.0);
      }
      assert normal == Direction(points, i);
      normal := Normalize(normal, sqrt);
      offsetPoints := offsetPoints + [Displace(points[i], normal, d)];
    }
    assert offsetPoints == Offset(points, d, sqrt).value;
    return Some(offsetPoints);
  }

  /** `validate_parameters` accepts every parameter dictionary. */
  function Validate(): (r: Outcome)
    ensures r.Pass?
  {
    Pass
  }

  /** The averaged direction at an interior point is the perpendicular of the chord from
      the previous to the next point, halved. */
  lemma InteriorDirectionIsChordPerp(points: seq<Point>, i: nat)
    requires 0 < i < |points| - 1
    ensures Direction(points, i) == Scale(Perp(Sub(points[i + 1], points[i - 1])), 0.5)
  {
  }

  /** With an exact square root every offset point lies at distance `|d|` from its input
      point when the direction there is not zero, and on it when the direction is zero (a
      repeated point, or an interior point whose two segments cancel). */
  lemma OffsetDistance(points: seq<Point>, d: real, sqrt: real -> real, i: nat)
    requires ExactSqrt(sqrt) && 2 <= |points| && i < |points|
    ensures MovedBy(points[i], Offset(points, d, sqrt).value[i], Direction(points, i), d)
  {
    var n := Normalize(Direction(points, i), sqrt);
    assert Offset(points, d, sqrt).value[i] == Displace(points[i], n, d);
    NormalizedUnitOrZero(Direction(points, i), sqrt);
    DisplaceMovesBy(points[i], n, d);
  }
}
