/** What the three offset algorithms share: moving a point by a distance along a
    direction that has been normalised with the `if mag > 0` guard. */
module OffsetCommon {
  import opened Numeric
  import opened Geometry

  /** `(p.x + n.x * d, p.y + n.y * d)`. */
  function Displace(p: Point, n: Point, d: real): Point
  {
    Add(p, Scale(n, d))
  }

  /** A unit vector, or the zero vector a degenerate direction normalises to. */
  ghost predicate UnitOrZero(n: Point)
  {
    n == Origin || SqNorm(n) == 1.0
  }

  /** `q` is `p` moved along the direction `n`: by exactly `|d|` when `n` is not zero, and
      not at all when it is. */
  ghost predicate MovedBy(p: Point, q: Point, n: Point, d: real)
  {
    && (n == Origin ==> q == p)
    && (n != Origin ==> SqNorm(Sub(q, p)) == d * d)
  }

  /** Scaling a vector scales its squared length by the square of the factor. */
  lemma ScaledLength(n: Point, d: real)
    ensures SqNorm(Scale(n, d)) == SqNorm(n) * (d * d)
  {
    calc {
      SqNorm(Scale(n, d));
      (n.x * d) * (n.x * d) + (n.y * d) * (n.y * d);
      (n.x * n.x) * (d * d) + (n.y * n.y) * (d * d);
      SqNorm(n) * (d * d);
    }
  }

  /** With an exact square root a normalised direction is a unit vector or zero. */
  lemma NormalizedUnitOrZero(v: Point, sqrt: real -> real)
    requires ExactSqrt(sqrt)
    ensures UnitOrZero(Normalize(v, sqrt))
    ensures Normalize(v, sqrt) == Origin <==> v == Origin
  {
    NormalizeUnitOrZero(v, sqrt);
    if v != Origin {
      assert SqNorm(Normalize(v, sqrt)) == 1.0;
      assert SqNorm(Origin) == 0.0;
    }
  }

  /** Displacing along a unit-or-zero direction moves the point by exactly `|d|`, and
      leaves it in place when the direction is zero. */
  lemma DisplaceMovesBy(p: Point, n: Point, d: real)
    requires UnitOrZero(n)
    ensures MovedBy(p, Displace(p, n, d), n, d)
  {
    var q := Displace(p, n, d);
    assert Sub(q, p) == Scale(n, d);
    if n != Origin {
      ScaledLength(n, d);
    }
  }

  /** Displacing along the normalised form of `v` moves the point by exactly `|d|` when
      `v` is not zero, and leaves it in place when it is. */
  lemma DisplaceAlongNormalized(p: Point, v: Point, d: real, sqrt: real -> real)
    requires ExactSqrt(sqrt)
    ensures MovedBy(p, Displace(p, Normalize(v, sqrt), d), v, d)
  {
    NormalizedUnitOrZero(v, sqrt);
    DisplaceMovesBy(p, Normalize(v, sqrt), d);
  }
}
