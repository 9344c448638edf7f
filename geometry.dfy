/** Plane geometry shared by the optimisation and offset algorithms.
    Coordinates are reals. The source's `math.sqrt` and `math.acos` are passed
    in as functions (`sqrt`, `acos`); the laws they obey are the predicates
    `SqrtLaws`, `ExactSqrt` and `AcosLaws`, assumed only where a lemma states them. */
module Geometry {
  import opened Numeric
  import opened Wrappers

  /** An `(x, y)` tuple of the source; also used for vectors. */
  datatype Point = Point(x: real, y: real)

  const Origin: Point := Point(0.0, 0.0)

  function Add(p: Point, q: Point): Point { Point(p.x + q.x, p.y + q.y) }

  function Sub(p: Point, q: Point): Point { Point(p.x - q.x, p.y - q.y) }

  function Scale(p: Point, k: real): Point { Point(p.x * k, p.y * k) }

  /** The midpoint `((x1 + x2) / 2, (y1 + y2) / 2)`. */
  function Mid(p: Point, q: Point): Point { Point((p.x + q.x) / 2.0, (p.y + q.y) / 2.0) }

  function Dot(u: Point, v: Point): real { u.x * v.x + u.y * v.y }

  function SqNorm(v: Point): real { v.x * v.x + v.y * v.y }

  /** The vector rotated a quarter turn counter-clockwise: `(-dy, dx)`. */
  function Perp(v: Point): Point { Point(-v.y, v.x) }

  /** `math.sqrt(x**2 + y**2)`. */
  function Norm(v: Point, sqrt: real -> real): real { sqrt(SqNorm(v)) }

  /** `math.sqrt((q.x - p.x)**2 + (q.y - p.y)**2)`. */
  function Dist(p: Point, q: Point, sqrt: real -> real): real { Norm(Sub(q, p), sqrt) }

  /** `math.sqrt` on non-negative arguments: non-negative, and zero exactly at zero. */
  ghost predicate SqrtLaws(sqrt: real -> real)
  {
    forall s :: 0.0 <= s ==> 0.0 <= sqrt(s) && (sqrt(s) == 0.0 <==> s == 0.0)
  }

  /** An exact square root; needed only where unit length is claimed. */
  ghost predicate ExactSqrt(sqrt: real -> real)
  {
    forall s :: 0.0 <= s ==> 0.0 <= sqrt(s) && sqrt(s) * sqrt(s) == s
  }

  /** `math.acos` maps [-1, 1] into [0, pi]. */
  ghost predicate AcosLaws(acos: real -> real)
  {
    forall c :: -1.0 <= c <= 1.0 ==> 0.0 <= acos(c) <= PI
  }

  /** One instance of `SqrtLaws`. */
  lemma SqrtAt(sqrt: real -> real, s: real)
    requires SqrtLaws(sqrt) && 0.0 <= s
    ensures 0.0 <= sqrt(s) && (sqrt(s) == 0.0 <==> s == 0.0)
  {
  }

  /** One instance of `ExactSqrt`. */
  lemma ExactSqrtAt(sqrt: real -> real, s: real)
    requires ExactSqrt(sqrt) && 0.0 <= s
    ensures 0.0 <= sqrt(s) && sqrt(s) * sqrt(s) == s
  {
  }

  lemma ExactSqrtHasLaws(sqrt: real -> real)
    requires ExactSqrt(sqrt)
    ensures SqrtLaws(sqrt)
  {
    forall s | 0.0 <= s
      ensures 0.0 <= sqrt(s) && (sqrt(s) == 0.0 <==> s == 0.0)
    {
      ExactSqrtAt(sqrt, s);
      if sqrt(s) != 0.0 {
        SquarePos(sqrt(s), s);
      }
    }
  }

  /** Two points are equal exactly when their difference is the zero vector, and a
      vector is zero exactly when its quarter-turn is. */
  lemma SubZero(a: Point, b: Point)
    ensures Sub(b, a) == Origin <==> a == b
    ensures Perp(Sub(b, a)) == Origin <==> a == b
  {
  }

  /** A non-zero vector has a positive squared length. */
  lemma SqNormPos(v: Point)
    requires v != Origin
    ensures 0.0 < SqNorm(v)
  {
    var a, b := v.x * v.x, v.y * v.y;
    SquareNonneg(v.x, a);
    SquareNonneg(v.y, b);
    if v.x != 0.0 {
      SquarePos(v.x, a);
    } else {
      SquarePos(v.y, b);
    }
  }

  /** The squared length is non-negative, and zero exactly for the zero vector. */
  lemma SqNormZero(v: Point)
    ensures 0.0 <= SqNorm(v)
    ensures SqNorm(v) == 0.0 <==> v == Origin
  {
    SquareNonneg(v.x, v.x * v.x);
    SquareNonneg(v.y, v.y * v.y);
    if v != Origin {
      SqNormPos(v);
    }
  }

  /** The length of a vector is non-negative, and zero exactly for the zero vector. */
  lemma NormLaws(v: Point, sqrt: real -> real)
    requires SqrtLaws(sqrt)
    ensures 0.0 <= Norm(v, sqrt)
    ensures Norm(v, sqrt) == 0.0 <==> v == Origin
  {
    SqNormZero(v);
    SqrtAt(sqrt, SqNorm(v));
  }

  /** A distance is non-negative, and zero exactly between equal points. */
  lemma {:induction false} DistLaws(p: Point, q: Point, sqrt: real -> real)
    requires SqrtLaws(sqrt)
    ensures 0.0 <= Dist(p, q, sqrt)
    ensures Dist(p, q, sqrt) == 0.0 <==> p == q
  {
    NormLaws(Sub(q, p), sqrt);
    assert Sub(q, p) == Origin <==> p == q;
  }

  /** Scale a vector to unit length when its magnitude is positive, else leave it:
      the `if mag > 0: x /= mag; y /= mag` guard the source repeats. */
  function Normalize(v: Point, sqrt: real -> real): (r: Point)
    ensures v == Origin ==> r == Origin
  {
    var mag := Norm(v, sqrt);
    if mag > 0.0 then Point(v.x / mag, v.y / mag) else v
  }

  /** With an exact square root a normalised vector is the zero vector or has unit length,
      and it points the same way as the input. */
  lemma {:induction false} NormalizeUnitOrZero(v: Point, sqrt: real -> real)
    requires ExactSqrt(sqrt)
    ensures v == Origin ==> Normalize(v, sqrt) == Origin
    ensures v != Origin ==> SqNorm(Normalize(v, sqrt)) == 1.0
    ensures v != Origin ==> exists k: real :: k > 0.0 && Normalize(v, sqrt) == Scale(v, k)
  {
    if v != Origin {
      var s := SqNorm(v);
      SqNormZero(v);
      var m := sqrt(s);
      ExactSqrtAt(sqrt, s);
      assert m != 0.0;
      var r := Normalize(v, sqrt);
      assert r == Point(v.x / m, v.y / m);
      assert r.x * m == v.x && r.y * m == v.y;
      calc {
        SqNorm(r) * (m * m);
        (r.x * m) * (r.x * m) + (r.y * m) * (r.y * m);
        s;
        1.0 * (m * m);
      }
      assert r == Scale(v, 1.0 / m);
    }
  }

  /** The angle between two vectors, `acos` of their clamped cosine, or `None` when
      either magnitude is not positive (the source's `if mag1 > 0 and mag2 > 0`). */
  function VectorAngle(u: Point, v: Point, sqrt: real -> real, acos: real -> real): Option<real>
  {
    var m1 := Norm(u, sqrt);
    var m2 := Norm(v, sqrt);
    if m1 > 0.0 && m2 > 0.0 then Some(acos(Clamp(-1.0, 1.0, Dot(u, v) / (m1 * m2))))
    else None
  }

  /** The angle at `b` between the rays to `a` and `c` (`v1 = a - b`, `v2 = c - b`):
      pi for a straight line, small for a sharp corner. */
  function InteriorAngle(a: Point, b: Point, c: Point, sqrt: real -> real, acos: real -> real): Option<real>
  {
    VectorAngle(Sub(a, b), Sub(c, b), sqrt, acos)
  }

  /** The turning angle at `b` (`v1 = b - a`, `v2 = c - b`): 0 for a straight line. */
  function TurningAngle(a: Point, b: Point, c: Point, sqrt: real -> real, acos: real -> real): Option<real>
  {
    VectorAngle(Sub(b, a), Sub(c, b), sqrt, acos)
  }

  /** An angle exists exactly when both adjacent segments have positive length,
      and then lies in [0, pi]. */
  lemma {:induction false} VectorAngleLaws(u: Point, v: Point, sqrt: real -> real, acos: real -> real)
    requires SqrtLaws(sqrt) && AcosLaws(acos)
    ensures VectorAngle(u, v, sqrt, acos).Some? <==> u != Origin && v != Origin
    ensures VectorAngle(u, v, sqrt, acos).Some? ==> 0.0 <= VectorAngle(u, v, sqrt, acos).value <= PI
  {
    NormLaws(u, sqrt);
    NormLaws(v, sqrt);
    var m1, m2 := Norm(u, sqrt), Norm(v, sqrt);
    if m1 > 0.0 && m2 > 0.0 {
      var c := Clamp(-1.0, 1.0, Dot(u, v) / (m1 * m2));
      assert -1.0 <= c <= 1.0;
    }
  }

  /** Twice the signed area of the triangle `a b c`, taken absolutely and halved:
      `abs((b.x-a.x)*(c.y-a.y) - (c.x-a.x)*(b.y-a.y)) / 2`. */
  function TriangleArea(a: Point, b: Point, c: Point): (r: real)
    ensures 0.0 <= r
  {
    AbsR((b.x - a.x) * (c.y - a.y) - (c.x - a.x) * (b.y - a.y)) / 2.0
  }

  /** The triangle-area curvature estimate at `b`: area over the product of the two
      segment lengths, capped at 1, and 0 when either segment is degenerate. */
  function Curvature(a: Point, b: Point, c: Point, sqrt: real -> real): (r: real)
    ensures 0.0 <= r <= 1.0
    ensures r > 0.0 ==> Dist(a, b, sqrt) > 0.0 && Dist(b, c, sqrt) > 0.0 && TriangleArea(a, b, c) > 0.0
  {
    var len1 := Dist(a, b, sqrt);
    var len2 := Dist(b, c, sqrt);
    if len1 > 0.0 && len2 > 0.0 then MinR(1.0, TriangleArea(a, b, c) / (len1 * len2)) else 0.0
  }

  /** Three points on one line have curvature 0. */
  lemma CollinearCurvature(a: Point, b: Point, c: Point, sqrt: real -> real)
    requires (b.x - a.x) * (c.y - a.y) == (c.x - a.x) * (b.y - a.y)
    ensures Curvature(a, b, c, sqrt) == 0.0
  {
  }

  /** Distance from `p` to the segment `a b`: project onto the segment with the
      parameter clamped to [0, 1]; a degenerate segment falls back to `|p - a|`. */
  function PointToSegmentDistance(p: Point, a: Point, b: Point, sqrt: real -> real): real
  {
    var len2 := SqNorm(Sub(b, a));
    if len2 == 0.0 then Dist(a, p, sqrt)
    else
      var t := Clamp(0.0, 1.0, Dot(Sub(p, a), Sub(b, a)) / len2);
      var closest := Add(a, Scale(Sub(b, a), t));
      Dist(closest, p, sqrt)
  }

  /** Every point-to-segment distance is non-negative. */
  lemma SegmentDistanceNonneg(p: Point, a: Point, b: Point, sqrt: real -> real)
    requires SqrtLaws(sqrt)
    ensures 0.0 <= PointToSegmentDistance(p, a, b, sqrt)
  {
    var d := Sub(b, a);
    if SqNorm(d) == 0.0 {
      DistLaws(a, p, sqrt);
    } else {
      var t := Clamp(0.0, 1.0, Dot(Sub(p, a), d) / SqNorm(d));
      DistLaws(Add(a, Scale(d, t)), p, sqrt);
    }
  }

  /** The segment's start lies at distance 0 from it. */
  lemma {:induction false} SegmentDistanceAtStart(a: Point, b: Point, sqrt: real -> real)
    requires SqrtLaws(sqrt)
    ensures PointToSegmentDistance(a, a, b, sqrt) == 0.0
  {
    StartIsClosest(a, b, sqrt);
    SqrtAt(sqrt, 0.0);
  }

  /** The segment's end lies at distance 0 from it. */
  lemma {:induction false} SegmentDistanceAtEnd(a: Point, b: Point, sqrt: real -> real)
    requires SqrtLaws(sqrt)
    ensures PointToSegmentDistance(b, a, b, sqrt) == 0.0
  {
    EndIsClosest(a, b, sqrt);
    SqrtAt(sqrt, 0.0);
  }

  /** The start of a segment is its own closest point, for any square root. */
  lemma StartIsClosest(a: Point, b: Point, sqrt: real -> real)
    ensures PointToSegmentDistance(a, a, b, sqrt) == sqrt(0.0)
  {
    var d := Sub(b, a);
    var len2 := SqNorm(d);
    assert Sub(a, a) == Origin;
    if len2 != 0.0 {
      var u := Dot(Sub(a, a), d);
      assert u == 0.0;
      var t := Clamp(0.0, 1.0, u / len2);
      assert t == 0.0;
      assert Add(a, Scale(d, t)) == a;
    }
  }

  /** The end of a segment is its own closest point, for any square root. */
  lemma EndIsClosest(a: Point, b: Point, sqrt: real -> real)
    ensures PointToSegmentDistance(b, a, b, sqrt) == sqrt(0.0)
  {
    var d := Sub(b, a);
    var len2 := SqNorm(d);
    assert Sub(b, b) == Origin;
    if len2 != 0.0 {
      var u := Dot(Sub(b, a), d);
      assert u == len2;
      DivSelf(len2, u / len2);
      var t := Clamp(0.0, 1.0, u / len2);
      assert t == 1.0;
      assert Add(a, Scale(d, t)) == b;
    }
  }

  /** The quadratic Bezier curve with control points `p1 p2 p3` at parameter `t`. */
  function QuadBezier(p1: Point, p2: Point, p3: Point, t: real): Point
  {
    Blend((1.0 - t) * (1.0 - t), 2.0 * (1.0 - t) * t, t * t, p1, p2, p3)
  }

  /** The weighted sum `w1 p1 + w2 p2 + w3 p3`, coordinate by coordinate. */
  function Blend(w1: real, w2: real, w3: real, p1: Point, p2: Point, p3: Point): Point
  {
    Point(w1 * p1.x + w2 * p2.x + w3 * p3.x, w1 * p1.y + w2 * p2.y + w3 * p3.y)
  }

  /** The x-extent of three points. */
  predicate WithinX(q: Point, p1: Point, p2: Point, p3: Point)
  {
    MinR(p1.x, MinR(p2.x, p3.x)) <= q.x <= MaxR(p1.x, MaxR(p2.x, p3.x))
  }

  /** The y-extent of three points. */
  predicate WithinY(q: Point, p1: Point, p2: Point, p3: Point)
  {
    MinR(p1.y, MinR(p2.y, p3.y)) <= q.y <= MaxR(p1.y, MaxR(p2.y, p3.y))
  }

  /** The three Bernstein weights of degree two are non-negative on [0, 1] and sum to one. */
  lemma BernsteinWeights(t: real, w1: real, w2: real, w3: real)
    requires 0.0 <= t <= 1.0
    requires w1 == (1.0 - t) * (1.0 - t) && w2 == 2.0 * (1.0 - t) * t && w3 == t * t
    ensures 0.0 <= w1 && 0.0 <= w2 && 0.0 <= w3 && w1 + w2 + w3 == 1.0
  {
    SquareNonneg(1.0 - t, w1);
    SquareNonneg(t, w3);
    ProductNonneg(2.0 * (1.0 - t), t, w2);
  }

  /** A point on the curve is a convex combination of its control points, so it stays
      inside their bounding box. */
  lemma {:induction false} QuadBezierInBox(p1: Point, p2: Point, p3: Point, t: real)
    requires 0.0 <= t <= 1.0
    ensures WithinX(QuadBezier(p1, p2, p3, t), p1, p2, p3)
    ensures WithinY(QuadBezier(p1, p2, p3, t), p1, p2, p3)
  {
    var w1, w2, w3 := (1.0 - t) * (1.0 - t), 2.0 * (1.0 - t) * t, t * t;
    BernsteinWeights(t, w1, w2, w3);
    BlendInBox(w1, w2, w3, p1, p2, p3);
  }

  /** A convex combination of three points lies in their bounding box. */
  lemma BlendInBox(w1: real, w2: real, w3: real, p1: Point, p2: Point, p3: Point)
    requires 0.0 <= w1 && 0.0 <= w2 && 0.0 <= w3 && w1 + w2 + w3 == 1.0
    ensures WithinX(Blend(w1, w2, w3, p1, p2, p3), p1, p2, p3)
    ensures WithinY(Blend(w1, w2, w3, p1, p2, p3), p1, p2, p3)
  {
    ConvexCombination(w1, w2, w3, p1.x, p2.x, p3.x);
    ConvexCombination(w1, w2, w3, p1.y, p2.y, p3.y);
  }

  /** A convex combination of three numbers lies between their minimum and maximum. */
  lemma ConvexCombination(w1: real, w2: real, w3: real, a: real, b: real, c: real)
    requires 0.0 <= w1 && 0.0 <= w2 && 0.0 <= w3 && w1 + w2 + w3 == 1.0
    ensures MinR(a, MinR(b, c)) <= w1 * a + w2 * b + w3 * c <= MaxR(a, MaxR(b, c))
  {
    var lo, hi := MinR(a, MinR(b, c)), MaxR(a, MaxR(b, c));
    MulLe(w1, lo, a, w1 * lo, w1 * a); MulLe(w1, a, hi, w1 * a, w1 * hi);
    MulLe(w2, lo, b, w2 * lo, w2 * b); MulLe(w2, b, hi, w2 * b, w2 * hi);
    MulLe(w3, lo, c, w3 * lo, w3 * c); MulLe(w3, c, hi, w3 * c, w3 * hi);
    WeightsSumToOne(w1, w2, w3, lo, w1 * lo, w2 * lo, w3 * lo);
    WeightsSumToOne(w1, w2, w3, hi, w1 * hi, w2 * hi, w3 * hi);
  }
}
