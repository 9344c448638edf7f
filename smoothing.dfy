/** Endpoint-pinned neighbour smoothing, written once in each of the two algorithm
    families (`SmoothingOptimizer._apply_smoothing` and `_apply_smoothing` of the parallel
    offset); both copies compute the same thing. */
module Smoothing {
  import opened Numeric
  import opened Geometry

  /** One interior point moved towards the mean of its neighbours:
      `curr * (1 - f) + (prev + next) * f / 2`, coordinate by coordinate. */
  function SmoothPoint(prev: Point, curr: Point, next: Point, f: real): Point
  {
    Point(curr.x * (1.0 - f) + (prev.x + next.x) * f / 2.0,
          curr.y * (1.0 - f) + (prev.y + next.y) * f / 2.0)
  }

  /** One smoothing pass: lists shorter than 3 come back as they are; otherwise the two
      endpoints stay and every interior point is smoothed against the ORIGINAL neighbours. */
  function SmoothPass(points: seq<Point>, f: real): (r: seq<Point>)
    ensures |r| == |points|
    ensures |points| > 0 ==> r[0] == points[0] && r[|r| - 1] == points[|points| - 1]
    ensures |points| < 3 ==> r == points
  {
    if |points| < 3 then points
    else
      [points[0]]
      + seq(|points| - 2, i requires 0 <= i < |points| - 2 =>
              SmoothPoint(points[i], points[i + 1], points[i + 2], f))
      + [points[|points| - 1]]
  }

  /** Every interior point of a pass is smoothed against its original neighbours. */
  lemma SmoothPassAt(points: seq<Point>, f: real, k: nat)
    requires 0 < k < |points| - 1
    ensures SmoothPass(points, f)[k] == SmoothPoint(points[k - 1], points[k], points[k + 1], f)
  {
    var inner := seq(|points| - 2, i requires 0 <= i < |points| - 2 =>
      SmoothPoint(points[i], points[i + 1], points[i + 2], f));
    assert SmoothPass(points, f) == [points[0]] + inner + [points[|points| - 1]];
    assert SmoothPass(points, f)[k] == inner[k - 1];
  }

  /** `_apply_smoothing`: the pass built by appending one point at a time. */
  method ApplySmoothing(points: seq<Point>, f: real) returns (smoothed: seq<Point>)
    ensures smoothed == SmoothPass(points, f)
  {
    if |points| < 3 {
      return points;
    }
    smoothed := [points[0]];
    for i := 1 to |points| - 1
      invariant |smoothed| == i
      invariant smoothed[0] == points[0]
      invariant forall k {:trigger smoothed[k]} :: 1 <= k < i ==>
        smoothed[k] == SmoothPoint(points[k - 1], points[k], points[k + 1], f)
    {
      smoothed := smoothed + [SmoothPoint(points[i - 1], points[i], points[i + 1], f)];
    }
    smoothed := smoothed + [points[|points| - 1]];
    var spec := SmoothPass(points, f);
    forall k | 0 <= k < |points|
      ensures smoothed[k] == spec[k]
    {
      if 0 < k < |points| - 1 {
        SmoothPassAt(points, f, k);
      }
    }
  }

  /** `k` successive passes. */
  function SmoothTimes(points: seq<Point>, f: real, k: nat): (r: seq<Point>)
    ensures |r| == |points|
    ensures |points| > 0 ==> r[0] == points[0] && r[|r| - 1] == points[|points| - 1]
    decreases k
  {
    if k == 0 then points else SmoothTimes(SmoothPass(points, f), f, k - 1)
  }

  /** The `for _ in range(iterations)` loop around `_apply_smoothing`; a negative count
      runs no pass, as an empty `range` does. */
  method SmoothRepeatedly(points: seq<Point>, f: real, iterations: int) returns (r: seq<Point>)
    ensures r == SmoothTimes(points, f, MaxI(0, iterations))
  {
    r := points;
    var n := MaxI(0, iterations);
    for k := 0 to n
      invariant r == SmoothTimes(points, f, k)
    {
      SmoothTimesLast(points, f, k);
      r := ApplySmoothing(r, f);
    }
  }

  /** `k + 1` passes are `k` passes followed by one more. */
  lemma {:induction false} SmoothTimesLast(points: seq<Point>, f: real, k: nat)
    ensures SmoothTimes(points, f, k + 1) == SmoothPass(SmoothTimes(points, f, k), f)
    decreases k
  {
    if k > 0 {
      SmoothTimesLast(SmoothPass(points, f), f, k - 1);
    }
  }

  /** A factor of 0 leaves every point where it was. */
  lemma SmoothPassIdentity(points: seq<Point>)
    ensures SmoothPass(points, 0.0) == points
  {
    if |points| >= 3 {
      var r := SmoothPass(points, 0.0);
      forall k | 0 <= k < |points|
        ensures r[k] == points[k]
      {
        if 0 < k < |points| - 1 {
          SmoothPassAt(points, 0.0, k);
          SmoothPointIdentity(points[k - 1], points[k], points[k + 1]);
        }
      }
    }
  }

  lemma SmoothPointIdentity(prev: Point, curr: Point, next: Point)
    ensures SmoothPoint(prev, curr, next, 0.0) == curr
  {
  }

  /** Any number of passes at factor 0 is the identity. */
  lemma {:induction false} SmoothTimesIdentity(points: seq<Point>, k: nat)
    ensures SmoothTimes(points, 0.0, k) == points
    decreases k
  {
    if k > 0 {
      SmoothPassIdentity(points);
      SmoothTimesIdentity(points, k - 1);
    }
  }

  /** For a factor in [0, 1] a smoothed point is a convex combination of the point and its
      two neighbours (weights `f/2`, `1 - f`, `f/2`), so it stays in their bounding box. */
  lemma SmoothPointInBox(prev: Point, curr: Point, next: Point, f: real)
    requires 0.0 <= f <= 1.0
    ensures WithinX(SmoothPoint(prev, curr, next, f), prev, curr, next)
    ensures WithinY(SmoothPoint(prev, curr, next, f), prev, curr, next)
  {
    SmoothCoordinateInRange(prev.x, curr.x, next.x, f);
    SmoothCoordinateInRange(prev.y, curr.y, next.y, f);
  }

  /** One coordinate of a smoothed point lies between the least and the greatest of the
      three coordinates it is made from. */
  lemma SmoothCoordinateInRange(p: real, c: real, n: real, f: real)
    requires 0.0 <= f <= 1.0
    ensures MinR(p, MinR(c, n)) <= c * (1.0 - f) + (p + n) * f / 2.0 <= MaxR(p, MaxR(c, n))
  {
    var half, rest := f / 2.0, 1.0 - f;
    assert c * (1.0 - f) + (p + n) * f / 2.0 == half * p + rest * c + half * n;
    ConvexCombination(half, rest, half, p, c, n);
  }
}
