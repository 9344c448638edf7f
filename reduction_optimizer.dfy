/** `PointReductionOptimizer`: Douglas-Peucker simplification with a tolerance scaled to
    the curve's size, uniform resampling down to a target count, then reinsertion of
    the original high-curvature points. */
module ReductionOptimizer {
  import opened Numeric
  import opened Wrappers
  import opened Geometry
  import opened Polyline

  /** The entries of the parameter dictionary the optimiser reads. */
  datatype Params = Params(maxPointReduction: real, preserveShape: bool)

  /** The values `parameters.get` falls back to. */
  const Defaults: Params := Params(0.5, true)

  /** `validate_parameters`: the maximum reduction must lie in [0.1, 0.9]. */
  function Validate(p: Params): (r: Outcome)
    ensures r.Pass? <==> 0.1 <= p.maxPointReduction <= 0.9
  {
    if !(0.1 <= p.maxPointReduction <= 0.9) then Fail("maximum point reduction must be between 0.1 and 0.9")
    else Pass
  }

  /** `max(2, int(len(points) * (1.0 - max_reduction)))`. */
  function TargetCount(n: nat, maxReduction: real): (r: int)
    ensures r >= 2
  {
    MaxI(2, Trunc(n as real * (1.0 - maxReduction)))
  }

  /** With a valid reduction ratio and at least three points the target is at least 2 and
      strictly below the number of points, so reduction always runs. */
  lemma TargetCountBelow(n: nat, maxReduction: real)
    requires n >= 3 && 0.1 <= maxReduction <= 0.9
    ensures 2 <= TargetCount(n, maxReduction) < n
  {
    MulLe(n as real, 1.0 - maxReduction, 0.9, n as real * (1.0 - maxReduction), n as real * 0.9);
  }

  /** The larger side of the bounding box. */
  function CurveSize(points: seq<Point>): (r: real)
    requires |points| > 0
    ensures 0.0 <= r
    ensures forall i, j :: 0 <= i < |points| && 0 <= j < |points| ==>
      points[i].x - points[j].x <= r && points[i].y - points[j].y <= r
  {
    MaxR(MaxOf(Xs(points)) - MinOf(Xs(points)), MaxOf(Ys(points)) - MinOf(Ys(points)))
  }

  /** `_calculate_adaptive_tolerance`: 0 when no reduction is needed; otherwise a tenth of
      the curve size scaled by the fraction of points to drop, but never below 0.001. */
  function AdaptiveTolerance(points: seq<Point>, target: int): (r: real)
    requires target >= 0
    ensures |points| <= target ==> r == 0.0
    ensures |points| > target ==> r >= 0.001
  {
    if |points| <= target then 0.0
    else
      var ratio := 1.0 - target as real / |points| as real;
      MaxR(0.001, CurveSize(points) * ratio * 0.1)
  }

  /** How far interior point `i` lies from the chord `points[start] points[end]`. */
  function Deviation(points: seq<Point>, start: nat, end: nat, i: nat, sqrt: real -> real): real
    requires start < |points| && end < |points| && i < |points|
  {
    PointToSegmentDistance(points[i], points[start], points[end], sqrt)
  }

  /** The scan of `_douglas_peucker_recursive` for the farthest interior point: it starts
      at distance 0 at `start` and moves only on a strictly larger distance. */
  method FarthestPoint(points: seq<Point>, start: nat, end: nat, sqrt: real -> real)
    returns (maxIndex: nat, maxDistance: real)
    requires start < end < |points|
    ensures 0.0 <= maxDistance
    ensures forall i :: start < i < end ==> Deviation(points, start, end, i, sqrt) <= maxDistance
    ensures maxIndex == start ==> maxDistance == 0.0
    ensures maxIndex != start ==>
      && start < maxIndex < end
      && maxDistance == Deviation(points, start, end, maxIndex, sqrt)
      && forall i :: start < i < maxIndex ==> Deviation(points, start, end, i, sqrt) < maxDistance
  {
    maxDistance := 0.0;
    maxIndex := start;
    for i := start + 1 to end
      invariant 0.0 <= maxDistance
      invariant forall k :: start < k < i ==> Deviation(points, start, end, k, sqrt) <= maxDistance
      invariant maxIndex == start ==> maxDistance == 0.0
      invariant maxIndex != start ==>
        && start < maxIndex < i
        && maxDistance == Deviation(points, start, end, maxIndex, sqrt)
        && forall k :: start < k < maxIndex ==> Deviation(points, start, end, k, sqrt) < maxDistance
    {
      var distance := PointToSegmentDistance(points[i], points[start], points[end], sqrt);
      if distance > maxDistance {
        maxDistance := distance;
        maxIndex := i;
      }
    }
  }

  /** `a` and `b` are neighbours in `K`: both in it, and nothing of it in between. */
  ghost predicate Neighbours(K: set<nat>, a: nat, b: nat)
  {
    a in K && b in K && a < b && forall j :: a < j < b ==> j !in K
  }

  /** The Douglas-Peucker guarantee for the kept set `K`: every point between two
      neighbouring kept indices lies within `tolerance` of the chord joining them. */
  ghost predicate WithinTolerance(points: seq<Point>, K: set<nat>, tolerance: real, sqrt: real -> real)
  {
    forall a: nat, b: nat, i: nat :: Neighbours(K, a, b) && a < i < b && b < |points| ==>
      Deviation(points, a, b, i, sqrt) <= tolerance
  }

  /** `_douglas_peucker_recursive`: the indices kept strictly between `start` and `end`.
      Nothing is kept exactly when every interior point lies within the tolerance of the
      chord; otherwise the farthest point (the first one at the largest distance) is kept.
      Every point left out lies within the tolerance of the chord joining its nearest kept
      neighbours, `start` and `end` included. A negative tolerance is excluded: with it a
      chord whose interior points all lie on it would recurse on the same range forever. */
  method DouglasPeuckerRecursive(points: seq<Point>, start: nat, end: nat, tolerance: real,
                                 sqrt: real -> real)
    returns (kept: set<nat>)
    requires start <= end < |points|
    requires tolerance >= 0.0
    ensures forall i :: i in kept ==> start < i < end
    ensures kept == {} <==> forall i :: start < i < end ==> Deviation(points, start, end, i, sqrt) <= tolerance
    ensures forall m :: (start < m < end && FirstFarthest(points, start, end, m, sqrt) &&
                         Deviation(points, start, end, m, sqrt) > tolerance) ==> m in kept
    ensures WithinTolerance(points, WithEnds(kept, start, end), tolerance, sqrt)
    decreases end - start
  {
    if end - start <= 1 {
      NoRoomWithinTolerance(points, start, end, tolerance, sqrt);
      return {};
    }
    var maxIndex, maxDistance := FarthestPoint(points, start, end, sqrt);
    kept := {};
    if maxDistance > tolerance {
      var left := DouglasPeuckerRecursive(points, start, maxIndex, tolerance, sqrt);
      var right := DouglasPeuckerRecursive(points, maxIndex, end, tolerance, sqrt);
      kept := {maxIndex} + left + right;
      SplitWithinTolerance(points, start, maxIndex, end, left, right, tolerance, sqrt);
      forall m | start < m < end && FirstFarthest(points, start, end, m, sqrt)
        ensures m == maxIndex
      {
        FirstFarthestUnique(points, start, end, m, maxIndex, sqrt);
      }
    } else {
      ChordWithinTolerance(points, start, end, tolerance, sqrt);
    }
  }

  /** The kept indices together with the two ends of the range. */
  function WithEnds(kept: set<nat>, start: nat, end: nat): set<nat>
  {
    kept + {start, end}
  }

  /** `m` is the first interior point at the largest distance from the chord. */
  ghost predicate FirstFarthest(points: seq<Point>, start: nat, end: nat, m: nat, sqrt: real -> real)
    requires start < m < end < |points|
  {
    && (forall i :: start < i < end ==> Deviation(points, start, end, i, sqrt) <= Deviation(points, start, end, m, sqrt))
    && (forall i :: start < i < m ==> Deviation(points, start, end, i, sqrt) < Deviation(points, start, end, m, sqrt))
  }

  /** There is only one first farthest point. */
  lemma FirstFarthestUnique(points: seq<Point>, start: nat, end: nat, m1: nat, m2: nat, sqrt: real -> real)
    requires start < m1 < end < |points| && start < m2 < end
    requires FirstFarthest(points, start, end, m1, sqrt) && FirstFarthest(points, start, end, m2, sqrt)
    ensures m1 == m2
  {
  }

  /** With no index strictly between `start` and `end` there is nothing to check. */
  lemma NoRoomWithinTolerance(points: seq<Point>, start: nat, end: nat, tolerance: real, sqrt: real -> real)
    requires start <= end <= start + 1
    ensures WithinTolerance(points, {start, end}, tolerance, sqrt)
  {
  }

  /** When every interior point lies within the tolerance of the chord, keeping only the
      two ends meets the guarantee. */
  lemma ChordWithinTolerance(points: seq<Point>, start: nat, end: nat, tolerance: real, sqrt: real -> real)
    requires start < end < |points|
    requires forall i :: start < i < end ==> Deviation(points, start, end, i, sqrt) <= tolerance
    ensures WithinTolerance(points, {start, end}, tolerance, sqrt)
  {
    forall a: nat, b: nat, i: nat | Neighbours({start, end}, a, b) && a < i < b && b < |points|
      ensures Deviation(points, a, b, i, sqrt) <= tolerance
    {
      assert a == start && b == end;
    }
  }

  /** The guarantee for both halves of a split at `mid` gives it for the whole range:
      neighbours in the union never straddle `mid`, which is kept. */
  lemma SplitWithinTolerance(points: seq<Point>, start: nat, mid: nat, end: nat,
                             left: set<nat>, right: set<nat>, tolerance: real, sqrt: real -> real)
    requires start < mid < end
    requires forall i :: i in left ==> start < i < mid
    requires forall i :: i in right ==> mid < i < end
    requires WithinTolerance(points, left + {start, mid}, tolerance, sqrt)
    requires WithinTolerance(points, right + {mid, end}, tolerance, sqrt)
    ensures WithinTolerance(points, {mid} + left + right + {start, end}, tolerance, sqrt)
  {
    var K := {mid} + left + right + {start, end};
    var L := left + {start, mid};
    var R := right + {mid, end};
    forall a: nat, b: nat, i: nat | Neighbours(K, a, b) && a < i < b && b < |points|
      ensures Deviation(points, a, b, i, sqrt) <= tolerance
    {
      if b <= mid {
        assert a in L && b in L;
        assert Neighbours(L, a, b);
      } else {
        assert mid in K;
        assert !(a < mid);
        assert a in R && b in R;
        assert Neighbours(R, a, b);
      }
    }
  }

  /** Position `i` of the uniform resampling of `len` points down to `target`:
      `min(round(i * step), len - 1)` with `step = len / (target - 1)`. Over exact reals
      `i * step` is `(i * len) / (target - 1)`, which is the form used here. */
  function ResampleIndex(len: nat, target: nat, i: nat): (r: nat)
    requires len >= 1 && target >= 2
    ensures r < len
  {
    MinI(RoundHalfEven((i * len) as real / (target - 1) as real), len - 1)
  }

  /** All positions of the resampling. */
  function ResampleIndices(len: nat, target: nat): (r: seq<nat>)
    requires len >= 1 && target >= 2
    ensures |r| == target && AllBelow(r, len)
  {
    seq(target, i requires 0 <= i < target => ResampleIndex(len, target, i))
  }

  /** The resampling starts at the first point, ends at the last, and never goes back;
      it need not be strictly increasing (see `ResampleRepeats`). */
  lemma ResampleIndicesShape(len: nat, target: nat)
    requires len > target >= 2
    ensures ResampleIndices(len, target)[0] == 0
    ensures ResampleIndices(len, target)[target - 1] == len - 1
    ensures Nondecreasing(ResampleIndices(len, target))
  {
    ResampleFirst(len, target);
    ResampleLast(len, target);
    var idx := ResampleIndices(len, target);
    forall i, j | 0 <= i < j < target
      ensures idx[i] <= idx[j]
    {
      ResampleMonotone(len, target, i, j);
    }
  }

  lemma ResampleFirst(len: nat, target: nat)
    requires len >= 1 && target >= 2
    ensures ResampleIndex(len, target, 0) == 0
  {
    RoundHalfEvenOfInt(0);
  }

  lemma ResampleLast(len: nat, target: nat)
    requires len >= 1 && target >= 2
    ensures ResampleIndex(len, target, target - 1) == len - 1
  {
    var t := (target - 1) as real;
    assert ((target - 1) * len) as real == t * len as real;
    assert (t * len as real) / t == len as real;
    RoundHalfEvenOfInt(len);
  }

  lemma ResampleMonotone(len: nat, target: nat, i: nat, j: nat)
    requires len >= 1 && target >= 2 && i <= j
    ensures ResampleIndex(len, target, i) <= ResampleIndex(len, target, j)
  {
    assert i * len <= j * len;
    RoundHalfEvenMonotone((i * len) as real / (target - 1) as real,
                          (j * len) as real / (target - 1) as real);
  }

  /** Seven points resampled to six visit index 6 twice. */
  lemma ResampleRepeats()
    ensures ResampleIndices(7, 6) == [0, 1, 3, 4, 6, 6]
  {
    var idx := ResampleIndices(7, 6);
    assert idx[0] == 0 by { RoundHalfEvenOfInt(0); }
    assert idx[1] == 1;
    assert idx[2] == 3;
    assert idx[3] == 4;
    assert idx[4] == 6;
    assert idx[5] == 6 by { RoundHalfEvenOfInt(7); }
  }

  /** `_reduce_to_target_count`. A target below 2 is excluded: the step would divide by
      zero (the only caller passes at least 2). */
  method ReduceToTarget(points: seq<Point>, target: nat) returns (r: seq<Point>)
    requires target >= 2
    ensures |points| <= target ==> r == points
    ensures |points| > target ==> r == Gather(points, ResampleIndices(|points|, target))
  {
    if |points| <= target {
      return points;
    }
    r := [];
    for i := 0 to target
      invariant |r| == i
      invariant forall k :: 0 <= k < i ==> r[k] == points[ResampleIndex(|points|, target, k)]
    {
      var index := RoundHalfEven((i * |points|) as real / (target - 1) as real);
      index := MinI(index, |points| - 1);
      r := r + [points[index]];
    }
  }

  /** `kept` picks points of a list of `n` in index order (repeats allowed), starting with
      the first point and ending with the last. */
  ghost predicate KeptInOrder(n: nat, kept: seq<nat>)
  {
    |kept| >= 2 && AllBelow(kept, n) && Nondecreasing(kept) && kept[0] == 0 && Last(kept) == n - 1
  }

  /** What `_douglas_peucker_reduction` keeps of a list longer than `target`: `dp` holds
      both ends and meets the Douglas-Peucker guarantee for the adaptive tolerance, and
      `kept` is `dp` in ascending order, resampled to `target` indices when it is longer. */
  ghost predicate Reduced(points: seq<Point>, target: nat, kept: seq<nat>, dp: set<nat>, sqrt: real -> real)
    requires target >= 2
  {
    && |points| >= 1 && 0 in dp && |points| - 1 in dp
    && (forall i :: i in dp ==> i < |points|)
    && WithinTolerance(points, dp, AdaptiveTolerance(points, target), sqrt)
    && kept == if |Ascending(dp, |points|)| <= target then Ascending(dp, |points|)
               else ResampledIndices(points, Ascending(dp, |points|), target)
  }

  /** The positions `0 .. n - 1`. */
  function AllIndices(n: nat): (r: seq<nat>)
    ensures |r| == n && forall i :: 0 <= i < n ==> r[i] == i
  {
    seq(n, i requires 0 <= i < n => i)
  }

  /** Gathering every position gives the list back, in order from its first point to its
      last. */
  lemma GatherAllIndices(points: seq<Point>)
    requires |points| >= 2
    ensures KeptInOrder(|points|, AllIndices(|points|))
    ensures Gather(points, AllIndices(|points|)) == points
  {
    var idx := AllIndices(|points|);
    assert Gather(points, idx) == points;
    assert Nondecreasing(idx);
  }

  /** `_douglas_peucker_reduction`. A list within the target comes back unchanged.
      Otherwise the result has between 2 and `target` points: the Douglas-Peucker choice
      `dp` for the adaptive tolerance, with both ends added, taken in index order and
      resampled to `target` points when it has more. */
  method DouglasPeuckerReduction(points: seq<Point>, target: nat, sqrt: real -> real)
    returns (r: seq<Point>, ghost kept: seq<nat>, ghost dp: set<nat>)
    requires target >= 2
    ensures |points| <= target ==> r == points
    ensures |points| >= 2 ==> KeptInOrder(|points|, kept) && r == Gather(points, kept)
    ensures |points| > target ==> 2 <= |r| <= target && Reduced(points, target, kept, dp, sqrt)
  {
    kept, dp := AllIndices(|points|), {};
    if |points| <= target {
      if |points| >= 2 {
        GatherAllIndices(points);
      }
      return points, kept, dp;
    }
    r, kept, dp := ReduceLong(points, target, sqrt);
  }

  /** `_douglas_peucker_reduction` on a list longer than the target. */
  method ReduceLong(points: seq<Point>, target: nat, sqrt: real -> real)
    returns (r: seq<Point>, ghost kept: seq<nat>, ghost dp: set<nat>)
    requires |points| > target >= 2
    ensures 2 <= |r| <= target
    ensures KeptInOrder(|points|, kept) && r == Gather(points, kept)
    ensures Reduced(points, target, kept, dp, sqrt)
  {
    var n := |points|;
    var indices := DouglasPeuckerIndices(points, AdaptiveTolerance(points, target), sqrt);
    dp := indices;
    var ordered := Ascending(indices, n);
    AscendingEnds(indices, n);
    StrictlyIncreasingIsNondecreasing(ordered);
    r, kept := GatherWithinTarget(points, ordered, target);
    ReducedIntro(points, target, kept, dp, sqrt);
  }

  /** The Douglas-Peucker indices for the adaptive tolerance, both ends included. */
  method DouglasPeuckerIndices(points: seq<Point>, tolerance: real, sqrt: real -> real) returns (dp: set<nat>)
    requires |points| >= 1 && tolerance >= 0.0
    ensures 0 in dp && |points| - 1 in dp
    ensures forall i :: i in dp ==> i < |points|
    ensures WithinTolerance(points, dp, tolerance, sqrt)
  {
    var interior := DouglasPeuckerRecursive(points, 0, |points| - 1, tolerance, sqrt);
    dp := WithEnds(interior, 0, |points| - 1);
  }

  /** The parts of `Reduced`, one requirement each. */
  lemma ReducedIntro(points: seq<Point>, target: nat, kept: seq<nat>, dp: set<nat>, sqrt: real -> real)
    requires target >= 2 && |points| >= 1 && 0 in dp && |points| - 1 in dp
    requires forall i :: i in dp ==> i < |points|
    requires WithinTolerance(points, dp, AdaptiveTolerance(points, target), sqrt)
    requires |Ascending(dp, |points|)| <= target ==> kept == Ascending(dp, |points|)
    requires |Ascending(dp, |points|)| > target ==> kept == ResampledIndices(points, Ascending(dp, |points|), target)
    ensures Reduced(points, target, kept, dp, sqrt)
  {
  }

  /** The points at the kept indices, resampled down to `target` when there are more. */
  method GatherWithinTarget(points: seq<Point>, ordered: seq<nat>, target: nat)
    returns (r: seq<Point>, ghost kept: seq<nat>)
    requires target >= 2 && |ordered| >= 2
    requires AllBelow(ordered, |points|) && Nondecreasing(ordered)
    requires ordered[0] == 0 && ordered[|ordered| - 1] == |points| - 1
    ensures 2 <= |r| <= target
    ensures KeptInOrder(|points|, kept)
    ensures r == Gather(points, kept)
    ensures |ordered| <= target ==> kept == ordered
    ensures |ordered| > target ==> kept == ResampledIndices(points, ordered, target)
  {
    r := Gather(points, ordered);
    kept := ordered;
    if |r| > target {
      kept := ResampledIndices(points, ordered, target);
      r := ReduceToTarget(r, target);
    }
  }

  /** The original indices left after resampling an ordered choice of indices. */
  ghost function ResampledIndices(points: seq<Point>, ordered: seq<nat>, target: nat): (kept: seq<nat>)
    requires |ordered| > target >= 2 && AllBelow(ordered, |points|)
    ensures |kept| == target && AllBelow(kept, |points|)
    ensures Gather(Gather(points, ordered), ResampleIndices(|ordered|, target)) == Gather(points, kept)
    ensures Nondecreasing(ordered) ==> Nondecreasing(kept)
    ensures kept[0] == ordered[0] && kept[target - 1] == ordered[|ordered| - 1]
  {
    ResampleIndicesShape(|ordered|, target);
    var idx := ResampleIndices(|ordered|, target);
    seq(target, k requires 0 <= k < target => ordered[idx[k]])
  }

  /** An ascending list of a set holding `0` and `n - 1` starts at `0` and ends at `n - 1`. */
  lemma AscendingEnds(s: set<nat>, n: nat)
    requires n >= 2 && 0 in s && n - 1 in s
    ensures |Ascending(s, n)| >= 2
    ensures Ascending(s, n)[0] == 0 && Ascending(s, n)[|Ascending(s, n)| - 1] == n - 1
  {
    var a := Ascending(s, n);
    assert 0 in a && n - 1 in a;
    var i0 :| 0 <= i0 < |a| && a[i0] == 0;
    var i1 :| 0 <= i1 < |a| && a[i1] == n - 1;
    forall k | 0 <= k < |a|
      ensures a[0] <= a[k] <= a[|a| - 1]
    {
      if 0 < k {
        assert a[0] < a[k];
      }
      if k < |a| - 1 {
        assert a[k] < a[|a| - 1];
      }
    }
    assert a[0] <= a[i0] && a[i1] <= a[|a| - 1];
    assert a[|a| - 1] < n;
    assert a[0] != a[|a| - 1];
  }

  const CurvatureThreshold: real := 0.3

  /** The interior indices whose curvature exceeds the threshold. */
  ghost function HighCurvature(points: seq<Point>, sqrt: real -> real): set<nat>
  {
    set i: nat | 0 < i < |points| - 1 && VertexCurvature(points, i, sqrt) > CurvatureThreshold
  }

  /** `_detect_high_curvature_regions`. */
  method DetectHighCurvature(points: seq<Point>, sqrt: real -> real) returns (high: set<nat>)
    ensures high == HighCurvature(points, sqrt)
    ensures forall i :: i in high ==> 0 < i < |points| - 1
  {
    high := {};
    if |points| < 3 {
      return;
    }
    for i := 1 to |points| - 1
      invariant high == set k: nat | 0 < k < i && VertexCurvature(points, k, sqrt) > CurvatureThreshold
    {
      if VertexCurvature(points, i, sqrt) > CurvatureThreshold {
        high := high + {i};
      }
    }
  }

  /** The distance from `q` to each segment of the list. */
  function SegmentDistances(points: seq<Point>, q: Point, sqrt: real -> real): (d: seq<real>)
    requires |points| >= 2
    ensures |d| == |points| - 1
    ensures forall i :: 0 <= i < |points| - 1 ==> d[i] == PointToSegmentDistance(q, points[i], points[i + 1], sqrt)
  {
    seq(|points| - 1, i requires 0 <= i < |points| - 1 => PointToSegmentDistance(q, points[i], points[i + 1], sqrt))
  }

  /** The first segment nearest to `q`. */
  function NearestSegment(points: seq<Point>, q: Point, sqrt: real -> real): (b: nat)
    requires |points| >= 2
    ensures b < |points| - 1
    ensures forall i :: 0 <= i < |points| - 1 ==>
      PointToSegmentDistance(q, points[b], points[b + 1], sqrt) <= PointToSegmentDistance(q, points[i], points[i + 1], sqrt)
    ensures forall i :: 0 <= i < b ==>
      PointToSegmentDistance(q, points[b], points[b + 1], sqrt) < PointToSegmentDistance(q, points[i], points[i + 1], sqrt)
  {
    FirstMin(SegmentDistances(points, q, sqrt))
  }

  /** The list after inserting `q` just after the start of its nearest segment; with fewer
      than two points `q` is appended. */
  function InsertedNearest(points: seq<Point>, q: Point, sqrt: real -> real): (r: seq<Point>)
    ensures |r| == |points| + 1
  {
    if |points| < 2 then points + [q]
    else
      var b := NearestSegment(points, q, sqrt);
      points[..b + 1] + [q] + points[b + 1..]
  }

  /** Inserting adds exactly `q`, keeps both ends of a list of two or more points, and puts
      `q` between the two ends of the nearest segment. */
  lemma InsertedNearestShape(points: seq<Point>, q: Point, sqrt: real -> real)
    ensures multiset(InsertedNearest(points, q, sqrt)) == multiset(points) + multiset{q}
    ensures forall p :: p in InsertedNearest(points, q, sqrt) ==> p in points || p == q
    ensures |points| >= 2 ==>
      var r := InsertedNearest(points, q, sqrt);
      var b := NearestSegment(points, q, sqrt);
      && r[0] == points[0] && r[|r| - 1] == points[|points| - 1]
      && r[b] == points[b] && r[b + 1] == q && r[b + 2] == points[b + 1]
  {
    var r := InsertedNearest(points, q, sqrt);
    if |points| >= 2 {
      var b := NearestSegment(points, q, sqrt);
      SplicedShape(points, b, q, r);
    } else {
      assert multiset(r) == multiset(points) + multiset{q};
      MembersOfMultiset(points, q, r);
    }
  }

  /** `points[..b + 1] + [q] + points[b + 1..]`: `q` spliced in after `points[b]`. */
  lemma SplicedShape(points: seq<Point>, b: nat, q: Point, r: seq<Point>)
    requires b < |points| - 1 && r == points[..b + 1] + [q] + points[b + 1..]
    ensures multiset(r) == multiset(points) + multiset{q}
    ensures forall p :: p in r ==> p in points || p == q
    ensures r[0] == points[0] && r[|r| - 1] == points[|points| - 1]
    ensures r[b] == points[b] && r[b + 1] == q && r[b + 2] == points[b + 1]
  {
    assert points == points[..b + 1] + points[b + 1..];
    assert multiset(r) == multiset(points) + multiset{q};
    MembersOfMultiset(points, q, r);
  }

  /** Every member of a list holding `points` and `q` is one of them. */
  lemma MembersOfMultiset(points: seq<Point>, q: Point, r: seq<Point>)
    requires multiset(r) == multiset(points) + multiset{q}
    ensures forall p :: p in r ==> p in points || p == q
  {
    forall p | p in r
      ensures p in points || p == q
    {
      assert p in multiset(r);
    }
  }

  /** The scan of `_insert_point_at_best_location` for the nearest segment. The source
      starts from an infinite minimum, so segment 0 always wins the first comparison; the
      scan starts from it. */
  method FindNearestSegment(points: seq<Point>, q: Point, sqrt: real -> real) returns (bestIndex: nat)
    requires |points| >= 2
    ensures bestIndex == NearestSegment(points, q, sqrt)
  {
    ghost var d := SegmentDistances(points, q, sqrt);
    bestIndex := 0;
    var minDistance := PointToSegmentDistance(q, points[0], points[1], sqrt);
    assert d[..1] == [d[0]];
    for i := 1 to |points| - 1
      invariant bestIndex == FirstMin(d[..i]) && minDistance == d[bestIndex]
    {
      var distance := PointToSegmentDistance(q, points[i], points[i + 1], sqrt);
      FirstMinStep(d, i);
      if distance < minDistance {
        minDistance := distance;
        bestIndex := i;
      }
    }
    assert d[..|points| - 1] == d;
  }

  /** `_insert_point_at_best_location`: the scan for the nearest segment, then the insert. */
  method InsertAtBestLocation(points: seq<Point>, q: Point, sqrt: real -> real) returns (r: seq<Point>)
    ensures r == InsertedNearest(points, q, sqrt)
  {
    if |points| < 2 {
      return points + [q];
    }
    var bestIndex := FindNearestSegment(points, q, sqrt);
    r := points[..bestIndex + 1] + [q] + points[bestIndex + 1..];
  }

  /** The points `orig[i]` for the indices `i < n` in `s`, as a multiset. */
  ghost function PointsAt(orig: seq<Point>, s: set<nat>, n: nat): multiset<Point>
    requires n <= |orig|
    decreases n
  {
    if n == 0 then multiset{}
    else PointsAt(orig, s, n - 1) + (if n - 1 in s then multiset{orig[n - 1]} else multiset{})
  }

  /** The high-curvature original points, once each. */
  ghost function HighPoints(orig: seq<Point>, sqrt: real -> real): multiset<Point>
  {
    PointsAt(orig, HighCurvature(orig, sqrt), |orig|)
  }

  /** Taking index `i` out of the set takes `orig[i]` out of the multiset. */
  lemma {:induction false} PointsAtRemove(orig: seq<Point>, s: set<nat>, n: nat, i: nat)
    requires n <= |orig| && i in s && i < n
    ensures PointsAt(orig, s, n) == PointsAt(orig, s - {i}, n) + multiset{orig[i]}
    decreases n
  {
    if i < n - 1 {
      PointsAtRemove(orig, s, n - 1, i);
    } else {
      PointsAtNone(orig, s, s - {i}, n - 1);
    }
  }

  /** Sets that agree below `n` pick the same points. */
  lemma {:induction false} PointsAtNone(orig: seq<Point>, s: set<nat>, t: set<nat>, n: nat)
    requires n <= |orig|
    requires forall i :: i < n ==> (i in s <==> i in t)
    ensures PointsAt(orig, s, n) == PointsAt(orig, t, n)
    decreases n
  {
    if n > 0 {
      PointsAtNone(orig, s, t, n - 1);
    }
  }

  /** The empty set picks no points. */
  lemma {:induction false} PointsAtEmpty(orig: seq<Point>, n: nat)
    requires n <= |orig|
    ensures PointsAt(orig, {}, n) == multiset{}
    decreases n
  {
    if n > 0 {
      PointsAtEmpty(orig, n - 1);
    }
  }

  /** Inserting at the nearest segment keeps the order of the points already there. */
  lemma InsertedNearestKeepsOrder(a: seq<Point>, points: seq<Point>, q: Point, sqrt: real -> real)
    requires IsSubsequence(a, points)
    ensures IsSubsequence(a, InsertedNearest(points, q, sqrt))
  {
    var idx :| Embeds(a, points, idx);
    if |points| < 2 {
      AppendKeepsOrder(a, points, q, idx);
    } else {
      var b := NearestSegment(points, q, sqrt);
      SpliceKeepsOrder(a, points, b, q, idx);
    }
  }

  /** One insertion of `_shape_preservation_optimization`: `q` goes in at its nearest
      segment, which adds exactly `q` and keeps the reduced points in order, the two ends
      in place and every point from the inputs. */
  method InsertOne(orig: seq<Point>, opt: seq<Point>, e: seq<Point>, q: Point, sqrt: real -> real)
    returns (r: seq<Point>)
    requires |opt| >= 2 && |e| >= 2 && q in orig
    requires IsSubsequence(opt, e) && e[0] == opt[0] && Last(e) == Last(opt)
    requires forall p :: p in e ==> p in opt || p in orig
    ensures |r| == |e| + 1
    ensures multiset(r) == multiset(e) + multiset{q}
    ensures IsSubsequence(opt, r)
    ensures r[0] == opt[0] && Last(r) == Last(opt)
    ensures forall p :: p in r ==> p in opt || p in orig
  {
    InsertedNearestShape(e, q, sqrt);
    InsertedNearestKeepsOrder(opt, e, q, sqrt);
    r := InsertAtBestLocation(e, q, sqrt);
  }

  /** What shape preservation promises about `enhanced` built from the reduced list `opt`:
      exactly the originals at the high-curvature indices are added, one per index, the
      reduced points keep their order, and both ends stay in place. */
  ghost predicate Enhanced(orig: seq<Point>, opt: seq<Point>, enhanced: seq<Point>, sqrt: real -> real)
  {
    && |opt| >= 1
    && |enhanced| == |opt| + |HighCurvature(orig, sqrt)|
    && multiset(enhanced) == multiset(opt) + HighPoints(orig, sqrt)
    && IsSubsequence(opt, enhanced)
    && enhanced[0] == opt[0] && Last(enhanced) == Last(opt)
    && forall p :: p in enhanced ==> p in opt || p in orig
  }

  /** `_shape_preservation_optimization`. Short inputs come back unchanged. Otherwise
      every high-curvature original point is inserted once (in the set's unspecified
      order): the result holds exactly the reduced points plus those originals, keeps the
      reduced points in their order and keeps the first and last points in place. */
  method ShapePreservation(orig: seq<Point>, opt: seq<Point>, sqrt: real -> real)
    returns (enhanced: seq<Point>)
    ensures |orig| < 3 || |opt| < 2 ==> enhanced == opt
    ensures |orig| >= 3 && |opt| >= 2 ==> Enhanced(orig, opt, enhanced, sqrt)
  {
    if |orig| < 3 || |opt| < 2 {
      return opt;
    }
    var high := DetectHighCurvature(orig, sqrt);
    enhanced := InsertAll(orig, opt, high, sqrt);
  }

  /** The insertion loop of `_shape_preservation_optimization` over the detected indices,
      taken in any order. */
  method InsertAll(orig: seq<Point>, opt: seq<Point>, high: set<nat>, sqrt: real -> real)
    returns (enhanced: seq<Point>)
    requires |opt| >= 2
    requires forall i :: i in high ==> 0 < i < |orig| - 1
    ensures |enhanced| == |opt| + |high|
    ensures multiset(enhanced) == multiset(opt) + PointsAt(orig, high, |orig|)
    ensures IsSubsequence(opt, enhanced)
    ensures enhanced[0] == opt[0] && Last(enhanced) == Last(opt)
    ensures forall p :: p in enhanced ==> p in opt || p in orig
  {
    enhanced := opt;
    var remaining := high;
    ghost var selfIdx := SelfEmbeds(opt);
    while remaining != {}
      invariant InsertionSoFar(orig, opt, high, enhanced, remaining)
      decreases |remaining|
    {
      enhanced, remaining := InsertNext(orig, opt, high, enhanced, remaining, sqrt);
    }
    PointsAtEmpty(orig, |orig|);
  }

  /** What the insertion loop keeps: `enhanced` is `opt` with the points of the indices
      already taken out of `remaining` inserted, in order, with both ends in place. */
  ghost predicate InsertionSoFar(orig: seq<Point>, opt: seq<Point>, high: set<nat>,
                                 enhanced: seq<Point>, remaining: set<nat>)
  {
    && |opt| >= 2
    && (forall i :: i in high ==> 0 < i < |orig| - 1)
    && remaining <= high
    && |enhanced| == |opt| + |high| - |remaining|
    && multiset(enhanced) + PointsAt(orig, remaining, |orig|) == multiset(opt) + PointsAt(orig, high, |orig|)
    && IsSubsequence(opt, enhanced)
    && |enhanced| >= 2 && enhanced[0] == opt[0] && Last(enhanced) == Last(opt)
    && (forall p :: p in enhanced ==> p in opt || p in orig)
  }

  /** One turn of the insertion loop: take any remaining index and insert its point. */
  method InsertNext(orig: seq<Point>, opt: seq<Point>, ghost high: set<nat>, enhanced: seq<Point>,
                    remaining: set<nat>, sqrt: real -> real)
    returns (enhanced': seq<Point>, remaining': set<nat>)
    requires remaining != {} && InsertionSoFar(orig, opt, high, enhanced, remaining)
    ensures InsertionSoFar(orig, opt, high, enhanced', remaining')
    ensures |remaining'| < |remaining|
  {
    var idx :| idx in remaining;
    assert 0 < idx < |orig| - 1;
    PointsAtRemove(orig, remaining, |orig|, idx);
    assert |remaining - {idx}| == |remaining| - 1;
    remaining' := remaining - {idx};
    enhanced' := enhanced;
    if idx != 0 && idx != |orig| - 1 {
      enhanced' := InsertOne(orig, opt, enhanced, orig[idx], sqrt);
    }
  }

  /** `optimize`. Fewer than three points come back unchanged. Otherwise `reduced` is the
      Douglas-Peucker reduction to the target count (the input itself when it is within
      the target), taken at the indices `kept`, and the result is `reduced`, or `reduced`
      enhanced by shape preservation when that is asked for. */
  method Optimize(points: seq<Point>, params: Params, sqrt: real -> real)
    returns (r: seq<Point>, ghost reduced: seq<Point>, ghost kept: seq<nat>, ghost dp: set<nat>)
    ensures |points| < 3 ==> r == points
    ensures |points| >= 3 ==>
      var target := TargetCount(|points|, params.maxPointReduction);
      && KeptInOrder(|points|, kept) && reduced == Gather(points, kept)
      && (|points| <= target ==> reduced == points)
      && (|points| > target ==> |reduced| <= target && Reduced(points, target, kept, dp, sqrt))
      && (!params.preserveShape ==> r == reduced)
      && (params.preserveShape ==> Enhanced(points, reduced, r, sqrt))
    ensures |points| >= 3 ==> |r| >= 2 && r[0] == points[0] && Last(r) == Last(points)
    ensures forall p :: p in r ==> p in points
  {
    reduced, kept, dp := points, [], {};
    if |points| < 3 {
      return points, reduced, kept, dp;
    }
    var target := TargetCount(|points|, params.maxPointReduction);
    var optimized;
    optimized, kept, dp := DouglasPeuckerReduction(points, target, sqrt);
    reduced := optimized;
    r := optimized;
    if params.preserveShape {
      r := ShapePreservation(points, optimized, sqrt);
    }
  }
}
