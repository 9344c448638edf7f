/** `QualityBasedOptimizer`: keep the corners, fill up to a target count with the
    best-scoring points, then densify long gaps from the original curve. */
module QualityOptimizer {
  import opened Numeric
  import opened Wrappers
  import opened Geometry
  import opened Polyline

  /** The entries of the parameter dictionary the optimiser reads. */
  datatype Params = Params(targetQuality: real, preserveShape: bool, cornerDetection: bool)

  /** The values `parameters.get` falls back to. */
  const Defaults: Params := Params(0.8, true, true)

  /** `validate_parameters`: the target quality must lie in [0.1, 1.0]. */
  function Validate(p: Params): (r: Outcome)
    ensures r.Pass? <==> 0.1 <= p.targetQuality <= 1.0
  {
    if !(0.1 <= p.targetQuality <= 1.0) then Fail("target quality must be between 0.1 and 1.0")
    else Pass
  }

  /** 45 degrees. */
  const CornerAngle: real := PI / 4.0

  /** Interior vertex `i` is a corner: the interior angle at it exists (both neighbouring
      segments have positive length) and is below 45 degrees. */
  predicate IsCorner(points: seq<Point>, i: nat, sqrt: real -> real, acos: real -> real)
    requires 0 < i < |points| - 1
  {
    var angle := InteriorAngle(points[i - 1], points[i], points[i + 1], sqrt, acos);
    angle.Some? && angle.value < CornerAngle
  }

  /** `corners` holds exactly the sharp interior vertices of `points` and both endpoints. */
  ghost predicate CornerSet(points: seq<Point>, corners: set<nat>, sqrt: real -> real, acos: real -> real)
  {
    forall i: nat :: i in corners <==>
      (i == 0 || i == |points| - 1 || (0 < i < |points| - 1 && IsCorner(points, i, sqrt, acos)))
  }

  /** `_detect_corners`: the sharp interior vertices plus both endpoints. */
  method DetectCorners(points: seq<Point>, sqrt: real -> real, acos: real -> real)
    returns (corners: set<nat>)
    ensures |points| < 3 ==> corners == {}
    ensures |points| >= 3 ==> CornerSet(points, corners, sqrt, acos)
  {
    if |points| < 3 {
      return {};
    }
    corners := {};
    for i := 1 to |points| - 1
      invariant forall j: nat :: j in corners <==> (0 < j < i && IsCorner(points, j, sqrt, acos))
    {
      if IsCorner(points, i, sqrt, acos) {
        corners := corners + {i};
      }
    }
    corners := corners + {0, |points| - 1};
  }

  /** A detected interior corner has two non-degenerate neighbouring segments. */
  lemma CornerSegmentsProper(points: seq<Point>, i: nat, sqrt: real -> real, acos: real -> real)
    requires SqrtLaws(sqrt) && AcosLaws(acos)
    requires 0 < i < |points| - 1 && IsCorner(points, i, sqrt, acos)
    ensures points[i - 1] != points[i] && points[i + 1] != points[i]
  {
    VectorAngleLaws(Sub(points[i - 1], points[i]), Sub(points[i + 1], points[i]), sqrt, acos);
  }

  /** `_calculate_point_quality`: 1 at the endpoints; otherwise the turning angle over pi,
      or 0.5 when a neighbouring segment has zero length. */
  function PointQuality(points: seq<Point>, i: nat, sqrt: real -> real, acos: real -> real): real
    requires i < |points|
  {
    if i == 0 || i == |points| - 1 then 1.0
    else
      match TurningAngle(points[i - 1], points[i], points[i + 1], sqrt, acos)
      case Some(angle) => angle / PI
      case None => 0.5
  }

  /** Every quality score lies in [0, 1]. */
  lemma PointQualityBounds(points: seq<Point>, i: nat, sqrt: real -> real, acos: real -> real)
    requires SqrtLaws(sqrt) && AcosLaws(acos)
    requires i < |points|
    ensures 0.0 <= PointQuality(points, i, sqrt, acos) <= 1.0
  {
    if 0 < i < |points| - 1 {
      VectorAngleLaws(Sub(points[i], points[i - 1]), Sub(points[i + 1], points[i]), sqrt, acos);
    }
  }

  /** The score used for ranking: 1 for a corner, the point quality otherwise. */
  function Score(points: seq<Point>, corners: set<nat>, i: nat, sqrt: real -> real, acos: real -> real): real
    requires i < |points|
  {
    if i in corners then 1.0 else PointQuality(points, i, sqrt, acos)
  }

  /** `max(2, int(len(points) * target_quality))`. */
  function TargetCount(n: nat, targetQuality: real): (r: int)
    ensures r >= 2
  {
    MaxI(2, Trunc(n as real * targetQuality))
  }

  /** For a quality in [0, 1] and at least two points the target never exceeds the
      number of points. */
  lemma TargetCountBounds(n: nat, targetQuality: real)
    requires n >= 2 && 0.0 <= targetQuality <= 1.0
    ensures 2 <= TargetCount(n, targetQuality) <= n
  {
    MulLe(n as real, targetQuality, 1.0, n as real * targetQuality, n as real * 1.0);
  }

  /** The score list built by the first loop of `_quality_based_selection`. */
  method ComputeScores(points: seq<Point>, corners: set<nat>, sqrt: real -> real, acos: real -> real)
    returns (scores: seq<real>)
    ensures |scores| == |points|
    ensures forall i :: 0 <= i < |points| ==> scores[i] == Score(points, corners, i, sqrt, acos)
  {
    scores := [];
    for i := 0 to |points|
      invariant |scores| == i
      invariant forall k :: 0 <= k < i ==> scores[k] == Score(points, corners, k, sqrt, acos)
    {
      var score := if i in corners then 1.0 else PointQuality(points, i, sqrt, acos);
      scores := scores + [score];
    }
  }

  /** The corner loop: take corners in the set's (unspecified) iteration order, stopping
      as soon as the target count is reached. */
  method CornersFirst(corners: set<nat>, target: int) returns (sel: set<nat>)
    requires target >= 1
    ensures sel <= corners
    ensures |sel| == MinI(target, |corners|)
  {
    sel := {};
    var remaining := corners;
    while remaining != {}
      invariant sel !! remaining && sel + remaining == corners
      invariant |sel| + |remaining| == |corners|
      invariant |sel| < target
      decreases |remaining|
    {
      var i :| i in remaining;
      sel := sel + {i};
      remaining := remaining - {i};
      if |sel| >= target {
        return;
      }
    }
  }

  /** Later entries of the descending stable sort: an index left out ranks below every
      index taken by score (a lower score, or an equal score and a larger index). */
  ghost predicate RanksBelow(scores: seq<real>, left: nat, taken: nat)
    requires left < |scores| && taken < |scores|
  {
    scores[left] < scores[taken] || (scores[left] == scores[taken] && taken < left)
  }

  /** The unselected index that comes first in the descending stable sort by score. */
  method BestUnselected(scores: seq<real>, sel: set<nat>) returns (b: nat)
    requires exists j: nat :: j < |scores| && j !in sel
    ensures b < |scores| && b !in sel
    ensures forall j: nat :: j < |scores| && j !in sel && j != b ==> RanksBelow(scores, j, b)
  {
    var found := false;
    b := 0;
    for j := 0 to |scores|
      invariant found ==> b < j && b !in sel
      invariant found ==> forall k: nat :: k < j && k !in sel && k != b ==> RanksBelow(scores, k, b)
      invariant !found ==> forall k: nat :: k < j ==> k in sel
    {
      if j !in sel && (!found || scores[j] > scores[b]) {
        b := j;
        found := true;
      }
    }
  }

  /** The score loop: walk the indices by descending score (ties by index) and add
      those not yet selected while fewer than `target` are selected. */
  method FillByScore(scores: seq<real>, sel0: set<nat>, target: int)
    returns (sel: set<nat>, ghost picked: set<nat>)
    requires forall i :: i in sel0 ==> i < |scores|
    requires |sel0| <= target
    ensures sel0 <= sel && picked == sel - sel0
    ensures forall i :: i in sel ==> i < |scores|
    ensures |sel| == MinI(target, |scores|)
    ensures forall j: nat, k :: j < |scores| && j !in sel && k in picked ==> RanksBelow(scores, j, k)
  {
    IndexSetSize(sel0, |scores|);
    sel := sel0;
    picked := {};
    while |sel| < target && |sel| < |scores|
      invariant sel0 <= sel && picked == sel - sel0
      invariant forall i :: i in sel ==> i < |scores|
      invariant |sel| <= target && |sel| <= |scores|
      invariant forall j: nat, k :: j < |scores| && j !in sel && k in picked ==> RanksBelow(scores, j, k)
      decreases |scores| - |sel|
    {
      var missing := MissingIndex(sel, |scores|);
      var b := BestUnselected(scores, sel);
      sel := sel + {b};
      picked := picked + {b};
    }
  }

  /** `selected` is the points at the indices `chosen`, in index order, `min(target, n)` of
      them; when the corners fit in the target they are all chosen, otherwise only corners
      are; and every index chosen by score outranks every index left out (a higher score,
      or an equal score and an earlier index). */
  ghost predicate Selection(points: seq<Point>, targetQuality: real, corners: set<nat>, chosen: set<nat>,
                            selected: seq<Point>, sqrt: real -> real, acos: real -> real)
  {
    && (forall i :: i in chosen ==> i < |points|)
    && selected == Gather(points, Ascending(chosen, |points|))
    && |selected| == MinI(TargetCount(|points|, targetQuality), |points|)
    && (|corners| <= TargetCount(|points|, targetQuality) ==> corners <= chosen)
    && (|corners| > TargetCount(|points|, targetQuality) ==> chosen <= corners)
    && (forall j: nat, k :: j < |points| && j !in chosen && k in chosen - corners ==>
          Score(points, corners, j, sqrt, acos) < Score(points, corners, k, sqrt, acos)
          || (Score(points, corners, j, sqrt, acos) == Score(points, corners, k, sqrt, acos) && k < j))
  }

  /** `_quality_based_selection`. Two or fewer points come back unchanged. Otherwise
      the result has `min(target, n)` points, in index order; when the corners fit in the
      target they are all kept, otherwise only corners are kept; and every point taken
      by score outranks every point left out. `chosen` is the selected index set. */
  method QualityBasedSelection(points: seq<Point>, targetQuality: real, corners: set<nat>,
                               sqrt: real -> real, acos: real -> real)
    returns (selected: seq<Point>, ghost chosen: set<nat>)
    requires forall i :: i in corners ==> i < |points|
    ensures |points| <= 2 ==> selected == points
    ensures |points| > 2 ==> Selection(points, targetQuality, corners, chosen, selected, sqrt, acos)
  {
    chosen := {};
    if |points| <= 2 {
      return points, chosen;
    }
    var scores := ComputeScores(points, corners, sqrt, acos);
    var target := TargetCount(|points|, targetQuality);
    var first := CornersFirst(corners, target);
    if |corners| <= target {
      SubsetOfEqualSize(first, corners);
    }
    var sel, picked := FillByScore(scores, first, target);
    if |corners| > target {
      IndexSetSize(first, |points|);
      SubsetOfEqualSize(first, sel);
    }
    assert picked == sel - corners;
    chosen := sel;
    AscendingLength(sel, |points|);
    selected := Gather(points, Ascending(sel, |points|));
  }

  /** The midpoint-or-nearest rule of `_find_best_midpoint`: none for fewer than two
      original points; otherwise the first original point nearest to the midpoint of
      `p1 p2`, unless even that one is more than 0.5 away, in which case the midpoint. */
  function BestMidpoint(orig: seq<Point>, p1: Point, p2: Point, sqrt: real -> real): (r: Option<Point>)
    ensures r.None? <==> |orig| < 2
    ensures r.Some? && (forall q :: q in orig ==> Dist(Mid(p1, p2), q, sqrt) > 0.5) ==> r.value == Mid(p1, p2)
    ensures r.Some? && r.value != Mid(p1, p2) ==>
      && r.value in orig
      && Dist(Mid(p1, p2), r.value, sqrt) <= 0.5
      && forall q :: q in orig ==> Dist(Mid(p1, p2), r.value, sqrt) <= Dist(Mid(p1, p2), q, sqrt)
    ensures |orig| >= 2 && (exists q :: q in orig && Dist(Mid(p1, p2), q, sqrt) <= 0.5) ==>
      exists k :: 0 <= k < |orig| && r == Some(orig[k]) && FirstNearest(orig, Mid(p1, p2), k, sqrt)
  {
    if |orig| < 2 then None
    else
      var mid := Mid(p1, p2);
      var d := DistancesTo(orig, mid, sqrt);
      var k := FirstMin(d);
      if d[k] > 0.5 then Some(mid) else Some(orig[k])
  }

  /** `orig[k]` is nearest to `m`, and every earlier original point is strictly farther. */
  ghost predicate FirstNearest(orig: seq<Point>, m: Point, k: nat, sqrt: real -> real)
    requires k < |orig|
  {
    forall j :: 0 <= j < |orig| ==>
      && Dist(m, orig[k], sqrt) <= Dist(m, orig[j], sqrt)
      && (j < k ==> Dist(m, orig[k], sqrt) < Dist(m, orig[j], sqrt))
  }

  /** The distance from `q` to each original point. */
  function DistancesTo(orig: seq<Point>, q: Point, sqrt: real -> real): (d: seq<real>)
    ensures |d| == |orig|
    ensures forall i :: 0 <= i < |orig| ==> d[i] == Dist(q, orig[i], sqrt)
  {
    seq(|orig|, i requires 0 <= i < |orig| => Dist(q, orig[i], sqrt))
  }

  /** `_find_best_midpoint`: a scan for the nearest original point. */
  method FindBestMidpoint(orig: seq<Point>, p1: Point, p2: Point, sqrt: real -> real)
    returns (r: Option<Point>)
    ensures r == BestMidpoint(orig, p1, p2, sqrt)
  {
    if |orig| < 2 {
      return None;
    }
    var mid := Mid(p1, p2);
    ghost var d := DistancesTo(orig, mid, sqrt);
    // The source starts from an infinite minimum, so the first point always wins the
    // first comparison.
    var best := 0;
    var minDistance := Dist(mid, orig[0], sqrt);
    assert d[..1] == [d[0]];
    for i := 1 to |orig|
      invariant best == FirstMin(d[..i]) && minDistance == d[best]
    {
      var dist := Dist(mid, orig[i], sqrt);
      assert d[..i + 1][..i] == d[..i];
      if dist < minDistance {
        minDistance := dist;
        best := i;
      }
    }
    assert d[..|orig|] == d;
    if minDistance > 0.5 {
      return Some(mid);
    }
    return Some(orig[best]);
  }

  /** What the densifying pass puts between two consecutive selected points. */
  function Gap(orig: seq<Point>, p1: Point, p2: Point, sqrt: real -> real): (r: seq<Point>)
    ensures |r| <= 1
    ensures |r| == 1 ==> Dist(p1, p2, sqrt) > 1.0 && Some(r[0]) == BestMidpoint(orig, p1, p2, sqrt)
    ensures |orig| >= 2 && Dist(p1, p2, sqrt) > 1.0 ==> |r| == 1
  {
    if Dist(p1, p2, sqrt) > 1.0 then
      match BestMidpoint(orig, p1, p2, sqrt)
      case Some(m) => [m]
      case None => []
    else []
  }

  /** The gap after each selected point but the last. */
  function Gaps(orig: seq<Point>, opt: seq<Point>, sqrt: real -> real): (g: seq<seq<Point>>)
    requires |opt| >= 1
    ensures |g| == |opt| - 1 && Small(g)
    decreases |opt|
  {
    if |opt| == 1 then []
    else [Gap(orig, opt[0], opt[1], sqrt)] + Gaps(orig, opt[1..], sqrt)
  }

  /** The gap after `opt[j]`. */
  lemma {:induction false} GapsAt(orig: seq<Point>, opt: seq<Point>, j: nat, sqrt: real -> real)
    requires j < |opt| - 1
    ensures Gaps(orig, opt, sqrt)[j] == Gap(orig, opt[j], opt[j + 1], sqrt)
    decreases j
  {
    if j > 0 {
      GapsAt(orig, opt[1..], j - 1, sqrt);
      assert opt[1..][j - 1] == opt[j] && opt[1..][j] == opt[j + 1];
    }
  }

  /** Gaps of at most one point each. */
  predicate Small(gaps: seq<seq<Point>>)
  {
    forall j :: 0 <= j < |gaps| ==> |gaps[j]| <= 1
  }

  /** The output after `k` turns of the densifying loop: each selected point followed by
      its gap. */
  function Weave(opt: seq<Point>, gaps: seq<seq<Point>>, k: nat): (r: seq<Point>)
    requires k <= |gaps| < |opt| && Small(gaps)
    ensures k <= |r| <= 2 * k
    decreases k
  {
    if k == 0 then []
    else Weave(opt, gaps, k - 1) + [opt[k - 1]] + gaps[k - 1]
  }

  /** The full `_preserve_shape_optimization` result. */
  function Densified(orig: seq<Point>, opt: seq<Point>, sqrt: real -> real): (r: seq<Point>)
    ensures |opt| <= 2 ==> r == opt
    ensures |opt| >= 1 ==> |opt| <= |r| <= 2 * |opt| - 1
    ensures |opt| >= 1 ==> r[0] == opt[0] && r[|r| - 1] == opt[|opt| - 1]
  {
    if |opt| <= 2 then opt
    else
      var gaps := Gaps(orig, opt, sqrt);
      var w := Weave(opt, gaps, |opt| - 1);
      WeaveAt(opt, gaps, |opt| - 1, 0);
      w + [opt[|opt| - 1]]
  }

  /** `opt[i]` sits in the woven prefix at position `|Weave(i)|`. */
  lemma {:induction false} WeaveAt(opt: seq<Point>, gaps: seq<seq<Point>>, k: nat, i: nat)
    requires i < k <= |gaps| < |opt| && Small(gaps)
    ensures |Weave(opt, gaps, i)| < |Weave(opt, gaps, k)|
    ensures Weave(opt, gaps, k)[|Weave(opt, gaps, i)|] == opt[i]
    decreases k
  {
    var b := Weave(opt, gaps, k - 1);
    assert Weave(opt, gaps, k) == b + [opt[k - 1]] + gaps[k - 1];
    if i < k - 1 {
      WeaveAt(opt, gaps, k - 1, i);
    }
  }

  /** The position of `opt[i]` in the densified list. */
  function Position(orig: seq<Point>, opt: seq<Point>, i: nat, sqrt: real -> real): nat
    requires i < |opt|
  {
    if |opt| <= 2 then i else |Weave(opt, Gaps(orig, opt, sqrt), i)|
  }

  /** Densifying keeps every selected point, in order. */
  lemma DensifiedKeepsSelected(orig: seq<Point>, opt: seq<Point>, sqrt: real -> real)
    ensures forall i :: 0 <= i < |opt| ==>
      Position(orig, opt, i, sqrt) < |Densified(orig, opt, sqrt)|
      && Densified(orig, opt, sqrt)[Position(orig, opt, i, sqrt)] == opt[i]
  {
    if |opt| > 2 {
      var gaps := Gaps(orig, opt, sqrt);
      var w := Weave(opt, gaps, |opt| - 1);
      DensifiedIsWeave(orig, opt, w, sqrt);
      forall i | 0 <= i < |opt|
        ensures Position(orig, opt, i, sqrt) < |Densified(orig, opt, sqrt)|
        ensures Densified(orig, opt, sqrt)[Position(orig, opt, i, sqrt)] == opt[i]
      {
        if i < |opt| - 1 {
          WeaveAt(opt, gaps, |opt| - 1, i);
        }
      }
    }
  }

  /** Between two consecutive selected points densifying inserts at most one point: only
      when they are more than 1.0 apart, and then the midpoint-or-nearest point. */
  lemma DensifiedGaps(orig: seq<Point>, opt: seq<Point>, sqrt: real -> real)
    ensures forall i :: 0 <= i < |opt| - 1 ==> GapRule(orig, opt, i, sqrt)
  {
    forall i | 0 <= i < |opt| - 1
      ensures GapRule(orig, opt, i, sqrt)
    {
      if |opt| > 2 {
        GapAt(orig, opt, i, sqrt);
      }
    }
  }

  /** The rule for the stretch of the densified list between `opt[i]` and `opt[i + 1]`. */
  ghost predicate GapRule(orig: seq<Point>, opt: seq<Point>, i: nat, sqrt: real -> real)
    requires i < |opt| - 1
  {
    var gap := Position(orig, opt, i + 1, sqrt) - Position(orig, opt, i, sqrt);
    && (gap == 1 || gap == 2)
    && (gap == 2 ==>
          && |opt| > 2
          && Dist(opt[i], opt[i + 1], sqrt) > 1.0
          && Position(orig, opt, i, sqrt) + 1 < |Densified(orig, opt, sqrt)|
          && Some(Densified(orig, opt, sqrt)[Position(orig, opt, i, sqrt) + 1])
             == BestMidpoint(orig, opt[i], opt[i + 1], sqrt))
    && (|opt| > 2 && |orig| >= 2 && Dist(opt[i], opt[i + 1], sqrt) > 1.0 ==> gap == 2)
  }

  /** One gap of the densified list. */
  lemma GapAt(orig: seq<Point>, opt: seq<Point>, i: nat, sqrt: real -> real)
    requires |opt| > 2 && i < |opt| - 1
    ensures GapRule(orig, opt, i, sqrt)
  {
    var gaps := Gaps(orig, opt, sqrt);
    DensifiedIsWeave(orig, opt, Weave(opt, gaps, |opt| - 1), sqrt);
    var at := WeaveGap(opt, gaps, i);
    GapsAt(orig, opt, i, sqrt);
  }

  /** In the finished weave, `opt[i]` is followed by exactly its gap. */
  lemma WeaveGap(opt: seq<Point>, gaps: seq<seq<Point>>, i: nat) returns (at: nat)
    requires i < |gaps| < |opt| && Small(gaps)
    ensures at == |Weave(opt, gaps, i)|
    ensures |Weave(opt, gaps, i + 1)| == at + 1 + |gaps[i]|
    ensures |gaps[i]| == 1 ==>
      at + 1 < |Weave(opt, gaps, |gaps|)| && Weave(opt, gaps, |gaps|)[at + 1] == gaps[i][0]
  {
    at := |Weave(opt, gaps, i)|;
    var w := Weave(opt, gaps, i + 1);
    assert w == Weave(opt, gaps, i) + [opt[i]] + gaps[i];
    WeavePrefix(opt, gaps, i + 1, |gaps|);
    if |gaps[i]| == 1 {
      assert w[at + 1] == gaps[i][0];
    }
  }

  /** Earlier woven lists are prefixes of later ones. */
  lemma {:induction false} WeavePrefix(opt: seq<Point>, gaps: seq<seq<Point>>, j: nat, k: nat)
    requires j <= k <= |gaps| < |opt| && Small(gaps)
    ensures Weave(opt, gaps, j) <= Weave(opt, gaps, k)
    decreases k
  {
    if j < k {
      WeavePrefix(opt, gaps, j, k - 1);
      var b := Weave(opt, gaps, k - 1);
      assert Weave(opt, gaps, k) == b + [opt[k - 1]] + gaps[k - 1];
    }
  }

  /** `_preserve_shape_optimization`: the densifying loop. */
  method PreserveShapeOptimization(orig: seq<Point>, opt: seq<Point>, sqrt: real -> real)
    returns (finalPoints: seq<Point>)
    ensures finalPoints == Densified(orig, opt, sqrt)
  {
    if |opt| <= 2 {
      DensifiedShort(orig, opt, sqrt);
      finalPoints := opt;
    } else {
      var woven := DensifyLoop(orig, opt, sqrt);
      DensifiedIsWeave(orig, opt, woven, sqrt);
      finalPoints := woven + [opt[|opt| - 1]];
    }
  }

  /** The densifying loop proper, for three or more selected points: every selected point
      but the last, each followed by its gap. */
  method DensifyLoop(orig: seq<Point>, opt: seq<Point>, sqrt: real -> real)
    returns (finalPoints: seq<Point>)
    requires |opt| > 2
    ensures finalPoints == Weave(opt, Gaps(orig, opt, sqrt), |opt| - 1)
  {
    ghost var gaps := Gaps(orig, opt, sqrt);
    finalPoints := [];
    for i := 0 to |opt| - 1
      invariant finalPoints == Weave(opt, gaps, i)
    {
      finalPoints := WeaveTurn(orig, opt, i, finalPoints, sqrt);
    }
  }

  /** At most two selected points are returned as they are. */
  lemma DensifiedShort(orig: seq<Point>, opt: seq<Point>, sqrt: real -> real)
    requires |opt| <= 2
    ensures Densified(orig, opt, sqrt) == opt
  {
  }

  /** Three or more selected points densify to the finished weave and the last point. */
  lemma DensifiedIsWeave(orig: seq<Point>, opt: seq<Point>, w: seq<Point>, sqrt: real -> real)
    requires |opt| > 2 && w == Weave(opt, Gaps(orig, opt, sqrt), |opt| - 1)
    ensures Densified(orig, opt, sqrt) == w + [opt[|opt| - 1]]
  {
  }

  /** One turn of the densifying loop: the selected point `opt[i]`, then its gap. */
  method WeaveTurn(orig: seq<Point>, opt: seq<Point>, i: nat, finalPoints: seq<Point>, sqrt: real -> real)
    returns (next: seq<Point>)
    requires i < |opt| - 1
    requires finalPoints == Weave(opt, Gaps(orig, opt, sqrt), i)
    ensures next == Weave(opt, Gaps(orig, opt, sqrt), i + 1)
  {
    var p1 := opt[i];
    var p2 := opt[i + 1];
    next := finalPoints + [p1];
    var g := GapPoints(orig, p1, p2, sqrt);
    next := next + g;
    GapsAt(orig, opt, i, sqrt);
    WeaveStep(opt, Gaps(orig, opt, sqrt), i);
  }

  /** The body of the densifying loop after the selected point: the midpoint-or-nearest
      point when the two points are more than 1.0 apart. */
  method GapPoints(orig: seq<Point>, p1: Point, p2: Point, sqrt: real -> real) returns (g: seq<Point>)
    ensures g == Gap(orig, p1, p2, sqrt)
  {
    g := [];
    var distance := Dist(p1, p2, sqrt);
    if distance > 1.0 {
      var midPoint := FindBestMidpoint(orig, p1, p2, sqrt);
      if midPoint.Some? {
        g := [midPoint.value];
      }
    }
  }

  /** One turn of the weave. */
  lemma WeaveStep(opt: seq<Point>, gaps: seq<seq<Point>>, i: nat)
    requires i < |gaps| < |opt| && Small(gaps)
    ensures Weave(opt, gaps, i + 1) == Weave(opt, gaps, i) + [opt[i]] + gaps[i]
  {
  }

  /** `optimize`: fewer than three points come back unchanged. Otherwise `corners` are the
      detected corners (none when corner detection is off), `selected` is the quality-based
      selection of `chosen` indices against them, and the result is `selected`, densified
      when shape preservation is asked for; so it has between `min(target, n)` points and
      twice that less one. */
  method Optimize(points: seq<Point>, params: Params, sqrt: real -> real, acos: real -> real)
    returns (r: seq<Point>, ghost corners: set<nat>, ghost chosen: set<nat>, ghost selected: seq<Point>)
    ensures |points| < 3 ==> r == points
    ensures |points| >= 3 ==>
      && (params.cornerDetection ==> CornerSet(points, corners, sqrt, acos))
      && (!params.cornerDetection ==> corners == {})
      && Selection(points, params.targetQuality, corners, chosen, selected, sqrt, acos)
      && r == if params.preserveShape then Densified(points, selected, sqrt) else selected
    ensures |points| >= 3 ==>
      var m := MinI(TargetCount(|points|, params.targetQuality), |points|);
      && m <= |r| <= 2 * m - 1
      && (!params.preserveShape ==> |r| == m)
  {
    corners, chosen, selected := {}, {}, points;
    if |points| < 3 {
      return points, corners, chosen, selected;
    }
    var found: set<nat> := {};
    if params.cornerDetection {
      found := DetectCorners(points, sqrt, acos);
    }
    corners := found;
    var picked;
    picked, chosen := QualityBasedSelection(points, params.targetQuality, found, sqrt, acos);
    selected := picked;
    r := picked;
    if params.preserveShape {
      r := PreserveShapeOptimization(points, picked, sqrt);
    }
  }
}
