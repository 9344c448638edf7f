/** Index bookkeeping shared by the optimisation passes: picking points by index,
    listing a set of indices in ascending order (Python's `sorted(set)`), and the
    first position of a minimum (a scan that only replaces on a strict `<`), and the
    coordinate lists and their extrema used for bounding boxes. */
module Polyline {
  import opened Numeric
  import opened Geometry

  /** `[points[i] for i in idx]`. */
  function Gather(points: seq<Point>, idx: seq<nat>): (r: seq<Point>)
    requires forall k :: 0 <= k < |idx| ==> idx[k] < |points|
    ensures |r| == |idx|
    ensures forall k :: 0 <= k < |idx| ==> r[k] == points[idx[k]]
  {
    seq(|idx|, k requires 0 <= k < |idx| => points[idx[k]])
  }

  predicate StrictlyIncreasing(idx: seq<nat>)
  {
    forall i, j :: 0 <= i < j < |idx| ==> idx[i] < idx[j]
  }

  predicate Nondecreasing(idx: seq<nat>)
  {
    forall i, j :: 0 <= i < j < |idx| ==> idx[i] <= idx[j]
  }

  predicate AllBelow(idx: seq<nat>, n: nat)
  {
    forall k :: 0 <= k < |idx| ==> idx[k] < n
  }

  /** The members of `s` below `n`, in ascending order. */
  function Ascending(s: set<nat>, n: nat): (r: seq<nat>)
    ensures StrictlyIncreasing(r)
    ensures AllBelow(r, n)
    ensures forall i :: i in r <==> i in s && i < n
    decreases n
  {
    if n == 0 then []
    else
      var rest := Ascending(s, n - 1);
      if n - 1 in s then rest + [n - 1] else rest
  }

  /** When every member of `s` is below `n`, the ascending list has one entry per member. */
  lemma {:induction false} AscendingLength(s: set<nat>, n: nat)
    requires forall i :: i in s ==> i < n
    ensures |Ascending(s, n)| == |s|
    decreases n
  {
    if n == 0 {
      assert s == {} by {
        forall i | i in s ensures false { }
      }
    } else {
      var s' := s - {n - 1};
      AscendingLength(s', n - 1);
      assert Ascending(s, n - 1) == Ascending(s', n - 1) by {
        AscendingAgree(s, s', n - 1);
      }
      if n - 1 in s {
        assert |s| == |s'| + 1;
      } else {
        assert s' == s;
      }
    }
  }

  /** Two sets that agree below `n` list the same indices below `n`. */
  lemma {:induction false} AscendingAgree(s: set<nat>, t: set<nat>, n: nat)
    requires forall i :: i < n ==> (i in s <==> i in t)
    ensures Ascending(s, n) == Ascending(t, n)
    decreases n
  {
    if n > 0 {
      AscendingAgree(s, t, n - 1);
    }
  }

  /** A strictly increasing index list is non-decreasing. */
  lemma StrictlyIncreasingIsNondecreasing(idx: seq<nat>)
    requires StrictlyIncreasing(idx)
    ensures Nondecreasing(idx)
  {
  }

  /** The position of the first minimum of `c`: the result of a left-to-right scan that
      starts at the first entry and moves only when it sees a strictly smaller one. */
  function FirstMin(c: seq<real>): (k: nat)
    requires |c| > 0
    ensures k < |c|
    ensures forall j :: 0 <= j < |c| ==> c[k] <= c[j]
    ensures forall j :: 0 <= j < k ==> c[k] < c[j]
    decreases |c|
  {
    if |c| == 1 then 0
    else
      var b := FirstMin(c[..|c| - 1]);
      if c[|c| - 1] < c[b] then |c| - 1 else b
  }

  /** One more step of the scan: the first minimum of a longer prefix moves to the new
      entry exactly when that entry is strictly smaller. */
  lemma FirstMinStep(c: seq<real>, i: nat)
    requires 0 < i < |c|
    ensures FirstMin(c[..i + 1]) == if c[i] < c[FirstMin(c[..i])] then i else FirstMin(c[..i])
  {
    assert c[..i + 1][..i] == c[..i];
  }

  /** `_calculate_point_curvature` (written out twice in the source, for the point
      reduction and for the adaptive offset): 0 at the two ends, otherwise the triangle-area
      curvature of the vertex, which lies in [0, 1]. */
  function VertexCurvature(points: seq<Point>, i: nat, sqrt: real -> real): (r: real)
    requires i < |points|
    ensures 0.0 <= r <= 1.0
    ensures r > 0.0 ==> 0 < i < |points| - 1 && points[i - 1] != points[i] && points[i + 1] != points[i]
  {
    if i == 0 || i == |points| - 1 then 0.0
    else Curvature(points[i - 1], points[i], points[i + 1], sqrt)
  }

  /** A set of indices below `n` has at most `n` members. */
  lemma {:induction false} IndexSetSize(s: set<nat>, n: nat)
    requires forall i :: i in s ==> i < n
    ensures |s| <= n
  {
    AscendingLength(s, n);
    StrictlyIncreasingBound(Ascending(s, n), n);
  }

  /** A strictly increasing list of indices below `n` is no longer than `n`. */
  lemma {:induction false} StrictlyIncreasingBound(idx: seq<nat>, n: nat)
    requires StrictlyIncreasing(idx) && AllBelow(idx, n)
    ensures |idx| <= n
    decreases |idx|
  {
    if |idx| > 0 {
      var last := idx[|idx| - 1];
      StrictlyIncreasingBound(idx[..|idx| - 1], last);
    }
  }

  /** A set of indices below `n` with fewer than `n` members misses one of them. */
  lemma {:induction false} MissingIndex(s: set<nat>, n: nat) returns (j: nat)
    requires forall i :: i in s ==> i < n
    requires |s| < n
    ensures j < n && j !in s
    decreases n
  {
    if n - 1 !in s {
      j := n - 1;
    } else {
      var s' := s - {n - 1};
      j := MissingIndex(s', n - 1);
    }
  }

  /** A subset as large as the whole set is the whole set. */
  lemma SubsetOfEqualSize<T>(a: set<T>, b: set<T>)
    requires a <= b && |a| == |b|
    ensures a == b
  {
    assert |b - a| == |b| - |a|;
  }

  /** The last element of a non-empty list. */
  function Last<T>(s: seq<T>): T
    requires |s| > 0
  {
    s[|s| - 1]
  }

  /** `a` sits inside `b` at the strictly increasing positions `idx`. */
  ghost predicate Embeds<T>(a: seq<T>, b: seq<T>, idx: seq<nat>)
  {
    && |idx| == |a|
    && StrictlyIncreasing(idx)
    && AllBelow(idx, |b|)
    && forall k :: 0 <= k < |idx| ==> b[idx[k]] == a[k]
  }

  /** `a` is `b` with some elements left out, the rest in their order. */
  ghost predicate IsSubsequence<T>(a: seq<T>, b: seq<T>)
  {
    exists idx :: Embeds(a, b, idx)
  }

  /** Positions after `b` move up by one when an element is spliced in after `b`. */
  function Shifted(idx: seq<nat>, b: nat): (r: seq<nat>)
    ensures |r| == |idx|
    ensures forall k :: 0 <= k < |idx| ==> r[k] == if idx[k] <= b then idx[k] else idx[k] + 1
  {
    seq(|idx|, k requires 0 <= k < |idx| => if idx[k] <= b then idx[k] else idx[k] + 1)
  }

  /** Splicing `x` in after `s[b]` keeps every embedding, with the later positions shifted. */
  lemma SpliceKeepsOrder<T>(a: seq<T>, s: seq<T>, b: nat, x: T, idx: seq<nat>)
    requires b < |s| && Embeds(a, s, idx)
    ensures Embeds(a, s[..b + 1] + [x] + s[b + 1..], Shifted(idx, b))
  {
    var r := s[..b + 1] + [x] + s[b + 1..];
    var idx' := Shifted(idx, b);
    forall k | 0 <= k < |idx'|
      ensures idx'[k] < |r| && r[idx'[k]] == a[k]
    {
      if idx[k] <= b {
        assert r[idx[k]] == s[idx[k]];
      } else {
        assert r[idx[k] + 1] == s[idx[k]];
      }
    }
  }

  /** Appending keeps every embedding. */
  lemma AppendKeepsOrder<T>(a: seq<T>, s: seq<T>, x: T, idx: seq<nat>)
    requires Embeds(a, s, idx)
    ensures Embeds(a, s + [x], idx)
  {
    forall k | 0 <= k < |idx|
      ensures (s + [x])[idx[k]] == a[k]
    {
    }
  }

  /** Appending the same element to both ends matches it last. */
  lemma MatchLastKeepsOrder<T>(a: seq<T>, s: seq<T>, x: T, idx: seq<nat>)
    requires Embeds(a, s, idx)
    ensures Embeds(a + [x], s + [x], idx + [|s|])
  {
    var idx' := idx + [|s|];
    forall k | 0 <= k < |idx'|
      ensures (s + [x])[idx'[k]] == (a + [x])[k]
    {
    }
  }

  /** Every list embeds into itself. */
  lemma SelfEmbeds<T>(a: seq<T>) returns (idx: seq<nat>)
    ensures Embeds(a, a, idx)
  {
    idx := seq(|a|, k requires 0 <= k < |a| => k);
  }

  /** The smallest entry of a non-empty list. */
  function MinOf(xs: seq<real>): (r: real)
    requires |xs| > 0
    ensures forall i :: 0 <= i < |xs| ==> r <= xs[i]
    ensures exists i :: 0 <= i < |xs| && r == xs[i]
  {
    if |xs| == 1 then xs[0] else MinR(xs[0], MinOf(xs[1..]))
  }

  /** The largest entry of a non-empty list. */
  function MaxOf(xs: seq<real>): (r: real)
    requires |xs| > 0
    ensures forall i :: 0 <= i < |xs| ==> xs[i] <= r
    ensures exists i :: 0 <= i < |xs| && r == xs[i]
  {
    if |xs| == 1 then xs[0] else MaxR(xs[0], MaxOf(xs[1..]))
  }

  /** The x coordinates of `points`, in order. */
  function Xs(points: seq<Point>): (r: seq<real>)
    ensures |r| == |points| && forall i :: 0 <= i < |points| ==> r[i] == points[i].x
  {
    seq(|points|, i requires 0 <= i < |points| => points[i].x)
  }

  /** The y coordinates of `points`, in order. */
  function Ys(points: seq<Point>): (r: seq<real>)
    ensures |r| == |points| && forall i :: 0 <= i < |points| ==> r[i] == points[i].y
  {
    seq(|points|, i requires 0 <= i < |points| => points[i].y)
  }
}
