# Offset curve tools: a verified model of the curve algorithms

This project models the computational core of a Maya plug-in for building offset curves.
The plug-in takes a 2D polyline (a list of `(x, y)` points) and does two things with it.
First it *optimises* the input curve: quality-based point selection, Douglas–Peucker point
reduction, or neighbour smoothing. Then it *offsets* the curve: a parallel offset with
corner handling and smoothing, a perpendicular offset, or a curvature-adaptive offset.
Four small components sit around these algorithms:

- the five-step workflow state machine;
- the nested configuration map with dotted-key access;
- the rule tables of the context-aware suggestion tool;
- the size-string parser of the logger.

Coordinates are `real`. `math.sqrt` and `math.acos` are function parameters (`sqrt`,
`acos`), so every result is stated for whatever square root and arc cosine the platform
supplies. The laws they obey are ghost predicates used only as lemma hypotheses:

- `SqrtLaws`: non-negative, and zero exactly at zero;
- `ExactSqrt`: squares back to its argument;
- `AcosLaws`: lands in `[0, π]`.

Python's `int()` on a float is modelled as truncation toward zero (`Numeric.Trunc`), and
`round()` as round-half-to-even (`Numeric.RoundHalfEven`).

Modules, one per component:

| module | file | models |
|---|---|---|
| `QualityOptimizer` | quality_optimizer.dfy | `QualityBasedOptimizer` |
| `ReductionOptimizer` | reduction_optimizer.dfy | `PointReductionOptimizer` |
| `SmoothingOptimizer` | smoothing_optimizer.dfy | `SmoothingOptimizer` |
| `Smoothing` | smoothing.dfy | the endpoint-pinned smoothing pass shared by the optimiser and the parallel offset |
| `ParallelOffset`, `PerpendicularOffset`, `AdaptiveOffset` | parallel_offset.dfy, perpendicular_offset.dfy, adaptive_offset.dfy | the three offset algorithms |
| `OffsetCommon` | offset_common.dfy | displacement of a point along a unit-or-zero vector |
| `Workflow` | workflow.dfy | `WorkflowManager`, a class whose methods update its fields |
| `Configuration`, `KeyPath` | configuration.dfy, key_path.dfy | `ConfigurationManager` and dotted keys |
| `ContextTools` | context_tools.dfy | the analysis and suggestion helpers |
| `SizeParsing` | size_parsing.dfy | `Logger._parse_size` |
| `Geometry`, `Numeric`, `Polyline`, `Wrappers` | geometry.dfy, numeric.dfy, polyline.dfy, wrappers.dfy | shared vectors, angles, curvature, index lists, `Option`/`Result` |

Loops in the source that build lists or update state are methods with loop invariants.
Most methods are proved equal to a specification function, and the properties are proved
about that function. A few are characterised directly by their `ensures`, with no single
function they equal, because the source leaves a choice open (the iteration order of a
set) or works by recursion over index ranges:

- `QualityOptimizer.QualityBasedSelection` and `QualityOptimizer.Optimize`, through the
  predicates `Selection` and `CornerSet`;
- `ReductionOptimizer.DouglasPeuckerRecursive`, `ReductionOptimizer.DouglasPeuckerReduction`
  and `ReductionOptimizer.Optimize`, through the predicates `WithinTolerance`, `KeptInOrder`
  and `Reduced`;
- `ReductionOptimizer.ShapePreservation`, through the predicate `Enhanced`.

## Behaviour of the source worth knowing

- **Corner-first selection is capped.** The selection stops adding corners once the target
  count is reached (optimization_algorithms.py:118-121). When there are more corners than
  the target, the first and last points may therefore be dropped. Which corners survive
  depends on the set's iteration order, which the model leaves open.
- **Counts truncate.** The quality and reduction target counts use `int()`, not rounding.
- **Adaptive offset on a straight line.** An interior point of a straight line moves by
  `min(d·max_distance_factor, 1.3·d)`, which is `1.3·d` with the defaults. It does not
  move by `d` (`AdaptiveOffset.StraightLineDefaults`).
- **Resampling can repeat an index.** Resampling to the target count can repeat the last
  index (7 points to 6 gives indices 0, 1, 3, 4, 6, 6), so kept indices are only
  non-decreasing.
- **Quality and corner angles differ.** The quality score uses the turning angle, while
  corner detection uses the interior angle.

## Model

| member | source | states |
|---|---|---|
| QualityOptimizer.Validate | src/inputCurveOptimizer/optimization_algorithms.py:54-58 | passes exactly when `target_quality` lies in [0.1, 1.0] |
| QualityOptimizer.DetectCorners | src/inputCurveOptimizer/optimization_algorithms.py:60-91 | no corners for fewer than 3 points; otherwise exactly the two endpoints plus every interior index whose interior angle is below π/4 with both neighbouring segments of non-zero length |
| QualityOptimizer.CornerSegmentsProper | src/inputCurveOptimizer/optimization_algorithms.py:76-85 | an interior corner never touches a zero-length segment |
| QualityOptimizer.PointQualityBounds | src/inputCurveOptimizer/optimization_algorithms.py:132-155 | every quality score (turning angle over π, 1 at the ends, 0.5 when degenerate) lies in [0, 1] |
| QualityOptimizer.TargetCountBounds | src/inputCurveOptimizer/optimization_algorithms.py:114 | `max(2, int(n·q))` lies between 2 and n for q in [0, 1] |
| QualityOptimizer.ComputeScores | src/inputCurveOptimizer/optimization_algorithms.py:99-108 | one score per point: 1.0 for a corner, the point quality otherwise |
| QualityOptimizer.CornersFirst | src/inputCurveOptimizer/optimization_algorithms.py:117-121 | takes corners, in any order, until the target is met: `min(target, #corners)` of them |
| QualityOptimizer.BestUnselected | src/inputCurveOptimizer/optimization_algorithms.py:110-126 | the unselected index that a stable descending sort by score meets first |
| QualityOptimizer.FillByScore | src/inputCurveOptimizer/optimization_algorithms.py:123-126 | tops the selection up to `min(target, n)` indices, and every index it adds outranks every index left out |
| QualityOptimizer.QualityBasedSelection | src/inputCurveOptimizer/optimization_algorithms.py:93-130 | lists of at most 2 points come back unchanged; otherwise exactly `min(max(2, int(n·q)), n)` points in ascending index order; all corners are kept when they fit, only corners when they do not, and every index chosen by score outranks every index left out |
| QualityOptimizer.BestMidpoint | src/inputCurveOptimizer/optimization_algorithms.py:184-208 | `None` exactly for fewer than 2 originals; the midpoint when every original is more than 0.5 from it; otherwise the first original that is nearest to the midpoint, which lies within 0.5 of it |
| QualityOptimizer.DistancesTo | src/inputCurveOptimizer/optimization_algorithms.py:198-199 | the distance from the midpoint to each original point |
| QualityOptimizer.FindBestMidpoint | src/inputCurveOptimizer/optimization_algorithms.py:184-208 | the scan for the first nearest original equals `BestMidpoint` |
| QualityOptimizer.Gap | src/inputCurveOptimizer/optimization_algorithms.py:173-179 | one inserted point exactly when the pair is more than 1.0 apart and there are at least 2 originals, none otherwise; the inserted point is the best midpoint |
| QualityOptimizer.Gaps | src/inputCurveOptimizer/optimization_algorithms.py:166-179 | one gap per consecutive pair, each of at most one point |
| QualityOptimizer.GapsAt | src/inputCurveOptimizer/optimization_algorithms.py:166-179 | gap j is the gap of the pair `(opt[j], opt[j+1])` |
| QualityOptimizer.Weave | src/inputCurveOptimizer/optimization_algorithms.py:164-179 | the first k selected points with their gaps hold between k and 2k points |
| QualityOptimizer.Densified | src/inputCurveOptimizer/optimization_algorithms.py:157-182 | lists of at most 2 points come back unchanged; otherwise the length lies in [m, 2m-1] and both ends are kept |
| QualityOptimizer.WeaveAt | src/inputCurveOptimizer/optimization_algorithms.py:166-170 | selected point i sits right after the prefix woven before it |
| QualityOptimizer.DensifiedKeepsSelected | src/inputCurveOptimizer/optimization_algorithms.py:157-182 | every selected point appears in the densified list, in order |
| QualityOptimizer.DensifiedGaps | src/inputCurveOptimizer/optimization_algorithms.py:166-179 | between consecutive selected points there is at most one inserted point; it is inserted exactly when they are more than 1.0 apart (with more than 2 selected and at least 2 originals), and it is the best midpoint |
| QualityOptimizer.GapAt | src/inputCurveOptimizer/optimization_algorithms.py:166-179 | for one consecutive pair: a point is inserted after it if and only if the pair is more than 1.0 apart (given at least 2 originals), and that point is the best midpoint |
| QualityOptimizer.WeaveGap | src/inputCurveOptimizer/optimization_algorithms.py:170-179 | locates gap i in the woven list |
| QualityOptimizer.WeavePrefix | src/inputCurveOptimizer/optimization_algorithms.py:164-180 | a shorter weave is a prefix of a longer one (points are only appended) |
| QualityOptimizer.PreserveShapeOptimization | src/inputCurveOptimizer/optimization_algorithms.py:157-182 | the append loop builds exactly `Densified` |
| QualityOptimizer.DensifyLoop | src/inputCurveOptimizer/optimization_algorithms.py:164-179 | the loop over pairs builds the full weave |
| QualityOptimizer.DensifiedShort | src/inputCurveOptimizer/optimization_algorithms.py:160-161 | at most 2 selected points come back unchanged |
| QualityOptimizer.DensifiedIsWeave | src/inputCurveOptimizer/optimization_algorithms.py:164-182 | the densified list is the weave followed by the last selected point |
| QualityOptimizer.WeaveTurn | src/inputCurveOptimizer/optimization_algorithms.py:166-179 | one loop turn extends the weave by one pair |
| QualityOptimizer.GapPoints | src/inputCurveOptimizer/optimization_algorithms.py:173-179 | the points one turn appends after `p1` are the gap |
| QualityOptimizer.WeaveStep | src/inputCurveOptimizer/optimization_algorithms.py:170-179 | the weave grows by the selected point and then its gap |
| QualityOptimizer.Optimize | src/inputCurveOptimizer/optimization_algorithms.py:29-52 | fewer than 3 points come back unchanged; otherwise the corners are exactly the detected ones (endpoints plus sharp interior vertices) with corner detection on and none with it off; the selection meets every guarantee of `QualityBasedSelection` for those corners; the result is the selection, or exactly `Densified` of it with shape preservation; so with m the selection size it has between m and 2m-1 points, and exactly m without shape preservation |
| ReductionOptimizer.Validate | src/inputCurveOptimizer/optimization_algorithms.py:234-238 | passes exactly when `max_point_reduction` lies in [0.1, 0.9] |
| ReductionOptimizer.TargetCountBelow | src/inputCurveOptimizer/optimization_algorithms.py:223 | for a valid reduction and n ≥ 3 the target lies in [2, n) |
| Polyline.MinOf | src/inputCurveOptimizer/optimization_algorithms.py:270-273 | the smallest entry: no entry is smaller, and some entry equals it |
| Polyline.MaxOf | src/inputCurveOptimizer/optimization_algorithms.py:270-273 | the largest entry: no entry is larger, and some entry equals it |
| Polyline.Xs | ui/contextAware/context_tools.py:131 | the x coordinates, pointwise |
| Polyline.Ys | ui/contextAware/context_tools.py:132 | the y coordinates, pointwise |
| ReductionOptimizer.CurveSize | src/inputCurveOptimizer/optimization_algorithms.py:270-275 | non-negative and bounds every coordinate difference |
| ReductionOptimizer.AdaptiveTolerance | src/inputCurveOptimizer/optimization_algorithms.py:263-281 | 0 when no reduction is needed, otherwise at least 0.001 |
| ReductionOptimizer.FarthestPoint | src/inputCurveOptimizer/optimization_algorithms.py:294-301 | the largest deviation strictly between the ends, at its first index; `start` with distance 0 when none is positive |
| ReductionOptimizer.DouglasPeuckerRecursive | src/inputCurveOptimizer/optimization_algorithms.py:283-311 | only indices strictly inside `(start, end)`, and none exactly when every deviation is within the tolerance; the first farthest interior point is kept whenever its deviation exceeds the tolerance; and with both ends added, every point between two neighbouring kept indices lies within the tolerance of their chord |
| ReductionOptimizer.ChordWithinTolerance | src/inputCurveOptimizer/optimization_algorithms.py:306-311 | when no deviation exceeds the tolerance, the chord alone covers the range |
| ReductionOptimizer.SplitWithinTolerance | src/inputCurveOptimizer/optimization_algorithms.py:306-309 | the guarantees for the halves left and right of the farthest point give the guarantee for the whole range |
| ReductionOptimizer.ResampleIndex | src/inputCurveOptimizer/optimization_algorithms.py:343-348 | `min(round(i·len/(t-1)), len-1)` is a valid index |
| ReductionOptimizer.ResampleIndices | src/inputCurveOptimizer/optimization_algorithms.py:343-349 | exactly t valid indices |
| ReductionOptimizer.ResampleIndicesShape | src/inputCurveOptimizer/optimization_algorithms.py:343-349 | resampled indices start at 0, end at len-1 and never decrease |
| ReductionOptimizer.ResampleFirst | src/inputCurveOptimizer/optimization_algorithms.py:347 | the first resampled index is 0 |
| ReductionOptimizer.ResampleLast | src/inputCurveOptimizer/optimization_algorithms.py:347-348 | the last resampled index is len-1 |
| ReductionOptimizer.ResampleMonotone | src/inputCurveOptimizer/optimization_algorithms.py:347-348 | resampled indices never decrease |
| ReductionOptimizer.ResampleRepeats | src/inputCurveOptimizer/optimization_algorithms.py:343-349 | 7 points resampled to 6 give indices 0, 1, 3, 4, 6, 6 (a repeat) |
| ReductionOptimizer.ReduceToTarget | src/inputCurveOptimizer/optimization_algorithms.py:336-351 | short lists come back unchanged; otherwise the points at the resampled indices |
| ReductionOptimizer.DouglasPeuckerReduction | src/inputCurveOptimizer/optimization_algorithms.py:240-261 | lists within the target come back unchanged; otherwise between 2 and target points, the points at non-decreasing indices that start at 0 and end at n-1; these are the Douglas-Peucker indices for the adaptive tolerance (both ends included, every point within the tolerance of its neighbouring kept chord) in ascending order, resampled to the target when there are more |
| ReductionOptimizer.ReduceLong | src/inputCurveOptimizer/optimization_algorithms.py:246-261 | the reduction of a list longer than the target, with the same guarantees |
| ReductionOptimizer.DouglasPeuckerIndices | src/inputCurveOptimizer/optimization_algorithms.py:249-252 | the recursive indices plus both ends: every index in range, and every point within the tolerance of its neighbouring kept chord |
| ReductionOptimizer.GatherWithinTarget | src/inputCurveOptimizer/optimization_algorithms.py:255-259 | the points at the sorted indices, or at their resampling when there are more than the target: between 2 and target points, both ends kept |
| ReductionOptimizer.ResampledIndices | src/inputCurveOptimizer/optimization_algorithms.py:255-259 | resampling the gathered points equals gathering at composed indices, which keep order and ends |
| ReductionOptimizer.AscendingEnds | src/inputCurveOptimizer/optimization_algorithms.py:251-255 | the sorted kept indices start at 0 and end at n-1 |
| ReductionOptimizer.DetectHighCurvature | src/inputCurveOptimizer/optimization_algorithms.py:373-386 | exactly the interior indices whose curvature exceeds 0.3 |
| ReductionOptimizer.SegmentDistances | src/inputCurveOptimizer/optimization_algorithms.py:418-419 | the point's distance to each segment |
| ReductionOptimizer.NearestSegment | src/inputCurveOptimizer/optimization_algorithms.py:415-422 | a segment nearest to the point, the first such |
| ReductionOptimizer.InsertedNearest | src/inputCurveOptimizer/optimization_algorithms.py:407-425 | one point longer |
| ReductionOptimizer.InsertedNearestShape | src/inputCurveOptimizer/optimization_algorithms.py:407-425 | the insertion adds exactly the new point (as a multiset), keeps both ends and places the point between the ends of the nearest segment |
| ReductionOptimizer.FindNearestSegment | src/inputCurveOptimizer/optimization_algorithms.py:415-422 | the scan equals `NearestSegment` |
| ReductionOptimizer.InsertAtBestLocation | src/inputCurveOptimizer/optimization_algorithms.py:407-425 | the in-place insertion equals `InsertedNearest` |
| ReductionOptimizer.ShapePreservation | src/inputCurveOptimizer/optimization_algorithms.py:353-371 | fewer than 3 originals or 2 reduced points come back unchanged; otherwise adds exactly the originals at the interior high-curvature indices (as a multiset), one per index; the reduced points keep their order inside the result; both ends are kept; every point is a reduced point or an original |
| ReductionOptimizer.InsertAll | src/inputCurveOptimizer/optimization_algorithms.py:363-369 | inserting the points of a set of interior indices one by one adds exactly those points (as a multiset), keeps the reduced points in order and keeps both ends |
| ReductionOptimizer.InsertNext | src/inputCurveOptimizer/optimization_algorithms.py:365-369 | one turn of the insertion loop keeps the insertion invariant and takes one index off the remaining set |
| ReductionOptimizer.InsertOne | src/inputCurveOptimizer/optimization_algorithms.py:368-369 | one insertion adds exactly the given point and keeps the reduced points in order and both ends |
| ReductionOptimizer.InsertedNearestKeepsOrder | src/inputCurveOptimizer/optimization_algorithms.py:407-425 | inserting into a list keeps every subsequence of it a subsequence |
| ReductionOptimizer.PointsAtRemove | src/inputCurveOptimizer/optimization_algorithms.py:363-369 | taking one index out of the set takes exactly its point out of the multiset of points |
| Polyline.SpliceKeepsOrder | src/inputCurveOptimizer/optimization_algorithms.py:425 | `list.insert` after a position keeps every embedding, with the later positions shifted by one |
| ReductionOptimizer.Optimize | src/inputCurveOptimizer/optimization_algorithms.py:213-232 | fewer than 3 points come back unchanged; otherwise `reduced` is the points at non-decreasing indices from 0 to n-1, the input itself when it is within the target and otherwise exactly the Douglas-Peucker reduction of `DouglasPeuckerReduction`; the result is `reduced` without shape preservation and `reduced` enhanced as `ShapePreservation` states with it; in every case at least 2 points, both ends kept and only input points |
| Polyline.Ascending | src/inputCurveOptimizer/optimization_algorithms.py:129 | `sorted(indices)`: strictly increasing, with exactly the set's members |
| Polyline.AscendingLength | src/inputCurveOptimizer/optimization_algorithms.py:129 | sorting keeps the number of indices |
| Polyline.Gather | src/inputCurveOptimizer/optimization_algorithms.py:129 | `[points[i] for i in idx]`, pointwise |
| Polyline.FirstMin | src/inputCurveOptimizer/optimization_algorithms.py:415-422 | the first position of the minimum |
| Polyline.FirstMinStep | src/inputCurveOptimizer/optimization_algorithms.py:420-422 | one scan step keeps the first minimum (strict `<`) |
| Polyline.VertexCurvature | src/inputCurveOptimizer/optimization_algorithms.py:388-405 | in [0, 1], and 0 at the ends and at degenerate segments |
| SmoothingOptimizer.Validate | src/inputCurveOptimizer/optimization_algorithms.py:452-460 | passes exactly when the factor lies in [0, 1] and the iterations lie in [1, 10]; the factor is checked first |
| SmoothingOptimizer.PreservedShape | src/inputCurveOptimizer/optimization_algorithms.py:484-509 | lists of different lengths come back unchanged; otherwise both ends reset to the originals, an interior point that drifted more than 0.5 becomes the midpoint of the original and the smoothed point, and any other interior point stays the smoothed point |
| SmoothingOptimizer.PreserveShapeAfterSmoothing | src/inputCurveOptimizer/optimization_algorithms.py:484-509 | the loop equals `PreservedShape` |
| SmoothingOptimizer.PreservedShapeCloser | src/inputCurveOptimizer/optimization_algorithms.py:499-507 | a preserved point is never farther from the original than the smoothed one, and is exactly half as far when the drift exceeds 0.5 |
| SmoothingOptimizer.Smoothed | src/inputCurveOptimizer/optimization_algorithms.py:430-450 | same length, both ends kept |
| SmoothingOptimizer.Optimize | src/inputCurveOptimizer/optimization_algorithms.py:430-450 | the iteration loop equals `Smoothed` |
| SmoothingOptimizer.ZeroFactorIdentity | src/inputCurveOptimizer/optimization_algorithms.py:430-450 | factor 0 leaves every point unchanged |
| SmoothingOptimizer.PreservedShapeIdentity | src/inputCurveOptimizer/optimization_algorithms.py:484-509 | preserving against the curve itself changes nothing |
| Smoothing.SmoothPass | src/inputCurveOptimizer/optimization_algorithms.py:462-482 | same length, both ends kept, short lists unchanged |
| Smoothing.SmoothPassAt | src/inputCurveOptimizer/optimization_algorithms.py:470-479 | each interior point is smoothed against its original neighbours |
| Smoothing.ApplySmoothing | src/inputCurveOptimizer/optimization_algorithms.py:462-482 | the append loop equals one pass |
| Smoothing.SmoothTimes | src/offsetCurveDeformer/offset_algorithms.py:179-193 | k passes keep the length and both ends |
| Smoothing.SmoothRepeatedly | src/offsetCurveDeformer/offset_algorithms.py:185-193 | the iteration loop is `max(0, iterations)` passes |
| Smoothing.SmoothTimesLast | src/offsetCurveDeformer/offset_algorithms.py:185-193 | k+1 passes are one more pass after k |
| Smoothing.SmoothPassIdentity | src/inputCurveOptimizer/optimization_algorithms.py:462-482 | factor 0 leaves a pass unchanged |
| Smoothing.SmoothTimesIdentity | src/offsetCurveDeformer/offset_algorithms.py:179-193 | factor 0 leaves any number of passes unchanged |
| Smoothing.SmoothPointInBox | src/inputCurveOptimizer/optimization_algorithms.py:476-477 | for a factor in [0, 1] a smoothed point stays in the bounding box of its three points |
| ParallelOffset.Validate | src/offsetCurveDeformer/offset_algorithms.py:77-81 | passes exactly when `corner_handling` is none, round or adaptive |
| ParallelOffset.Normals | src/offsetCurveDeformer/offset_algorithms.py:83-106 | n-1 normals |
| ParallelOffset.CalculateNormals | src/offsetCurveDeformer/offset_algorithms.py:83-106 | the loop equals `Normals` |
| ParallelOffset.NormalsAreUnitPerpendiculars | src/offsetCurveDeformer/offset_algorithms.py:83-106 | each normal is unit length and perpendicular to its segment, or zero exactly for a zero-length segment |
| ParallelOffset.SegmentNormalLaws | src/offsetCurveDeformer/offset_algorithms.py:90-104 | the same for one segment |
| ParallelOffset.NormalizedPerpIsPerpendicular | src/offsetCurveDeformer/offset_algorithms.py:90-104 | `(-dy, dx)` normalised is perpendicular to `(dx, dy)` |
| ParallelOffset.BaseOffset | src/offsetCurveDeformer/offset_algorithms.py:41-65 | one moved point per input point |
| ParallelOffset.ComputeBaseOffset | src/offsetCurveDeformer/offset_algorithms.py:41-65 | the loop equals `BaseOffset` |
| ParallelOffset.OffsetPoint | src/offsetCurveDeformer/offset_algorithms.py:44-63 | ends move along their segment's normal; interior points along the renormalised average of the adjacent normals |
| ParallelOffset.BaseOffsetPointwise | src/offsetCurveDeformer/offset_algorithms.py:41-65 | pointwise agreement gives the whole moved curve |
| ParallelOffset.BaseOffsetDistance | src/offsetCurveDeformer/offset_algorithms.py:41-65 | every point moves by exactly \|d\| when its (averaged) normal is non-zero, and stays put when it is zero |
| ParallelOffset.RoundedCorner | src/offsetCurveDeformer/offset_algorithms.py:227-243 | a corner becomes exactly two points |
| ParallelOffset.RoundedCornerInBox | src/offsetCurveDeformer/offset_algorithms.py:227-243 | both Bézier points lie in the bounding box of the three corner points |
| ParallelOffset.CalculateAngleLaws | src/offsetCurveDeformer/offset_algorithms.py:195-209 | `calculate_angle` lies in [0, π] and is 0 for a degenerate segment |
| ParallelOffset.RoundTriggers | src/offsetCurveDeformer/offset_algorithms.py:130-145 | one flag per interior vertex |
| ParallelOffset.AdaptiveTriggers | src/offsetCurveDeformer/offset_algorithms.py:158-175 | one flag per interior vertex |
| ParallelOffset.RoundTriggerAt | src/offsetCurveDeformer/offset_algorithms.py:137-140 | round mode triggers exactly when the angle is below the threshold |
| ParallelOffset.AdaptiveTriggerAt | src/offsetCurveDeformer/offset_algorithms.py:165-168 | adaptive mode triggers exactly when the curvature exceeds the threshold |
| ParallelOffset.CornerPiece | src/offsetCurveDeformer/offset_algorithms.py:137-143 | a triggered vertex gives two points, an untriggered one itself |
| ParallelOffset.CountTrue | src/offsetCurveDeformer/offset_algorithms.py:121-177 | the number of triggered vertices |
| ParallelOffset.ReplacementsLength | src/offsetCurveDeformer/offset_algorithms.py:121-177 | the interior grows by one point per triggered vertex |
| ParallelOffset.ReplacementsUnflagged | src/offsetCurveDeformer/offset_algorithms.py:121-177 | no trigger, no change in the interior |
| ParallelOffset.WithCorners | src/offsetCurveDeformer/offset_algorithms.py:121-177 | length n + triggered count, first and last points kept |
| ParallelOffset.WithCornersUnflagged | src/offsetCurveDeformer/offset_algorithms.py:121-177 | no trigger, curve unchanged |
| ParallelOffset.ReplacementsStep | src/offsetCurveDeformer/offset_algorithms.py:133-143 | one loop turn appends one piece |
| ParallelOffset.WithCornersComplete | src/offsetCurveDeformer/offset_algorithms.py:145-147 | appending the last point completes the replacement |
| ParallelOffset.CornerTurn | src/offsetCurveDeformer/offset_algorithms.py:133-143 | one loop turn keeps the accumulated list equal to the replacement prefix |
| ParallelOffset.RoundCorners | src/offsetCurveDeformer/offset_algorithms.py:121-147 | short curves unchanged; otherwise every vertex whose angle is below the threshold is replaced |
| ParallelOffset.AdaptiveCornerHandling | src/offsetCurveDeformer/offset_algorithms.py:149-177 | short curves unchanged; otherwise every vertex whose curvature is above the threshold is replaced |
| ParallelOffset.CornersHandled | src/offsetCurveDeformer/offset_algorithms.py:108-119 | short curves unchanged; otherwise no shorter, ends kept |
| ParallelOffset.HandleCorners | src/offsetCurveDeformer/offset_algorithms.py:108-119 | the dispatch equals `CornersHandled` |
| ParallelOffset.AdaptiveKeepsStraightCurves | src/offsetCurveDeformer/offset_algorithms.py:149-177 | on a straight curve adaptive handling changes nothing |
| ParallelOffset.SmoothedOffset | src/offsetCurveDeformer/offset_algorithms.py:179-193 | same length, both ends kept |
| ParallelOffset.SmoothOffsetCurve | src/offsetCurveDeformer/offset_algorithms.py:179-193 | the loop equals `SmoothedOffset` |
| ParallelOffset.Finish | src/offsetCurveDeformer/offset_algorithms.py:67-73 | corner handling then smoothing never loses a point |
| ParallelOffset.SmoothingStep | src/offsetCurveDeformer/offset_algorithms.py:72-73 | same length, both ends kept |
| ParallelOffset.Cornered | src/offsetCurveDeformer/offset_algorithms.py:68-69 | no shorter, both ends kept |
| ParallelOffset.Offset | src/offsetCurveDeformer/offset_algorithms.py:29-75 | `None` exactly for fewer than 2 points |
| ParallelOffset.GenerateOffset | src/offsetCurveDeformer/offset_algorithms.py:29-75 | the method equals `Offset` |
| ParallelOffset.BaseOffsetEnds | src/offsetCurveDeformer/offset_algorithms.py:44-47 | the ends use `normals[0]` and `normals[n-2]` |
| ParallelOffset.FinishEnds | src/offsetCurveDeformer/offset_algorithms.py:67-73 | corner handling followed by smoothing keeps the first and the last point |
| ParallelOffset.OffsetFirst | src/offsetCurveDeformer/offset_algorithms.py:29-75 | the returned curve starts at `points[0] + normals[0]·d` |
| ParallelOffset.OffsetLast | src/offsetCurveDeformer/offset_algorithms.py:29-75 | the returned curve ends at `points[-1] + normals[n-2]·d` |
| ParallelOffset.OffsetLength | src/offsetCurveDeformer/offset_algorithms.py:29-75 | n points without corner handling; n plus the triggered vertices of the moved curve with it |
| PerpendicularOffset.Offset | src/offsetCurveDeformer/offset_algorithms.py:269-328 | `None` exactly for fewer than 2 points, else one point per input point |
| PerpendicularOffset.GenerateOffset | src/offsetCurveDeformer/offset_algorithms.py:269-328 | the loop equals `Offset` |
| PerpendicularOffset.Validate | src/offsetCurveDeformer/offset_algorithms.py:330-333 | always passes |
| PerpendicularOffset.InteriorDirectionIsChordPerp | src/offsetCurveDeformer/offset_algorithms.py:269-328 | an interior direction is the perpendicular of half the chord, the average of both edge perpendiculars |
| PerpendicularOffset.OffsetDistance | src/offsetCurveDeformer/offset_algorithms.py:269-328 | every point moves by exactly \|d\| when its direction is non-zero, and stays put when it is zero |
| AdaptiveOffset.Validate | src/offsetCurveDeformer/offset_algorithms.py:399-407 | passes exactly when the curvature threshold lies in [0, 1] and the distance factor exceeds 1; the threshold is checked first |
| AdaptiveOffset.ModulatedDistanceBounds | src/offsetCurveDeformer/offset_algorithms.py:358-364 | for d ≥ 0 an interior distance lies in [0.5d, 1.3d] |
| AdaptiveOffset.AdjustedDistanceBounds | src/offsetCurveDeformer/offset_algorithms.py:350-364 | every distance, ends included, lies in [0.5d, 1.3d] |
| AdaptiveOffset.StraightLineDistance | src/offsetCurveDeformer/offset_algorithms.py:358-364 | on a straight stretch the interior distance is `min(d·mdf, 1.3d)` |
| AdaptiveOffset.StraightLineDefaults | src/offsetCurveDeformer/offset_algorithms.py:345-364 | with the defaults that is 1.3d, not d |
| AdaptiveOffset.SameDirectionAsPerpendicular | src/offsetCurveDeformer/offset_algorithms.py:366-390 | the direction is the perpendicular algorithm's at every index |
| AdaptiveOffset.Offset | src/offsetCurveDeformer/offset_algorithms.py:338-397 | `None` exactly for fewer than 2 points, else one point per input point |
| AdaptiveOffset.GenerateOffset | src/offsetCurveDeformer/offset_algorithms.py:338-397 | the loop equals `Offset` |
| AdaptiveOffset.GenerateOffsetPoint | src/offsetCurveDeformer/offset_algorithms.py:350-394 | one loop turn computes the specified point |
| AdaptiveOffset.OffsetPointwise | src/offsetCurveDeformer/offset_algorithms.py:348-397 | pointwise agreement gives the whole offset |
| AdaptiveOffset.EndpointsAgreeWithPerpendicular | src/offsetCurveDeformer/offset_algorithms.py:351-353 | both ends coincide with the perpendicular offset's |
| AdaptiveOffset.OffsetDistance | src/offsetCurveDeformer/offset_algorithms.py:338-397 | each point moves by exactly its adjusted distance when its direction is non-zero, and stays put when it is zero |
| OffsetCommon.ScaledLength | src/offsetCurveDeformer/offset_algorithms.py:47 | scaling multiplies the squared length by d² |
| OffsetCommon.NormalizedUnitOrZero | src/offsetCurveDeformer/offset_algorithms.py:58-61 | normalising gives a unit vector, or zero exactly for the zero vector |
| OffsetCommon.DisplaceMovesBy | src/offsetCurveDeformer/offset_algorithms.py:47 | moving along a unit vector moves by exactly \|d\|; along the zero vector, not at all |
| OffsetCommon.DisplaceAlongNormalized | src/offsetCurveDeformer/offset_algorithms.py:54-63 | moving along the normalised average normal moves by exactly \|d\| when the average is non-zero, and not at all when it is zero |
| Geometry.NormLaws | src/offsetCurveDeformer/offset_algorithms.py:92-93 | a norm is non-negative and zero exactly for the zero vector |
| Geometry.DistLaws | ui/contextAware/context_tools.py:189 | a distance is non-negative and zero exactly for equal points |
| Geometry.Normalize | src/offsetCurveDeformer/offset_algorithms.py:58-61 | zero stays zero |
| Geometry.NormalizeUnitOrZero | src/offsetCurveDeformer/offset_algorithms.py:58-61 | a non-zero vector becomes a positive multiple of itself with unit length |
| Geometry.VectorAngleLaws | src/offsetCurveDeformer/offset_algorithms.py:195-209 | an angle exists exactly for two non-zero vectors and lies in [0, π] |
| Geometry.TriangleArea | src/inputCurveOptimizer/optimization_algorithms.py:396 | non-negative |
| Geometry.Curvature | src/offsetCurveDeformer/offset_algorithms.py:211-225 | in [0, 1], and positive only for two proper segments spanning a triangle |
| Geometry.CollinearCurvature | src/offsetCurveDeformer/offset_algorithms.py:409-429 | three collinear points have curvature 0 |
| Geometry.SegmentDistanceNonneg | src/inputCurveOptimizer/optimization_algorithms.py:313-334 | the distance to a segment is non-negative |
| Geometry.SegmentDistanceAtStart | src/inputCurveOptimizer/optimization_algorithms.py:313-334 | a segment's start point is at distance 0 |
| Geometry.SegmentDistanceAtEnd | src/inputCurveOptimizer/optimization_algorithms.py:313-334 | a segment's end point is at distance 0 |
| Geometry.BernsteinWeights | src/offsetCurveDeformer/offset_algorithms.py:236-241 | the quadratic Bézier weights are non-negative and sum to 1 |
| Geometry.QuadBezierInBox | src/offsetCurveDeformer/offset_algorithms.py:227-243 | a quadratic Bézier point lies in the bounding box of its control points |
| Geometry.BlendInBox | src/offsetCurveDeformer/offset_algorithms.py:236-241 | a convex combination of three points lies in their bounding box |
| Workflow.InitialSteps | src/integratedWorkflow/workflow_manager.py:106-156 | five steps, all pending with no result |
| Workflow.Existing | src/integratedWorkflow/workflow_manager.py:182-185 | exactly the names that exist in the scene |
| Workflow.ExistingIsSubsequence | src/integratedWorkflow/workflow_manager.py:182-185 | the valid curves keep the order of the requested names: each sits at a later position than the one before |
| Polyline.MatchLastKeepsOrder | src/integratedWorkflow/workflow_manager.py:183-185 | appending the same element to both lists extends an order-keeping embedding by the new last position |
| Workflow.WorkflowManager.constructor | src/integratedWorkflow/workflow_manager.py:35-53 | five pending steps, index 0, status idle, nothing selected |
| Workflow.WorkflowManager.GetWorkflowStatus | src/integratedWorkflow/workflow_manager.py:158-175 | reports the status, the current index, the step count and each step's name, description, status and parameters |
| Workflow.WorkflowManager.UpdateStepParameters | src/integratedWorkflow/workflow_manager.py:207-217 | true exactly for a valid index; then only that step's parameters change, by a dictionary update |
| Workflow.WorkflowManager.SelectCurves | src/integratedWorkflow/workflow_manager.py:177-205 | true exactly when Maya is available and some name exists; stores the existing names; on success step 0 keeps its name, description and status and its parameters gain exactly the selection entries; on failure the steps are unchanged |
| Workflow.WorkflowManager.StartWorkflow | src/integratedWorkflow/workflow_manager.py:219-234 | fails, changing nothing, when Maya is available and nothing is selected; otherwise running at index 0 |
| Workflow.WorkflowManager.ExecuteCurrentStep | src/integratedWorkflow/workflow_manager.py:236-268 | nothing changes past the last step; otherwise only the current step changes, completed with the result or failed with the message; with the five steps and a valid index, it succeeds exactly when the body does |
| Workflow.WorkflowManager.NextStep | src/integratedWorkflow/workflow_manager.py:270-277 | advances while not at the last step; there it marks the workflow completed and keeps the index; with the five steps, it advances exactly before step 4 and the index stays below 5 |
| Workflow.WorkflowManager.ResetWorkflow | src/integratedWorkflow/workflow_manager.py:367-374 | idle at index 0, every step pending with no result, parameters kept |
| Workflow.Executed | src/integratedWorkflow/workflow_manager.py:259-266 | completed exactly on success, failed exactly on error; name and parameters kept |
| Workflow.SelectionParameters | src/integratedWorkflow/workflow_manager.py:194-197 | the two keys `selected_curves` and `curve_count`, the count being the number of curves |
| KeyPath.Split | src/core/configuration.py:92 | at least one segment, none containing a dot |
| KeyPath.JoinSplit | src/core/configuration.py:92 | joining the segments with dots gives the key back |
| KeyPath.SplitJoin | src/core/configuration.py:92 | splitting dot-free segments joined by dots gives them back |
| KeyPath.SplitPlain | src/core/configuration.py:92 | a key without a dot is one segment |
| KeyPath.SplitPrefix | src/core/configuration.py:92 | a dot-free head is the first segment |
| Configuration.Lookup | src/core/configuration.py:93-95 | a non-empty path into a non-dictionary finds nothing |
| Configuration.Get | src/core/configuration.py:89-100 | the stored value when the dotted walk finds one; an error exactly when the walk fails and the default is `None`; the default, however falsy, when the walk fails otherwise |
| Configuration.Assign | src/core/configuration.py:105-115 | on success the top level gains at most the first segment |
| Configuration.AssignThenLookup | src/core/configuration.py:102-126 | after a successful set, the key reads back the value |
| Configuration.AssignFailsIffBlocked | src/core/configuration.py:109-115 | a set fails exactly when the walk meets a value that is not a dictionary |
| Configuration.AssignLeavesOthers | src/core/configuration.py:106-115 | a set leaves every diverging path as it was |
| Configuration.GetAfterSet | src/core/configuration.py:89-126 | `get_config` after a successful `set_config` returns the value |
| Configuration.SetLeavesOtherKeys | src/core/configuration.py:89-126 | `get_config` of a diverging key is unaffected by a set |
| Configuration.GetSectionKey | src/core/configuration.py:89-100 | a two-segment key reads the section entry, or falls back as `Get` says |
| Configuration.LookupSectionEntry | src/core/configuration.py:93-95 | a two-segment walk is the section entry |
| Configuration.DefaultLanguage | src/core/configuration.py:34-87 | `general.language` defaults to `ko` |
| Configuration.FalsyDefaultReturned | src/core/configuration.py:97-99 | a missing key with default 0 returns 0 |
| Configuration.GeneralSection | src/core/configuration.py:34-87 | the `general` section of the defaults |
| Configuration.LookupBelowLeaf | src/core/configuration.py:93-97 | walking past a leaf finds nothing |
| Configuration.GetBelowLeaf | src/core/configuration.py:93-100 | a key that walks past a leaf gives the default or an error |
| Configuration.Keys | src/core/configuration.py:164-170 | every key at any depth, top-level keys included |
| Configuration.KeysOfChild | src/core/configuration.py:164-170 | nested keys are keys of the parent |
| Configuration.MergeEntriesFrame | src/core/configuration.py:164-170 | the merge loop leaves keys that occur nowhere in the new map alone |
| Configuration.MergeFrame | src/core/configuration.py:164-170 | the merge as written leaves keys that occur nowhere in the new map alone |
| Configuration.MergeEntriesKeys | src/core/configuration.py:164-170 | the merge loop keeps every root key and adds each visited key |
| Configuration.MergeKeys | src/core/configuration.py:164-170 | the merge as written keeps the root keys and adds the new top-level keys |
| Configuration.SingleKeyOrder | src/core/configuration.py:166 | a one-entry dictionary iterates its one key |
| Configuration.MergeSectionIsMergeAtRoot | src/core/configuration.py:167-168 | merging `{k: section}` is merging `section` into the root |
| Configuration.LoadedThemeAsWritten | src/core/configuration.py:164-170 | a loaded `{"general": {"theme": "dark"}}` sets a top-level `theme` and leaves `general.theme` as it was |
| Configuration.DeepMerge | src/core/configuration.py:164-170 | the intended merge has exactly the keys of both maps |
| Configuration.DeepMergeTakesOverlay | src/core/configuration.py:164-170 | every leaf of the new map is found at its own path |
| Configuration.DeepMergeKeepsBase | src/core/configuration.py:164-170 | every old value at a path the new map does not cover survives |
| Configuration.LoadedThemeDeepMerge | src/core/configuration.py:164-170 | the intended merge sets `general.theme`, keeps the rest of the section and adds only `general` |
| Configuration.ConfigurationManager.constructor | src/core/configuration.py:18-32 | starts from the defaults |
| Configuration.ConfigurationManager.GetConfig | src/core/configuration.py:89-100 | the walking loop equals `Get` |
| Configuration.ConfigurationManager.SetConfig | src/core/configuration.py:102-126 | false, changing nothing, exactly when the walk is blocked; otherwise the key reads back the value |
| Configuration.ConfigurationManager.MergeConfigAsWritten | src/core/configuration.py:164-170 | the loop as written equals `MergeAsWritten` |
| Configuration.ConfigurationManager.MergeConfig | src/core/configuration.py:164-170 | the corrected merge, in any key order, equals `DeepMerge` |
| Configuration.ConfigurationManager.GetAllConfig | src/core/configuration.py:172-174 | the whole configuration |
| Configuration.ConfigurationManager.ResetToDefaults | src/core/configuration.py:176-180 | exactly the defaults again |
| ContextTools.SumConstant | ui/contextAware/context_tools.py:198-199 | the sum of n copies of c is n·c |
| ContextTools.ClosedSidesArePath | ui/contextAware/context_tools.py:172-178 | the first k wrapped sides are the open path's |
| ContextTools.PerimeterIsPathPlusClosing | ui/contextAware/context_tools.py:167-180 | the perimeter is the path length plus the closing side from last to first |
| ContextTools.ClosedSidesNonneg | ui/contextAware/context_tools.py:172-178 | the partial sums are non-negative |
| ContextTools.CalculatePerimeter | ui/contextAware/context_tools.py:167-180 | the loop equals `Perimeter`, and the result is non-negative |
| ContextTools.IsCurveClosed | ui/contextAware/context_tools.py:182-190 | never closed below 3 points |
| ContextTools.ClosedIffNear | ui/contextAware/context_tools.py:182-190 | closed exactly when there are at least 3 points and the ends are less than 1.0 apart |
| ContextTools.AnyNear | ui/contextAware/context_tools.py:208 | true exactly when some value lies within 1.0 of the target |
| ContextTools.MirroredStep | ui/contextAware/context_tools.py:205-214 | one loop turn adds one point's reflection test |
| ContextTools.SymmetryOf | ui/contextAware/context_tools.py:192-220 | rotational exactly when horizontal and vertical; nothing below 2 points |
| ContextTools.AnalyzeSymmetry | ui/contextAware/context_tools.py:192-220 | the loop equals `SymmetryOf` |
| ContextTools.SymmetryOfScan | ui/contextAware/context_tools.py:198-220 | the scan's two flags determine the symmetry record |
| ContextTools.VerticalLineIsHorizontallySymmetric | ui/contextAware/context_tools.py:192-220 | points sharing one x are horizontally symmetric |
| ContextTools.AreaSumNonneg | ui/contextAware/context_tools.py:141-149 | the triangle-area sum is non-negative |
| ContextTools.Density | ui/contextAware/context_tools.py:154 | non-negative, and 0 for a non-positive extent |
| ContextTools.DensityTimesExtent | ui/contextAware/context_tools.py:154 | for a positive extent, density times extent is the point count |
| ContextTools.SpanX | ui/contextAware/context_tools.py:137 | the width is non-negative |
| ContextTools.SpanY | ui/contextAware/context_tools.py:138 | the height is non-negative |
| ContextTools.BoundingBox | ui/contextAware/context_tools.py:135-138 | every point lies in the box given by the minima and the spans |
| ContextTools.ZeroExtent | ui/contextAware/context_tools.py:137-138 | width plus height is 0 exactly when all points coincide |
| ContextTools.BoxArea | ui/contextAware/context_tools.py:159 | non-negative |
| ContextTools.MeanTriangleArea | ui/contextAware/context_tools.py:141-151 | non-negative |
| ContextTools.Characteristics | ui/contextAware/context_tools.py:125-165 | `None` exactly for no points; otherwise the point count, the box, the mean triangle area, the density, the perimeter, closedness and symmetry |
| ContextTools.TotalCurvature | ui/contextAware/context_tools.py:141-149 | the loop sums the triangle areas at the interior points |
| ContextTools.AnalyzeCurve | ui/contextAware/context_tools.py:125-165 | the method equals `Characteristics` |
| ContextTools.StraightAreaSum | ui/contextAware/context_tools.py:141-149 | a straight curve sums to 0 |
| ContextTools.StraightCurveHasNoCurvature | ui/contextAware/context_tools.py:141-151 | a straight curve has curvature estimate 0 |
| ContextTools.SuggestOptimizer | ui/contextAware/context_tools.py:271-307 | the level by point count (500, 200); smoothing in [0.24, 0.84] and simplification in [0.005, 0.03] after the adjustments and clamps; multi-resolution above 300 points; 3 iterations above 200 |
| ContextTools.SuggestedSmoothingIsAccepted | ui/contextAware/context_tools.py:271-307 | every suggested smoothing setting passes the smoothing optimiser's validation |
| ContextTools.SuggestDeformer | ui/contextAware/context_tools.py:309-337 | `both`/`parallel` exactly for a closed curve, otherwise `right`/`perpendicular`; quality by area (50000, 20000, 10000); offset 10% of the mean dimension |
| ContextTools.SuggestedOffsetForCurve | ui/contextAware/context_tools.py:309-317 | the suggested offset is non-negative and 0 exactly when all points coincide |
| ContextTools.SuggestPerformance | ui/contextAware/context_tools.py:339-365 | priority by complexity (2, 1); memory 1024 above 1000 points, 768 above 500, else 512; parallel processing exactly above 100 points; a cache exactly above 200 points, so only with parallel processing |
| ContextTools.PerformanceMonotone | ui/contextAware/context_tools.py:352-364 | more points never lower the memory limit or switch off parallel processing or the cache |
| ContextTools.GenerateSuggestions | ui/contextAware/context_tools.py:253-269 | nothing without an analysis; otherwise the three groups, built from that analysis |
| SizeParsing.UpperChar | src/core/logger.py:73 | digits and capitals are unchanged |
| SizeParsing.Upper | src/core/logger.py:73 | character by character |
| SizeParsing.UpperIdempotent | src/core/logger.py:73 | upper-casing twice is upper-casing once |
| SizeParsing.Strip | src/core/logger.py:75-81 | no surrounding whitespace is left |
| SizeParsing.DropSeparators | src/core/logger.py:75-81 | removes the `_` digit separators `int()` accepts |
| SizeParsing.ParseInt | src/core/logger.py:75-81 | an error carries `int()`'s wording with the text quoted verbatim (not its `repr`); success needs a non-blank string |
| SizeParsing.ShowValue | src/core/logger.py:75-81 | decimal digits denote their value |
| SizeParsing.ParseIntOfDigits | src/core/logger.py:81 | a digit string parses to its value |
| SizeParsing.ParseIntSigned | src/core/logger.py:75-81 | a signed digit body parses to its signed value |
| SizeParsing.ParseIntOfNegatedDigits | src/core/logger.py:81 | `-` followed by digits parses to the negated value |
| SizeParsing.ParseIntShow | src/core/logger.py:81 | printing a number and parsing it back gives the number, with either sign |
| SizeParsing.ParseIntNeedsDigit | src/core/logger.py:81 | a string without digits is rejected |
| SizeParsing.ParseIntRejects | src/core/logger.py:81 | a body without digits is rejected |
| SizeParsing.Times | src/core/logger.py:75-79 | scaling keeps success and errors |
| SizeParsing.SplitUnit | src/core/logger.py:74-81 | `KB`, then `MB`, then `GB` are tried in that order; otherwise no unit |
| SizeParsing.ParseSize | src/core/logger.py:71-81 | the upper-cased string without its unit, parsed and scaled by the unit, and an error exactly when that parse fails |
| SizeParsing.ParseSizeIgnoresCase | src/core/logger.py:73 | the parse is case-insensitive |
| SizeParsing.ParseSizeWithUnit | src/core/logger.py:74-79 | digits followed by `KB`, `MB` or `GB` give the value times 1024, 1024² or 1024³ |
| SizeParsing.ParseSizeLowerUnit | src/core/logger.py:73-79 | lower-case units behave like upper-case ones |
| SizeParsing.ParseSizePlain | src/core/logger.py:80-81 | a plain digit string is a byte count |
| SizeParsing.ParseSizeShow | src/core/logger.py:71-81 | every number with each unit, in either case, parses to its byte count |
| SizeParsing.DefaultMaxFileSize | src/core/configuration.py:84 | the default log size `10MB` is 10485760 bytes |
| SizeParsing.UnitAloneFails | src/core/logger.py:74-81 | a unit without a number, or an empty string, is an error |

## Left out

- Maya and the UI. The `cmds` calls, the tkinter display and apply methods, and the logging
  calls are left out. Whether a curve exists in the scene is a set parameter (`scene`), and
  whether Maya is available is a constructor argument.
- Workflow step bodies. The `_execute_*` bodies are Maya calls or fixed dictionaries, so
  their outcome is a `Result` parameter of `ExecuteCurrentStep`. The transient `running`
  status set before a step body runs is not modelled separately.
- `start_workflow`'s exception branch (status `failed`). Nothing in its body can raise once
  logging is left out.
- File I/O in the configuration: `load_config`, `save_config`, `export_config`, and the
  auto-save inside `set_config`. The merge that `load_config` performs is modelled, both as
  written and corrected.
- Floating point. Coordinates are exact reals, `math.sqrt`/`math.acos` are parameters, and
  `math.pi` is a decimal constant. Rounding error, `inf` and `nan` are not modelled.
- Python set and dictionary iteration order. The corner set in quality selection, the
  high-curvature set in shape preservation and the key order of `_merge_config` are an
  arbitrary choice or an `Ordering` parameter. Results are proved for every order.
- `_suggest_*` read `self.curve_analysis`. Here they take the analysis as an argument, and
  a missing analysis (`{}`) is `None`, for which each `get` default applies.
- `_analyze_curve_characteristics` stores its result in a field of the UI object; the model
  returns it.
- SizeParsing.Upper: `str.upper` is modelled on ASCII letters only, one character to one;
  Python also maps other letters, some to longer text (`ß` to `SS`), because the model
  carries no Unicode case table. `SizeParsing.ParseSize` upper-cases through it.
- SizeParsing.ParseInt: `int()`'s acceptance of non-ASCII digits is not modelled. The error
  message puts the text verbatim between single quotes, where Python shows `repr` of the
  text cut to 200 characters (double quotes when the text holds a single quote, escapes
  such as `\t`). The limit of 4300 digits that recent Python versions put on `int()` of a
  string is not modelled either: longer digit strings parse here. Both depend on the
  interpreter, not on the parsing rule the logger relies on.
- SizeParsing.Strip: strips the ASCII whitespace Python recognises (tab through carriage
  return, the separators 0x1C-0x1F and space) but not the non-ASCII whitespace `str.strip`
  also removes (U+0085, U+00A0, U+2000-U+200A, U+3000 and the rest), because the model
  carries no Unicode property table.
- Aliasing. The lists and dictionaries the source mutates in place (`enhanced_points`,
  step parameter dictionaries, nested configuration sections) are values here. No two
  holders share one of them.
- ParallelOffset.Finish: does not state directly that both ends are kept, because stating
  it there exhausts the verifier. `FinishEnds` states it.
- ContextTools.Characteristics: does not state `area == width * height`, because stating it
  exhausts the verifier. The area field is `BoxArea`, defined as that product.
- `_analyze_symmetry` with the reflection test: modelled exactly, but no lemma characterises
  symmetric point sets beyond `VerticalLineIsHorizontallySymmetric`.

## Findings

| source | as written | input that shows it | evidently intended | confidence | as-written member | corrected member |
|---|---|---|---|---|---|---|
| src/core/configuration.py:164-170 | when a key holds a dictionary on both sides, `_merge_config(value)` merges the nested dictionary into the ROOT of the configuration, not into the section | a loaded file `{"general": {"theme": "dark"}}` over the defaults: `theme` appears at the top level and `general.theme` keeps its old value | merge the nested dictionary into the section of the same name | not executed | Configuration.LoadedThemeAsWritten | Configuration.LoadedThemeDeepMerge |
