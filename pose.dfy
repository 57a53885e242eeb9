/**
 * `AM.Pose`: the homography between a trained pattern and the screen from matched corners. RANSAC
 * and the homography kernel are `jsfeat` routines outside this model and enter as oracles; what is
 * modelled is the bookkeeping around them: building the correspondences, the stable in-place
 * compaction of the inliers, and the identity fallback.
 */
module Pose {
  import opened Matching
  import opened Keypoints

  /** A correspondence end point `{ x, y }`. */
  datatype Point = Point(x: int, y: int)

  /** A 3 x 3 homography in row-major order. */
  type Matrix = seq<real>

  const Identity: Matrix := [1.0, 0.0, 0.0, 0.0, 1.0, 0.0, 0.0, 0.0, 1.0]

  /** What `jsfeat.motion_estimator.ransac` reports: success and the 0/1 inlier mask it wrote. */
  datatype RansacOutcome = RansacOutcome(ok: bool, mask: seq<int>)

  /** Entry `i` of the mask is truthy; entries past the end of the buffer read as `undefined`. */
  predicate Inlier(mask: seq<int>, i: int)
  {
    0 <= i < |mask| && mask[i] != 0
  }

  /** Every match points at an existing screen corner and an existing pattern corner. */
  predicate ValidMatches(matches: seq<MatchT>, count: nat, screen: seq<Keypoint>, pattern: seq<seq<Keypoint>>)
  {
    count <= |matches|
    && forall i :: 0 <= i < count ==>
         0 <= matches[i].screenIdx < |screen|
         && 0 <= matches[i].patternLev < |pattern|
         && 0 <= matches[i].patternIdx < |pattern[matches[i].patternLev]|
  }

  function PatternPoint(m: MatchT, pattern: seq<seq<Keypoint>>): Point
    requires 0 <= m.patternLev < |pattern| && 0 <= m.patternIdx < |pattern[m.patternLev]|
  {
    var k := pattern[m.patternLev][m.patternIdx];
    Point(k.x, k.y)
  }

  function ScreenPoint(m: MatchT, screen: seq<Keypoint>): Point
    requires 0 <= m.screenIdx < |screen|
  {
    Point(screen[m.screenIdx].x, screen[m.screenIdx].y)
  }

  /** The indices below `n` whose mask entry is truthy, in increasing order. */
  function MaskedIndices(mask: seq<int>, n: nat): seq<nat>
  {
    if n == 0 then []
    else MaskedIndices(mask, n - 1) + (if Inlier(mask, n - 1) then [n - 1] else [])
  }

  /** The entries of `xs` at the positions `idx`. */
  function Select<T>(xs: seq<T>, idx: seq<nat>): (r: seq<T>)
    requires forall k :: 0 <= k < |idx| ==> idx[k] < |xs|
    ensures |r| == |idx| && forall k :: 0 <= k < |idx| ==> r[k] == xs[idx[k]]
  {
    seq(|idx|, k requires 0 <= k < |idx| => xs[idx[k]])
  }

  /**
   * The masked indices are exactly the inliers below `n`, each once, in increasing order: the
   * compaction keeps the masked correspondences and only those, in their original order.
   */
  lemma {:induction false} MaskedIndicesSpec(mask: seq<int>, n: nat)
    ensures forall k :: 0 <= k < |MaskedIndices(mask, n)| ==>
      MaskedIndices(mask, n)[k] < n && Inlier(mask, MaskedIndices(mask, n)[k])
    ensures forall k, l :: 0 <= k < l < |MaskedIndices(mask, n)| ==>
      MaskedIndices(mask, n)[k] < MaskedIndices(mask, n)[l]
    ensures forall i :: 0 <= i < n && Inlier(mask, i) ==> i in MaskedIndices(mask, n)
  {
    if n > 0 {
      MaskedIndicesSpec(mask, n - 1);
    }
  }

  /** Number of truthy mask entries below `n`. */
  function InlierCount(mask: seq<int>, n: nat): nat
  {
    if n == 0 then 0 else InlierCount(mask, n - 1) + (if Inlier(mask, n - 1) then 1 else 0)
  }

  lemma {:induction false} InlierCountIsLength(mask: seq<int>, n: nat)
    ensures |MaskedIndices(mask, n)| == InlierCount(mask, n) <= n
  {
    if n > 0 {
      InlierCountIsLength(mask, n - 1);
    }
  }

  /** A mask with every entry set keeps every correspondence. */
  lemma {:induction false} AllInliers(mask: seq<int>, n: nat)
    requires n <= |mask| && forall i :: 0 <= i < n ==> mask[i] != 0
    ensures MaskedIndices(mask, n) == seq(n, i => i)
  {
    if n > 0 {
      AllInliers(mask, n - 1);
      assert seq(n, i => i) == seq(n - 1, i => i) + [n - 1];
    }
  }

  /** The masked entries of `xs` below `n`, in order: what the compaction loop leaves in front. */
  function Compacted<T>(xs: seq<T>, mask: seq<int>, n: nat): seq<T>
    requires n <= |xs|
  {
    if n == 0 then []
    else Compacted(xs, mask, n - 1) + (if Inlier(mask, n - 1) then [xs[n - 1]] else [])
  }

  /** The compacted sequence is the original one read at the masked indices. */
  lemma {:induction false} CompactedSelects<T>(xs: seq<T>, mask: seq<int>, n: nat)
    requires n <= |xs|
    ensures forall k :: 0 <= k < |MaskedIndices(mask, n)| ==> MaskedIndices(mask, n)[k] < |xs|
    ensures Compacted(xs, mask, n) == Select(xs, MaskedIndices(mask, n))
  {
    MaskedIndicesSpec(mask, n);
    if n > 0 {
      CompactedSelects(xs, mask, n - 1);
      var before := MaskedIndices(mask, n - 1);
      if Inlier(mask, n - 1) {
        assert Select(xs, before + [n - 1]) == Select(xs, before) + [xs[n - 1]];
      }
    }
  }

  lemma {:induction false} CompactedLength<T>(xs: seq<T>, mask: seq<int>, n: nat)
    requires n <= |xs|
    ensures |Compacted(xs, mask, n)| == InlierCount(mask, n)
  {
    if n > 0 {
      CompactedLength(xs, mask, n - 1);
    }
  }

  /** `pattern_xy` as built by the first loop of `find_transform`. */
  function PatternPoints(matches: seq<MatchT>, count: nat, screen: seq<Keypoint>, pattern: seq<seq<Keypoint>>): (r: seq<Point>)
    requires ValidMatches(matches, count, screen, pattern)
    ensures |r| == count
  {
    seq(count, i requires 0 <= i < count => PatternPoint(matches[i], pattern))
  }

  /** `screen_xy` as built by the first loop of `find_transform`. */
  function ScreenPoints(matches: seq<MatchT>, count: nat, screen: seq<Keypoint>, pattern: seq<seq<Keypoint>>): (r: seq<Point>)
    requires ValidMatches(matches, count, screen, pattern)
    ensures |r| == count
  {
    seq(count, i requires 0 <= i < count => ScreenPoint(matches[i], screen))
  }

  /** One step of the compaction loop, on one of the two arrays. */
  lemma CompactStep<T>(orig: seq<T>, before: seq<T>, after: seq<T>, mask: seq<int>, good: nat, i: nat)
    requires i < |orig| == |before| == |after| && good <= i
    requires before[..good] == Compacted(orig, mask, i) && before[i..] == orig[i..]
    requires after == if Inlier(mask, i) then before[good := before[i]] else before
    ensures var good' := if Inlier(mask, i) then good + 1 else good;
      after[..good'] == Compacted(orig, mask, i + 1) && after[i + 1..] == orig[i + 1..]
  {
    assert before[i] == orig[i];
    if Inlier(mask, i) {
      assert after[..good + 1] == before[..good] + [orig[i]];
    }
  }

  /**
   * The compaction loop of `find_transform`: move the masked correspondences below `count` to the
   * front of both arrays, in order, and count them.
   */
  method CompactInliers(patternXY: array<Point>, screenXY: array<Point>, mask: seq<int>, count: nat)
    returns (good: nat)
    requires patternXY != screenXY && count <= patternXY.Length && count <= screenXY.Length
    modifies patternXY, screenXY
    ensures good <= count && good == InlierCount(mask, count)
    ensures patternXY[..good] == Compacted(old(patternXY[..count]), mask, count)
    ensures screenXY[..good] == Compacted(old(screenXY[..count]), mask, count)
  {
    ghost var p, s := patternXY[..count], screenXY[..count];
    good := 0;
    var i := 0;
    while i < count
      invariant 0 <= good <= i <= count && good == InlierCount(mask, i)
      invariant patternXY[..good] == Compacted(p, mask, i) && patternXY[i..count] == p[i..]
      invariant screenXY[..good] == Compacted(s, mask, i) && screenXY[i..count] == s[i..]
    {
      ghost var before, beforeS := patternXY[..count], screenXY[..count];
      if Inlier(mask, i) {
        patternXY[good] := patternXY[i];
        screenXY[good] := screenXY[i];
      }
      CompactStep(p, before, patternXY[..count], mask, good, i);
      CompactStep(s, beforeS, screenXY[..count], mask, good, i);
      if Inlier(mask, i) {
        good := good + 1;
      }
      i := i + 1;
    }
  }

  /**
   * `find_transform`: build the correspondences of the first `count` matches, let RANSAC pick the
   * inliers, compact them in place keeping their order, and fit the homography to the inliers; on
   * failure the count is 0 and the homography the identity.
   */
  method FindTransform(matches: seq<MatchT>, count: nat, screen: seq<Keypoint>, pattern: seq<seq<Keypoint>>,
                       ransac: (seq<Point>, seq<Point>) -> RansacOutcome,
                       kernel: (seq<Point>, seq<Point>) -> Matrix)
    returns (good: nat, homography: Matrix, mask: seq<int>)
    requires ValidMatches(matches, count, screen, pattern)
    ensures var p, s := PatternPoints(matches, count, screen, pattern), ScreenPoints(matches, count, screen, pattern);
      var outcome := ransac(p, s);
      && mask == outcome.mask
      && good == (if outcome.ok then InlierCount(mask, count) else 0)
      && homography == (if outcome.ok then kernel(Compacted(p, mask, count), Compacted(s, mask, count)) else Identity)
  {
    ghost var p, s := PatternPoints(matches, count, screen, pattern), ScreenPoints(matches, count, screen, pattern);
    var patternXY := new Point[count](_ => Point(0, 0));
    var screenXY := new Point[count](_ => Point(0, 0));
    var i := 0;
    while i < count
      invariant 0 <= i <= count
      invariant patternXY[..i] == p[..i] && screenXY[..i] == s[..i]
    {
      patternXY[i] := PatternPoint(matches[i], pattern);
      screenXY[i] := ScreenPoint(matches[i], screen);
      i := i + 1;
    }
    assert patternXY[..] == patternXY[..count] == p && screenXY[..] == screenXY[..count] == s;
    var outcome := ransac(patternXY[..], screenXY[..]);
    mask := outcome.mask;
    good := 0;
    if outcome.ok {
      good := CompactInliers(patternXY, screenXY, mask, count);
      homography := kernel(patternXY[..good], screenXY[..good]);
    } else {
      homography := Identity;
    }
  }

  /** `AM.Pose`: the last pose estimate. */
  class Pose {
    var goodCount: nat
    /** `_homo3x3`. */
    var homography: Matrix
    /** `_match_mask`, as the last RANSAC run left it. */
    var matchMask: seq<int>

    constructor ()
      ensures goodCount == 0 && homography == seq(9, _ => 0.0) && matchMask == seq(500, _ => 0)
    {
      goodCount := 0;
      homography := seq(9, _ => 0.0);
      matchMask := seq(500, _ => 0);
    }

    /** `Pose`: estimate the homography from the first `count` matches and keep the number of inliers. */
    method Pose(matches: seq<MatchT>, count: nat, screen: seq<Keypoint>, pattern: seq<seq<Keypoint>>,
                ransac: (seq<Point>, seq<Point>) -> RansacOutcome,
                kernel: (seq<Point>, seq<Point>) -> Matrix)
      returns (good: nat)
      requires ValidMatches(matches, count, screen, pattern)
      modifies this
      ensures var p, s := PatternPoints(matches, count, screen, pattern), ScreenPoints(matches, count, screen, pattern);
        var outcome := ransac(p, s);
        && matchMask == outcome.mask
        && good == goodCount == (if outcome.ok then InlierCount(outcome.mask, count) else 0)
        && homography == (if outcome.ok then kernel(Compacted(p, outcome.mask, count), Compacted(s, outcome.mask, count))
                          else Identity)
    {
      good, homography, matchMask := FindTransform(matches, count, screen, pattern, ransac, kernel);
      goodCount := good;
    }
  }

  /**
   * The number of inliers never exceeds the number of matches nor the size of the mask: matches past
   * the end of the mask buffer are never inliers.
   */
  lemma {:induction false} GoodCountBounds(mask: seq<int>, n: nat)
    ensures InlierCount(mask, n) <= n && InlierCount(mask, n) <= |mask|
  {
    if n > 0 {
      GoodCountBounds(mask, n - 1);
    }
  }
}
