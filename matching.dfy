/**
 * Brute-force descriptor matching (`AM.Matching`): every screen descriptor is compared with
 * every descriptor of every level of a trained image by Hamming distance, and the closest one
 * is kept when it is closer than `match_threshold`.
 */
module Matching {
  import opened Js
  import opened Popcnt
  import Params

  /** A jsfeat descriptor matrix: `rows` ORB descriptors of 32 bytes, read as 8 signed 32-bit words each. */
  datatype Descriptors = Descriptors(rows: nat, words: seq<bv32>)

  /** The matrix buffer holds all its rows. */
  predicate WellFormed(d: Descriptors)
  {
    8 * d.rows <= |d.words|
  }

  predicate AllWellFormed(levels: seq<Descriptors>)
  {
    forall l :: 0 <= l < |levels| ==> WellFormed(levels[l])
  }

  /** `AM.match_t`: a screen descriptor, the level and index of its trained descriptor, and a distance. */
  datatype MatchT = MatchT(screenIdx: int, patternLev: int, patternIdx: int, distance: int)

  /** `new AM.match_t()`: every field defaults to 0. */
  const DefaultMatch := MatchT(0, 0, 0, 0)

  /** The initial `best_dist` and `best_dist2`. */
  const NoDistance := 256

  /** The default `match_threshold`. */
  const DefaultThreshold := 48.0

  // ---------------------------------------------------------------------
  // Hamming distance between two descriptors

  /** Set bits of the XOR of the first `k` words of the descriptors at `qOff` and `pOff`. */
  function PartialDistance(q: seq<bv32>, qOff: nat, p: seq<bv32>, pOff: nat, k: nat): (r: nat)
    requires k <= 8 && qOff + k <= |q| && pOff + k <= |p|
    ensures r <= 32 * k
  {
    if k == 0 then 0 else PartialDistance(q, qOff, p, pOff, k - 1) + PopCount(q[qOff + k - 1] ^ p[pOff + k - 1])
  }

  /** Hamming distance of two 256-bit descriptors. */
  function Distance(q: seq<bv32>, qOff: nat, p: seq<bv32>, pOff: nat): (r: nat)
    requires qOff + 8 <= |q| && pOff + 8 <= |p|
    ensures r <= NoDistance
  {
    PartialDistance(q, qOff, p, pOff, 8)
  }

  lemma XorCommutes(x: bv32, y: bv32)
    ensures x ^ y == y ^ x
  {
  }

  lemma {:induction false} PartialDistanceSymmetric(q: seq<bv32>, qOff: nat, p: seq<bv32>, pOff: nat, k: nat)
    requires k <= 8 && qOff + k <= |q| && pOff + k <= |p|
    ensures PartialDistance(q, qOff, p, pOff, k) == PartialDistance(p, pOff, q, qOff, k)
  {
    if k > 0 {
      PartialDistanceSymmetric(q, qOff, p, pOff, k - 1);
      XorCommutes(q[qOff + k - 1], p[pOff + k - 1]);
    }
  }

  /** The distance does not depend on which descriptor is the query. */
  lemma DistanceSymmetric(q: seq<bv32>, qOff: nat, p: seq<bv32>, pOff: nat)
    requires qOff + 8 <= |q| && pOff + 8 <= |p|
    ensures Distance(q, qOff, p, pOff) == Distance(p, pOff, q, qOff)
  {
    PartialDistanceSymmetric(q, qOff, p, pOff, 8);
  }

  lemma {:induction false} PartialDistanceZero(q: seq<bv32>, qOff: nat, p: seq<bv32>, pOff: nat, k: nat)
    requires k <= 8 && qOff + k <= |q| && pOff + k <= |p|
    ensures PartialDistance(q, qOff, p, pOff, k) == 0 <==> q[qOff..qOff + k] == p[pOff..pOff + k]
  {
    if k > 0 {
      PartialDistanceZero(q, qOff, p, pOff, k - 1);
      var x, y := q[qOff + k - 1], p[pOff + k - 1];
      PopCountZero(x ^ y);
      XorZero(x, y);
      assert q[qOff..qOff + k] == q[qOff..qOff + k - 1] + [x];
      assert p[pOff..pOff + k] == p[pOff..pOff + k - 1] + [y];
      if q[qOff..qOff + k] == p[pOff..pOff + k] {
        assert q[qOff..qOff + k - 1] == q[qOff..qOff + k][..k - 1];
        assert p[pOff..pOff + k - 1] == p[pOff..pOff + k][..k - 1];
      }
    }
  }

  lemma XorZero(x: bv32, y: bv32)
    ensures x ^ y == 0 <==> x == y
  {
  }

  /** Two descriptors are at distance 0 exactly when all their words agree. */
  lemma DistanceZero(q: seq<bv32>, qOff: nat, p: seq<bv32>, pOff: nat)
    requires qOff + 8 <= |q| && pOff + 8 <= |p|
    ensures Distance(q, qOff, p, pOff) == 0 <==> q[qOff..qOff + 8] == p[pOff..pOff + 8]
  {
    PartialDistanceZero(q, qOff, p, pOff, 8);
  }

  /** One term of the inner loop: `popcnt32_3` of the XOR of two words, their Hamming distance. */
  method WordDistance(v2b: seq<int>, x: bv32, y: bv32) returns (c: int)
    requires IsHalfWordTable(v2b)
    ensures c == PopCount(x ^ y)
  {
    c := Popcnt32Table16(v2b, x ^ y);
  }

  /** The inner loop of `MatchPattern`: eight table lookups of `popcnt32_3`. */
  method DescriptorDistance(v2b: seq<int>, q: seq<bv32>, qOff: nat, p: seq<bv32>, pOff: nat) returns (d: int)
    requires IsHalfWordTable(v2b)
    requires qOff + 8 <= |q| && pOff + 8 <= |p|
    ensures d == Distance(q, qOff, p, pOff)
  {
    d := 0;
    var k := 0;
    while k < 8
      invariant 0 <= k <= 8
      invariant d == PartialDistance(q, qOff, p, pOff, k)
    {
      var c := WordDistance(v2b, q[qOff + k], p[pOff + k]);
      d := d + c;
      k := k + 1;
    }
  }

  // ---------------------------------------------------------------------
  // The search for one query descriptor

  /** `best_dist`, `best_dist2`, `best_lev` and `best_idx` of `MatchPattern`. */
  datatype Best = Best(dist: int, dist2: int, lev: int, idx: int)

  /** The values before the first comparison. */
  const Initial := Best(NoDistance, NoDistance, -1, -1)

  /** Distance from the query at `qOff` to descriptor `i` of one level. */
  function DistAt(q: seq<bv32>, qOff: nat, ld: Descriptors, i: nat): nat
    requires qOff + 8 <= |q| && WellFormed(ld) && i < ld.rows
  {
    Distance(q, qOff, ld.words, 8 * i)
  }

  /** One comparison: a strictly closer descriptor becomes the best and the old best the second. */
  function Step(b: Best, d: int, lev: int, idx: int): Best
  {
    if d < b.dist then Best(d, b.dist, lev, idx)
    else if d < b.dist2 then b.(dist2 := d)
    else b
  }

  /** The state after the first `n` descriptors of level `lev`. */
  function ScanLevel(b: Best, q: seq<bv32>, qOff: nat, lev: int, ld: Descriptors, n: nat): Best
    requires qOff + 8 <= |q| && WellFormed(ld) && n <= ld.rows
  {
    if n == 0 then b else Step(ScanLevel(b, q, qOff, lev, ld, n - 1), DistAt(q, qOff, ld, n - 1), lev, n - 1)
  }

  /** The state after the first `m` levels. */
  function ScanLevels(b: Best, q: seq<bv32>, qOff: nat, levels: seq<Descriptors>, m: nat): Best
    requires qOff + 8 <= |q| && AllWellFormed(levels) && m <= |levels|
  {
    if m == 0 then b
    else ScanLevel(ScanLevels(b, q, qOff, levels, m - 1), q, qOff, m - 1, levels[m - 1], levels[m - 1].rows)
  }

  /** The outcome of the search for the query at `qOff` over all levels. */
  function BestFor(q: seq<bv32>, qOff: nat, levels: seq<Descriptors>): Best
    requires qOff + 8 <= |q| && AllWellFormed(levels)
  {
    ScanLevels(Initial, q, qOff, levels, |levels|)
  }

  /** Scanning one level keeps the smallest distance seen, and the first position where it was seen. */
  lemma {:induction false} ScanLevelSpec(b: Best, q: seq<bv32>, qOff: nat, lev: int, ld: Descriptors, n: nat)
    requires qOff + 8 <= |q| && WellFormed(ld) && n <= ld.rows
    requires b.dist <= b.dist2
    ensures var r := ScanLevel(b, q, qOff, lev, ld, n);
      r.dist <= r.dist2 <= b.dist2 && r.dist <= b.dist
      && (forall i :: 0 <= i < n ==> r.dist <= DistAt(q, qOff, ld, i))
      && ((r.lev == b.lev && r.idx == b.idx && r.dist == b.dist)
          || (r.lev == lev && 0 <= r.idx < n && r.dist == DistAt(q, qOff, ld, r.idx) && r.dist < b.dist
              && forall i :: 0 <= i < r.idx ==> r.dist < DistAt(q, qOff, ld, i)))
  {
    if n > 0 {
      ScanLevelSpec(b, q, qOff, lev, ld, n - 1);
    }
  }

  /** Scanning levels keeps the smallest distance seen, and the first position in scan order where it was seen. */
  lemma {:induction false} ScanLevelsSpec(b: Best, q: seq<bv32>, qOff: nat, levels: seq<Descriptors>, m: nat)
    requires qOff + 8 <= |q| && AllWellFormed(levels) && m <= |levels|
    requires b.dist <= b.dist2
    ensures var r := ScanLevels(b, q, qOff, levels, m);
      r.dist <= r.dist2 <= b.dist2 && r.dist <= b.dist
      && (forall l, i :: 0 <= l < m && 0 <= i < levels[l].rows ==> r.dist <= DistAt(q, qOff, levels[l], i))
      && ((r.lev == b.lev && r.idx == b.idx && r.dist == b.dist)
          || (0 <= r.lev < m && 0 <= r.idx < levels[r.lev].rows
              && r.dist == DistAt(q, qOff, levels[r.lev], r.idx) && r.dist < b.dist
              && forall l, i :: 0 <= l < m && 0 <= i < levels[l].rows && (l < r.lev || (l == r.lev && i < r.idx))
                   ==> r.dist < DistAt(q, qOff, levels[l], i)))
  {
    if m > 0 {
      var before := ScanLevels(b, q, qOff, levels, m - 1);
      ScanLevelsSpec(b, q, qOff, levels, m - 1);
      ScanLevelSpec(before, q, qOff, m - 1, levels[m - 1], levels[m - 1].rows);
    }
  }

  /**
   * The search finds the minimum distance over all levels, and the first descriptor in scan order
   * that attains it; when no descriptor is closer than 256 it reports none.
   */
  lemma BestForSpec(q: seq<bv32>, qOff: nat, levels: seq<Descriptors>)
    requires qOff + 8 <= |q| && AllWellFormed(levels)
    ensures var r := BestFor(q, qOff, levels);
      r.dist <= r.dist2 <= NoDistance
      && (forall l, i :: 0 <= l < |levels| && 0 <= i < levels[l].rows ==> r.dist <= DistAt(q, qOff, levels[l], i))
      && ((r.lev == -1 && r.idx == -1 && r.dist == NoDistance)
          || (0 <= r.lev < |levels| && 0 <= r.idx < levels[r.lev].rows
              && r.dist == DistAt(q, qOff, levels[r.lev], r.idx) && r.dist < NoDistance
              && forall l, i :: 0 <= l < |levels| && 0 <= i < levels[l].rows && (l < r.lev || (l == r.lev && i < r.idx))
                   ==> r.dist < DistAt(q, qOff, levels[l], i)))
  {
    ScanLevelsSpec(Initial, q, qOff, levels, |levels|);
  }

  // ---------------------------------------------------------------------
  // The list of matches

  /** The query at row `s` passes the threshold test `best_dist < match_threshold`. */
  predicate Accepted(screen: Descriptors, levels: seq<Descriptors>, threshold: Value, s: nat)
    requires WellFormed(screen) && AllWellFormed(levels) && s < screen.rows
  {
    LessThan(BestFor(screen.words, 8 * s, levels).dist, threshold)
  }

  /** The match recorded for an accepted query: its best level and index, the distance left at 0. */
  function Record(screen: Descriptors, levels: seq<Descriptors>, s: nat): MatchT
    requires WellFormed(screen) && AllWellFormed(levels) && s < screen.rows
  {
    var b := BestFor(screen.words, 8 * s, levels);
    DefaultMatch.(screenIdx := s, patternLev := b.lev, patternIdx := b.idx)
  }

  /** The matches after the first `n` queries. */
  function MatchesUpTo(screen: Descriptors, levels: seq<Descriptors>, threshold: Value, n: nat): seq<MatchT>
    requires WellFormed(screen) && AllWellFormed(levels) && n <= screen.rows
  {
    if n == 0 then []
    else
      MatchesUpTo(screen, levels, threshold, n - 1)
      + (if Accepted(screen, levels, threshold, n - 1) then [Record(screen, levels, n - 1)] else [])
  }

  /** Every recorded match is the record of an accepted query, and queries appear in increasing order. */
  lemma {:induction false} MatchesSound(screen: Descriptors, levels: seq<Descriptors>, threshold: Value, n: nat)
    requires WellFormed(screen) && AllWellFormed(levels) && n <= screen.rows
    ensures var m := MatchesUpTo(screen, levels, threshold, n);
      |m| <= n
      && (forall j :: 0 <= j < |m| ==>
            0 <= m[j].screenIdx < n
            && Accepted(screen, levels, threshold, m[j].screenIdx)
            && m[j] == Record(screen, levels, m[j].screenIdx))
      && (forall j, k :: 0 <= j < k < |m| ==> m[j].screenIdx < m[k].screenIdx)
  {
    if n > 0 {
      MatchesSound(screen, levels, threshold, n - 1);
    }
  }

  /** Every accepted query is recorded. */
  lemma {:induction false} MatchesComplete(screen: Descriptors, levels: seq<Descriptors>, threshold: Value, n: nat, s: nat)
    requires WellFormed(screen) && AllWellFormed(levels) && n <= screen.rows
    requires s < n && Accepted(screen, levels, threshold, s)
    ensures exists j :: 0 <= j < |MatchesUpTo(screen, levels, threshold, n)|
              && MatchesUpTo(screen, levels, threshold, n)[j].screenIdx == s
  {
    var m := MatchesUpTo(screen, levels, threshold, n);
    if s == n - 1 {
      assert m[|m| - 1].screenIdx == s;
    } else {
      MatchesComplete(screen, levels, threshold, n - 1, s);
      var j :| 0 <= j < |MatchesUpTo(screen, levels, threshold, n - 1)|
               && MatchesUpTo(screen, levels, threshold, n - 1)[j].screenIdx == s;
      assert m[j] == MatchesUpTo(screen, levels, threshold, n - 1)[j];
    }
  }

  /**
   * A recorded match names a trained descriptor that is strictly closer than the threshold,
   * provided the threshold does not exceed 256 (the documented range is 16 to 128).
   */
  lemma MatchIsClose(screen: Descriptors, levels: seq<Descriptors>, threshold: Value, j: nat)
    requires WellFormed(screen) && AllWellFormed(levels)
    requires !LessThan(NoDistance, threshold)
    requires j < |MatchesUpTo(screen, levels, threshold, screen.rows)|
    ensures var m := MatchesUpTo(screen, levels, threshold, screen.rows)[j];
      0 <= m.screenIdx < screen.rows && m.distance == 0
      && 0 <= m.patternLev < |levels| && 0 <= m.patternIdx < levels[m.patternLev].rows
      && LessThan(DistAt(screen.words, 8 * m.screenIdx, levels[m.patternLev], m.patternIdx), threshold)
  {
    var m := MatchesUpTo(screen, levels, threshold, screen.rows);
    MatchesSound(screen, levels, threshold, screen.rows);
    var s := m[j].screenIdx;
    BestForSpec(screen.words, 8 * s, levels);
  }

  // ---------------------------------------------------------------------
  // The matcher

  /** The search for one query descriptor: the loops over levels and descriptors of `MatchPattern`. */
  method ScanQuery(v2b: seq<int>, q: seq<bv32>, qOff: nat, levels: seq<Descriptors>)
    returns (bestDist: int, bestDist2: int, bestLev: int, bestIdx: int)
    requires IsHalfWordTable(v2b) && qOff + 8 <= |q| && AllWellFormed(levels)
    ensures Best(bestDist, bestDist2, bestLev, bestIdx) == BestFor(q, qOff, levels)
  {
    bestDist, bestDist2, bestIdx, bestLev := NoDistance, NoDistance, -1, -1;
    var lev := 0;
    while lev < |levels|
      invariant 0 <= lev <= |levels|
      invariant Best(bestDist, bestDist2, bestLev, bestIdx) == ScanLevels(Initial, q, qOff, levels, lev)
    {
      var levDescr := levels[lev];
      var ldCnt := levDescr.rows;
      var ldOff := 0;
      var pidx := 0;
      while pidx < ldCnt
        invariant 0 <= pidx <= ldCnt && ldOff == 8 * pidx
        invariant Best(bestDist, bestDist2, bestLev, bestIdx)
                  == ScanLevel(ScanLevels(Initial, q, qOff, levels, lev), q, qOff, lev, levDescr, pidx)
      {
        var currD := DescriptorDistance(v2b, q, qOff, levDescr.words, ldOff);
        if currD < bestDist {
          bestDist2 := bestDist;
          bestDist := currD;
          bestLev := lev;
          bestIdx := pidx;
        } else if currD < bestDist2 {
          bestDist2 := currD;
        }
        ldOff := ldOff + 8;
        pidx := pidx + 1;
      }
      lev := lev + 1;
    }
  }

  /** `AM.Matching`: the screen descriptors, the last list of matches and the threshold parameter. */
  class Matcher {
    var screenDescriptors: Option<Descriptors>
    var numMatches: Option<nat>
    var matches: seq<MatchT>
    var params: Params.Params
    /** The 65536-entry table of `popcnt32_3`, built once when the library loads. */
    const table: seq<int>

    ghost predicate Valid()
      reads this
    {
      IsHalfWordTable(table) && "match_threshold" in params
    }

    /** The current `match_threshold`. */
    function Threshold(): Value
      reads this
      requires Valid()
    {
      params["match_threshold"]
    }

    constructor (v2b: seq<int>)
      requires IsHalfWordTable(v2b)
      ensures Valid() && table == v2b
      ensures screenDescriptors == None && numMatches == None && matches == []
      ensures params == map["match_threshold" := Number(DefaultThreshold)]
    {
      table := v2b;
      screenDescriptors := None;
      numMatches := None;
      matches := [];
      params := map["match_threshold" := Number(DefaultThreshold)];
    }

    method SetScreenDescriptors(d: Descriptors)
      modifies this`screenDescriptors
      ensures screenDescriptors == Some(d)
    {
      screenDescriptors := Some(d);
    }

    /** `MatchPattern`: the matches of all screen descriptors against the levels of a trained image. */
    method MatchPattern(screen: Descriptors, levels: seq<Descriptors>) returns (n: nat)
      requires Valid() && WellFormed(screen) && AllWellFormed(levels)
      modifies this`matches
      ensures matches == MatchesUpTo(screen, levels, Threshold(), screen.rows)
      ensures n == |matches|
    {
      var qCnt := screen.rows;
      var qdOff := 0;
      var count := 0;
      matches := [];
      var qidx := 0;
      while qidx < qCnt
        invariant 0 <= qidx <= qCnt && qdOff == 8 * qidx
        invariant matches == MatchesUpTo(screen, levels, Threshold(), qidx) && count == |matches|
      {
        var bestDist, bestDist2, bestLev, bestIdx := ScanQuery(table, screen.words, qdOff, levels);
        if LessThan(bestDist, params["match_threshold"]) {
          ghost var before := matches;
          while |matches| <= count
            invariant count <= |matches| <= count + 1
            invariant matches[..count] == before
            invariant |matches| == count + 1 ==> matches[count] == DefaultMatch
            decreases count + 1 - |matches|
          {
            matches := matches + [DefaultMatch];
          }
          matches := matches[count := matches[count].(screenIdx := qidx, patternLev := bestLev, patternIdx := bestIdx)];
          count := count + 1;
          assert matches == before + [Record(screen, levels, qidx)];
        }
        qdOff := qdOff + 8;
        qidx := qidx + 1;
      }
      matches := matches[..count];
      n := count;
    }

    /** `Match`: runs `MatchPattern` on the stored screen descriptors and remembers the count. */
    method Match(levels: seq<Descriptors>) returns (n: nat)
      requires Valid() && screenDescriptors.Some? && WellFormed(screenDescriptors.value) && AllWellFormed(levels)
      modifies this`matches, this`numMatches
      ensures matches == MatchesUpTo(screenDescriptors.value, levels, Threshold(), screenDescriptors.value.rows)
      ensures n == |matches| && numMatches == Some(n)
    {
      n := MatchPattern(screenDescriptors.value, levels);
      numMatches := Some(n);
    }

    /** `SetParameters`: only `match_threshold` can be set. */
    method SetParameters(u: Params.Update)
      requires Valid()
      modifies this`params
      ensures Valid() && params == Params.Merged(old(params), u)
    {
      params := Params.MergeParameters(params, u);
      Params.MergedKeys(old(params), u);
    }
  }
}
