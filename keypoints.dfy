/**
 * Keypoint post-processing of the detector: the top-K selection by score and the orientation of
 * each retained corner from the intensity centroid of a circular patch (`AM.IcAngle`), expressed
 * through the piecewise-rational `AM.DiamondAngle` instead of `atan2`.
 */
module Keypoints {
  import opened Js

  // ---------------------------------------------------------------------
  // DiamondAngle

  /**
   * `AM.DiamondAngle(y, x)`: an angle in quarter turns, in [0, 4), that grows monotonically with
   * the true angle of (x, y) inside each quadrant. `None` is the NaN of 0 / 0 at the origin.
   */
  function DiamondAngle(y: real, x: real): (r: Option<real>)
    ensures r == None <==> (y == 0.0 && x == 0.0)
  {
    if y >= 0.0 then
      if x >= 0.0 then (if x + y == 0.0 then None else Some(y / (x + y)))
      else Some(1.0 - x / (-x + y))
    else
      if x < 0.0 then Some(2.0 - y / (-x - y))
      else Some(3.0 + x / (x - y))
  }

  lemma FractionBounds(a: real, b: real)
    requires 0.0 <= a <= b && b > 0.0
    ensures 0.0 <= a / b <= 1.0
    ensures a / b == 1.0 <==> a == b
    ensures a / b == 0.0 <==> a == 0.0
  {
  }

  lemma FirstQuadrant(y: real, x: real)
    requires y >= 0.0 && x >= 0.0 && (y != 0.0 || x != 0.0)
    ensures 0.0 <= DiamondAngle(y, x).value <= 1.0
  {
    FractionBounds(y, x + y);
  }

  lemma SecondQuadrant(y: real, x: real)
    requires y >= 0.0 && x < 0.0
    ensures 1.0 < DiamondAngle(y, x).value <= 2.0
  {
    var t := -x + y;
    FractionBounds(-x, t);
    assert x / t == -((-x) / t);
  }

  lemma ThirdQuadrant(y: real, x: real)
    requires y < 0.0 && x < 0.0
    ensures 2.0 < DiamondAngle(y, x).value < 3.0
  {
    var t := -x - y;
    FractionBounds(-y, t);
    assert y / t == -((-y) / t);
  }

  lemma FourthQuadrant(y: real, x: real)
    requires y < 0.0 && x >= 0.0
    ensures 3.0 <= DiamondAngle(y, x).value < 4.0
  {
    FractionBounds(x, x - y);
  }

  /**
   * The quadrant of (x, y) can be read back from the angle: [0, 1] for x, y >= 0, (1, 2] for
   * x < 0 <= y, (2, 3) for x, y < 0 and [3, 4) for y < 0 <= x.
   */
  lemma DiamondQuadrants(y: real, x: real)
    requires y != 0.0 || x != 0.0
    ensures var r := DiamondAngle(y, x).value;
      0.0 <= r < 4.0
      && (r <= 1.0 <==> y >= 0.0 && x >= 0.0)
      && (1.0 < r <= 2.0 <==> y >= 0.0 && x < 0.0)
      && (2.0 < r < 3.0 <==> y < 0.0 && x < 0.0)
      && (3.0 <= r <==> y < 0.0 && x >= 0.0)
  {
    if y >= 0.0 && x >= 0.0 {
      FirstQuadrant(y, x);
    } else if y >= 0.0 {
      SecondQuadrant(y, x);
    } else if x < 0.0 {
      ThirdQuadrant(y, x);
    } else {
      FourthQuadrant(y, x);
    }
  }

  /** On the axes the angle is a whole number of quarter turns, as `atan2` gives in units of pi / 2. */
  lemma DiamondAxes(t: real)
    requires t > 0.0
    ensures DiamondAngle(0.0, t) == Some(0.0)
    ensures DiamondAngle(t, 0.0) == Some(1.0)
    ensures DiamondAngle(0.0, -t) == Some(2.0)
    ensures DiamondAngle(-t, 0.0) == Some(3.0)
  {
    assert t / (0.0 + t) == 1.0;
    assert (-t) / (-(-t) + 0.0) == -1.0;
    assert 0.0 / (0.0 - (-t)) == 0.0;
  }

  lemma ScaledFraction(k: real, a: real, b: real, ka: real, kb: real)
    requires k > 0.0 && b != 0.0 && ka == k * a && kb == k * b
    ensures ka / kb == a / b
  {
    var q, r := a / b, ka / kb;
    assert kb != 0.0;
    assert q * kb == k * (q * b) == ka;
    assert r * kb == ka;
    assert (r - q) * kb == 0.0;
  }

  lemma ScaleSecond(y: real, x: real, k: real)
    requires k > 0.0 && y >= 0.0 && x < 0.0
    ensures DiamondAngle(k * y, k * x) == DiamondAngle(y, x)
  {
    var ky, kx := k * y, k * x;
    assert ky >= 0.0 && kx < 0.0;
    ScaledFraction(k, x, -x + y, kx, -kx + ky);
    assert DiamondAngle(ky, kx) == Some(1.0 - kx / (-kx + ky));
  }

  lemma ScaleThird(y: real, x: real, k: real)
    requires k > 0.0 && y < 0.0 && x < 0.0
    ensures DiamondAngle(k * y, k * x) == DiamondAngle(y, x)
  {
    var ky, kx := k * y, k * x;
    assert ky < 0.0 && kx < 0.0;
    ScaledFraction(k, y, -x - y, ky, -kx - ky);
    assert DiamondAngle(ky, kx) == Some(2.0 - ky / (-kx - ky));
  }

  lemma ScaleFourth(y: real, x: real, k: real)
    requires k > 0.0 && y < 0.0 && x >= 0.0
    ensures DiamondAngle(k * y, k * x) == DiamondAngle(y, x)
  {
    var ky, kx := k * y, k * x;
    assert ky < 0.0 && kx >= 0.0;
    ScaledFraction(k, x, x - y, kx, kx - ky);
    assert DiamondAngle(ky, kx) == Some(3.0 + kx / (kx - ky));
  }

  /** Scaling both moments by the same positive factor leaves the angle unchanged. */
  lemma DiamondScale(y: real, x: real, k: real)
    requires k > 0.0
    ensures DiamondAngle(k * y, k * x) == DiamondAngle(y, x)
  {
    if y >= 0.0 && x >= 0.0 {
      var ky, kx := k * y, k * x;
      assert ky >= 0.0 && kx >= 0.0;
      if x + y != 0.0 {
        ScaledFraction(k, y, x + y, ky, kx + ky);
      } else {
        assert kx == 0.0 && ky == 0.0;
      }
    } else if y >= 0.0 {
      ScaleSecond(y, x, k);
    } else if x < 0.0 {
      ScaleThird(y, x, k);
    } else {
      ScaleFourth(y, x, k);
    }
  }

  // ---------------------------------------------------------------------
  // Pixel arithmetic with NaN

  /** A grey-level image: `data` holds the rows one after the other, `cols` entries each. */
  datatype Image = Image(cols: int, data: seq<int>)

  /** Reading `data[i]` outside the buffer gives `undefined`, which every later operation turns into NaN. */
  function Pixel(img: Image, i: int): (r: Option<int>)
    ensures r.Some? <==> 0 <= i < |img.data|
  {
    if 0 <= i < |img.data| then Some(img.data[i]) else None
  }

  function Add(a: Option<int>, b: Option<int>): (r: Option<int>)
    ensures r.Some? <==> a.Some? && b.Some?
  {
    if a.Some? && b.Some? then Some(a.value + b.value) else None
  }

  function Sub(a: Option<int>, b: Option<int>): (r: Option<int>)
    ensures r.Some? <==> a.Some? && b.Some?
  {
    if a.Some? && b.Some? then Some(a.value - b.value) else None
  }

  /** `k * NaN` is NaN even for `k == 0`. */
  function Scale(k: int, a: Option<int>): (r: Option<int>)
    ensures r.Some? <==> a.Some?
  {
    if a.Some? then Some(k * a.value) else None
  }

  // ---------------------------------------------------------------------
  // IcAngle: the loops as written

  /** Half the side of the square patch. */
  const HalfK: int := 15

  /** A table of row half-widths, indexed by the distance of the row from the centre. */
  type Table = t: seq<nat> | |t| == 17 witness [0, 0, 0, 0, 0, 0, 0, 0, 0, 0, 0, 0, 0, 0, 0, 0, 0]

  /** `u_max`: half-width of row `v` of the circular patch, for `v` in 0 .. 15; the last entry is never read. */
  const UMax: Table := [15, 15, 15, 15, 14, 14, 14, 13, 13, 12, 11, 10, 9, 8, 6, 3, 0]

  function Abs(v: int): nat
  {
    if v < 0 then -v else v
  }

  /** Number of points in row `v` of the patch. */
  function Width(t: Table, v: int): nat
    requires -HalfK <= v <= HalfK
  {
    2 * t[Abs(v)] + 1
  }

  /** `m_10` after the first `n` steps of the centre-row loop (`u` from -15). */
  function CenterM10(img: Image, c: int, n: nat): Option<int>
    requires n <= 2 * HalfK + 1
  {
    if n == 0 then Some(0)
    else
      var u := n - 1 - HalfK;
      Add(CenterM10(img, c, n - 1), Scale(u, Pixel(img, c + u)))
  }

  /** `v_sum` after the first `n` steps of the loop over row pair `v` (`u` from `-t[v]`). */
  function RowSum(img: Image, t: Table, c: int, v: int, n: nat): Option<int>
    requires 1 <= v <= HalfK && n <= Width(t, v)
  {
    if n == 0 then Some(0)
    else
      var u := n - 1 - t[v];
      Add(RowSum(img, t, c, v, n - 1),
          Sub(Pixel(img, c + u + v * img.cols), Pixel(img, c + u - v * img.cols)))
  }

  /** `m_10` after the first `n` steps of the loop over row pair `v`, starting from `m`. */
  function RowM10(img: Image, t: Table, c: int, v: int, m: Option<int>, n: nat): Option<int>
    requires 1 <= v <= HalfK && n <= Width(t, v)
  {
    if n == 0 then m
    else
      var u := n - 1 - t[v];
      Add(RowM10(img, t, c, v, m, n - 1),
          Scale(u, Add(Pixel(img, c + u + v * img.cols), Pixel(img, c + u - v * img.cols))))
  }

  /** `m_10` once the centre row and the row pairs 1 .. `w` are done. */
  function M10Upto(img: Image, t: Table, c: int, w: nat): Option<int>
    requires w <= HalfK
  {
    if w == 0 then CenterM10(img, c, 2 * HalfK + 1)
    else RowM10(img, t, c, w, M10Upto(img, t, c, w - 1), Width(t, w))
  }

  /** `m_01` once the row pairs 1 .. `w` are done. */
  function M01Upto(img: Image, t: Table, c: int, w: nat): Option<int>
    requires w <= HalfK
  {
    if w == 0 then Some(0)
    else Add(M01Upto(img, t, c, w - 1), Scale(w, RowSum(img, t, c, w, Width(t, w))))
  }

  /** The diamond angle of the two moments; NaN in either moment gives NaN. */
  function Angle(m01: Option<int>, m10: Option<int>): Option<real>
  {
    if m01.Some? && m10.Some? then DiamondAngle(m01.value as real, m10.value as real) else None
  }

  /** Centre offset of pixel (`px`, `py`). */
  function Center(img: Image, px: int, py: int): int
  {
    py * img.cols + px
  }

  /** The orientation `AM.IcAngle` returns, in quarter turns, for the half-width table `t`. */
  function Orientation(img: Image, t: Table, px: int, py: int): Option<real>
  {
    var c := Center(img, px, py);
    Angle(M01Upto(img, t, c, HalfK), M10Upto(img, t, c, HalfK))
  }

  /** The inner loop of `AM.IcAngle` over the two rows at distance `v` from the centre. */
  method RowPair(img: Image, t: Table, c: int, v: int, m10: Option<int>) returns (vSum: Option<int>, m10': Option<int>)
    requires 1 <= v <= HalfK
    ensures vSum == RowSum(img, t, c, v, Width(t, v))
    ensures m10' == RowM10(img, t, c, v, m10, Width(t, v))
  {
    vSum, m10' := Some(0), m10;
    var d: int := t[v];
    var u := -d;
    while u <= d
      invariant -d <= u <= d + 1
      invariant vSum == RowSum(img, t, c, v, u + d)
      invariant m10' == RowM10(img, t, c, v, m10, u + d)
    {
      var plus := Pixel(img, c + u + v * img.cols);
      var minus := Pixel(img, c + u - v * img.cols);
      vSum := Add(vSum, Sub(plus, minus));
      m10' := Add(m10', Scale(u, Add(plus, minus)));
      u := u + 1;
    }
  }

  /** The loops of `AM.IcAngle`: the centre row, then the row pairs 1 .. 15 with half-widths from `t`. */
  method Moments(img: Image, t: Table, c: int) returns (m01: Option<int>, m10: Option<int>)
    ensures m01 == M01Upto(img, t, c, HalfK) && m10 == M10Upto(img, t, c, HalfK)
  {
    m01, m10 := Some(0), Some(0);
    var u := -HalfK;
    while u <= HalfK
      invariant -HalfK <= u <= HalfK + 1
      invariant m10 == CenterM10(img, c, u + HalfK)
    {
      m10 := Add(m10, Scale(u, Pixel(img, c + u)));
      u := u + 1;
    }
    var v := 1;
    while v <= HalfK
      invariant 1 <= v <= HalfK + 1
      invariant m10 == M10Upto(img, t, c, v - 1) && m01 == M01Upto(img, t, c, v - 1)
    {
      var vSum;
      vSum, m10 := RowPair(img, t, c, v, m10);
      m01 := Add(m01, Scale(v, vSum));
      v := v + 1;
    }
  }

  /** `AM.IcAngle`: the intensity-centroid orientation of the circular patch around (`px`, `py`). */
  method IcAngle(img: Image, px: int, py: int) returns (angle: Option<real>)
    ensures angle == Orientation(img, UMax, px, py)
  {
    var m01, m10 := Moments(img, UMax, py * img.cols + px);
    angle := Angle(m01, m10);
  }

  // ---------------------------------------------------------------------
  // IcAngle: the moments over the circular patch

  /** (`u`, `v`) lies in the circular patch: at most 15 rows from the centre and inside the row's half-width. */
  predicate InPatch(t: Table, v: int, u: int)
  {
    -HalfK <= v <= HalfK && -t[Abs(v)] <= u <= t[Abs(v)]
  }

  /** Buffer offset of the patch point (`u`, `v`) around centre offset `c`. */
  function Offset(img: Image, c: int, v: int, u: int): int
  {
    c + u + v * img.cols
  }

  /** Every point of the patch lies inside the buffer. */
  ghost predicate PatchInside(img: Image, t: Table, c: int)
  {
    forall v, u {:trigger InPatch(t, v, u)} :: InPatch(t, v, u) ==> 0 <= Offset(img, c, v, u) < |img.data|
  }

  /** The grey level at offset `i`, 0 outside the buffer (only read under `PatchInside`). */
  function At(img: Image, i: int): int
  {
    if 0 <= i < |img.data| then img.data[i] else 0
  }

  /** Sum of `u * I(u, v)` over the first `n` points of row `v` of the patch. */
  function RowU(img: Image, t: Table, c: int, v: int, n: nat): int
    requires -HalfK <= v <= HalfK
  {
    if n == 0 then 0
    else
      var u := n - 1 - t[Abs(v)];
      RowU(img, t, c, v, n - 1) + u * At(img, Offset(img, c, v, u))
  }

  /** Sum of `I(u, v)` over the first `n` points of row `v` of the patch. */
  function RowI(img: Image, t: Table, c: int, v: int, n: nat): int
    requires -HalfK <= v <= HalfK
  {
    if n == 0 then 0
    else
      var u := n - 1 - t[Abs(v)];
      RowI(img, t, c, v, n - 1) + At(img, Offset(img, c, v, u))
  }

  /** Sum of `u * I(u, v)` over the rows -`w` .. `w` of the patch. */
  function PatchU(img: Image, t: Table, c: int, w: nat): int
    requires w <= HalfK
  {
    if w == 0 then RowU(img, t, c, 0, Width(t, 0))
    else PatchU(img, t, c, w - 1) + RowU(img, t, c, w, Width(t, w)) + RowU(img, t, c, -(w as int), Width(t, w))
  }

  /** Sum of `v * I(u, v)` over the rows -`w` .. `w` of the patch (row 0 weighs nothing). */
  function PatchV(img: Image, t: Table, c: int, w: nat): int
    requires w <= HalfK
  {
    if w == 0 then 0
    else
      PatchV(img, t, c, w - 1) + w * RowI(img, t, c, w, Width(t, w))
      + (-(w as int)) * RowI(img, t, c, -(w as int), Width(t, w))
  }

  lemma NegatedRow(img: Image, c: int, v: int, u: int)
    ensures Offset(img, c, -v, u) == c + u - v * img.cols
  {
    assert (-v) * img.cols == -(v * img.cols);
  }

  lemma {:induction false} CenterInside(img: Image, t: Table, c: int, n: nat)
    requires PatchInside(img, t, c) && t[0] == HalfK && n <= 2 * HalfK + 1
    ensures CenterM10(img, c, n) == Some(RowU(img, t, c, 0, n))
  {
    if n > 0 {
      CenterInside(img, t, c, n - 1);
      var u := n - 1 - HalfK;
      assert InPatch(t, 0, u);
      assert Offset(img, c, 0, u) == c + u;
    }
  }

  /** Inside the patch, the two reads of row pair `v` at column `u` are the pixels at (`u`, `v`) and (`u`, `-v`). */
  lemma PairInside(img: Image, t: Table, c: int, v: int, u: int)
    requires PatchInside(img, t, c) && 1 <= v <= HalfK && -t[v] <= u <= t[v]
    ensures Pixel(img, c + u + v * img.cols) == Some(At(img, Offset(img, c, v, u)))
    ensures Pixel(img, c + u - v * img.cols) == Some(At(img, Offset(img, c, -v, u)))
  {
    assert InPatch(t, v, u) && InPatch(t, -v, u);
    NegatedRow(img, c, v, u);
  }

  lemma ScaledPair(a: int, u: int, p: int, q: int)
    ensures Add(Some(a), Scale(u, Add(Some(p), Some(q)))) == Some(a + u * p + u * q)
  {
    assert u * (p + q) == u * p + u * q;
  }

  lemma ScaledDiff(a: int, w: int, p: int, q: int)
    ensures Add(Some(a), Scale(w, Sub(Some(p), Some(q)))) == Some(a + w * p + (-w) * q)
  {
    assert w * (p - q) == w * p + (-w) * q;
  }

  lemma {:induction false} RowSumInside(img: Image, t: Table, c: int, v: int, n: nat)
    requires PatchInside(img, t, c) && 1 <= v <= HalfK && n <= Width(t, v)
    ensures RowSum(img, t, c, v, n) == Some(RowI(img, t, c, v, n) - RowI(img, t, c, -v, n))
  {
    if n > 0 {
      RowSumInside(img, t, c, v, n - 1);
      PairInside(img, t, c, v, n - 1 - t[v]);
    }
  }

  lemma RowM10Step(img: Image, t: Table, c: int, v: int, x: int, n: nat)
    requires PatchInside(img, t, c) && 1 <= v <= HalfK && 0 < n <= Width(t, v)
    requires RowM10(img, t, c, v, Some(x), n - 1)
          == Some(x + RowU(img, t, c, v, n - 1) + RowU(img, t, c, -v, n - 1))
    ensures RowM10(img, t, c, v, Some(x), n) == Some(x + RowU(img, t, c, v, n) + RowU(img, t, c, -v, n))
  {
    var u := n - 1 - t[v];
    PairInside(img, t, c, v, u);
    var p, q := At(img, Offset(img, c, v, u)), At(img, Offset(img, c, -v, u));
    assert RowU(img, t, c, v, n) == RowU(img, t, c, v, n - 1) + u * p;
    assert RowU(img, t, c, -v, n) == RowU(img, t, c, -v, n - 1) + u * q;
    ScaledPair(x + RowU(img, t, c, v, n - 1) + RowU(img, t, c, -v, n - 1), u, p, q);
  }

  lemma {:induction false} RowM10Inside(img: Image, t: Table, c: int, v: int, x: int, n: nat)
    requires PatchInside(img, t, c) && 1 <= v <= HalfK && n <= Width(t, v)
    ensures RowM10(img, t, c, v, Some(x), n) == Some(x + RowU(img, t, c, v, n) + RowU(img, t, c, -v, n))
  {
    if n > 0 {
      RowM10Inside(img, t, c, v, x, n - 1);
      RowM10Step(img, t, c, v, x, n);
    }
  }

  lemma {:induction false} M10Inside(img: Image, t: Table, c: int, w: nat)
    requires PatchInside(img, t, c) && t[0] == HalfK && w <= HalfK
    ensures M10Upto(img, t, c, w) == Some(PatchU(img, t, c, w))
  {
    if w == 0 {
      CenterInside(img, t, c, 2 * HalfK + 1);
    } else {
      M10Inside(img, t, c, w - 1);
      RowM10Inside(img, t, c, w, PatchU(img, t, c, w - 1), Width(t, w));
    }
  }

  lemma {:induction false} M01Inside(img: Image, t: Table, c: int, w: nat)
    requires PatchInside(img, t, c) && w <= HalfK
    ensures M01Upto(img, t, c, w) == Some(PatchV(img, t, c, w))
  {
    if w > 0 {
      M01Inside(img, t, c, w - 1);
      RowSumInside(img, t, c, w, Width(t, w));
      ScaledDiff(PatchV(img, t, c, w - 1), w, RowI(img, t, c, w, Width(t, w)),
                 RowI(img, t, c, -(w as int), Width(t, w)));
    }
  }

  /**
   * When the circular patch lies inside the buffer, `IcAngle` is the diamond angle of the first
   * moments `m_01 = sum v * I(u, v)` and `m_10 = sum u * I(u, v)` over the patch.
   */
  lemma OrientationInside(img: Image, t: Table, px: int, py: int)
    requires t[0] == HalfK && PatchInside(img, t, Center(img, px, py))
    ensures Orientation(img, t, px, py)
         == DiamondAngle(PatchV(img, t, Center(img, px, py), HalfK) as real,
                         PatchU(img, t, Center(img, px, py), HalfK) as real)
  {
    M10Inside(img, t, Center(img, px, py), HalfK);
    M01Inside(img, t, Center(img, px, py), HalfK);
  }

  lemma {:induction false} CenterNone(img: Image, c: int, n: nat, j: nat)
    requires j < n <= 2 * HalfK + 1 && Pixel(img, c + j - HalfK) == None
    ensures CenterM10(img, c, n) == None
  {
    if j < n - 1 {
      CenterNone(img, c, n - 1, j);
    }
  }

  lemma {:induction false} RowM10FromNone(img: Image, t: Table, c: int, v: int, n: nat)
    requires 1 <= v <= HalfK && n <= Width(t, v)
    ensures RowM10(img, t, c, v, None, n) == None
  {
    if n > 0 {
      RowM10FromNone(img, t, c, v, n - 1);
    }
  }

  lemma {:induction false} RowM10Hit(img: Image, t: Table, c: int, v: int, m: Option<int>, n: nat, j: nat)
    requires 1 <= v <= HalfK && j < n <= Width(t, v)
    requires Pixel(img, c + (j - t[v]) + v * img.cols) == None || Pixel(img, c + (j - t[v]) - v * img.cols) == None
    ensures RowM10(img, t, c, v, m, n) == None
  {
    if j < n - 1 {
      RowM10Hit(img, t, c, v, m, n - 1, j);
    }
  }

  lemma {:induction false} M10StaysNone(img: Image, t: Table, c: int, v: nat, w: nat)
    requires v <= w <= HalfK && M10Upto(img, t, c, v) == None
    ensures M10Upto(img, t, c, w) == None
  {
    if v < w {
      M10StaysNone(img, t, c, v, w - 1);
      RowM10FromNone(img, t, c, w, Width(t, w));
    }
  }

  /** A patch point outside the buffer makes `m_10` NaN. */
  lemma M10Outside(img: Image, t: Table, c: int, v: int, u: int)
    requires t[0] == HalfK && InPatch(t, v, u) && !(0 <= Offset(img, c, v, u) < |img.data|)
    ensures M10Upto(img, t, c, HalfK) == None
  {
    if v == 0 {
      assert Offset(img, c, v, u) == c + (u + HalfK) - HalfK;
      CenterNone(img, c, 2 * HalfK + 1, u + HalfK);
      M10StaysNone(img, t, c, 0, HalfK);
    } else if v > 0 {
      RowM10Hit(img, t, c, v, M10Upto(img, t, c, v - 1), Width(t, v), u + t[v]);
      M10StaysNone(img, t, c, v, HalfK);
    } else {
      NegatedRow(img, c, -v, u);
      RowM10Hit(img, t, c, -v, M10Upto(img, t, c, -v - 1), Width(t, -v), u + t[-v]);
      M10StaysNone(img, t, c, -v, HalfK);
    }
  }

  /** When some point of the circular patch falls outside the buffer, `IcAngle` is NaN. */
  lemma OrientationOutside(img: Image, t: Table, px: int, py: int)
    requires t[0] == HalfK && !PatchInside(img, t, Center(img, px, py))
    ensures Orientation(img, t, px, py) == None
  {
    var c := Center(img, px, py);
    var v, u :| InPatch(t, v, u) && !(0 <= Offset(img, c, v, u) < |img.data|);
    M10Outside(img, t, c, v, u);
  }

  lemma SquareMonotone(a: nat, b: nat)
    requires a <= b
    ensures a * a <= b * b
  {
  }

  lemma RowRadius(r: nat)
    requires r <= HalfK
    ensures UMax[r] * UMax[r] + r * r <= 234
  {
    if r < 8 {
      assert r == 0 || r == 1 || r == 2 || r == 3 || r == 4 || r == 5 || r == 6 || r == 7;
    } else {
      assert r == 8 || r == 9 || r == 10 || r == 11 || r == 12 || r == 13 || r == 14 || r == 15;
    }
  }

  /**
   * The patch of `u_max` lies inside the 31 x 31 square around the centre and inside the disc of
   * squared radius 234, and it is symmetric in both axes.
   */
  lemma PatchIsRound(v: int, u: int)
    requires InPatch(UMax, v, u)
    ensures -HalfK <= u <= HalfK && u * u + v * v <= 234
    ensures InPatch(UMax, -v, u) && InPatch(UMax, v, -u)
  {
    RowRadius(Abs(v));
    SquareMonotone(Abs(u), UMax[Abs(v)]);
    assert Abs(u) * Abs(u) == u * u && Abs(v) * Abs(v) == v * v;
  }

  // ---------------------------------------------------------------------
  // DetectKeypointsPostProc

  /** A detected corner (`jsfeat.keypoint_t`); `angle` is in quarter turns, `None` for NaN. */
  datatype Keypoint = Keypoint(x: int, y: int, score: int, level: int, angle: Option<real>)

  /** What a keypoint is apart from its orientation. */
  function Corner(k: Keypoint): (int, int, int, int)
  {
    (k.x, k.y, k.score, k.level)
  }

  function Corners(s: seq<Keypoint>): seq<(int, int, int, int)>
  {
    seq(|s|, i requires 0 <= i < |s| => Corner(s[i]))
  }

  /** Scores never increase along `s`: the order `qsort` leaves with the comparator `b.score < a.score`. */
  predicate Descending(s: seq<Keypoint>)
  {
    forall i, j :: 0 <= i < j < |s| ==> s[i].score >= s[j].score
  }

  /** `sort` rearranges any sequence of keypoints by descending score (the contract of `jsfeat.math.qsort`). */
  ghost predicate SortsByScore(sort: seq<Keypoint> -> seq<Keypoint>)
  {
    forall s :: multiset(sort(s)) == multiset(s) && Descending(sort(s))
  }

  function WithOrientation(img: Image, k: Keypoint): Keypoint
  {
    k.(angle := Orientation(img, UMax, k.x, k.y))
  }

  /** Number of corners `AM.DetectKeypointsPostProc` keeps. */
  function Kept(count: int, maxAllowed: int): int
  {
    if count > maxAllowed then maxAllowed else count
  }

  lemma SortedLength(sort: seq<Keypoint> -> seq<Keypoint>, s: seq<Keypoint>)
    requires SortsByScore(sort)
    ensures |sort(s)| == |s|
  {
    assert |multiset(sort(s))| == |multiset(s)|;
  }

  /** The corner buffer after `AM.DetectKeypointsPostProc`. */
  function PostProc(img: Image, s: seq<Keypoint>, count: nat, maxAllowed: int,
                    sort: seq<Keypoint> -> seq<Keypoint>): (r: seq<Keypoint>)
    requires count <= |s| && SortsByScore(sort)
    ensures |r| == |s|
  {
    SortedLength(sort, s[..count]);
    var ranked := Ranked(s, count, maxAllowed, sort);
    var n := Kept(count, maxAllowed);
    seq(|s|, i requires 0 <= i < |s| =>
      if i < n then WithOrientation(img, ranked[i]) else if i < count then ranked[i] else s[i])
  }

  /**
   * `AM.DetectKeypointsPostProc`: when more than `maxAllowed` corners were found, sort the first
   * `count` by descending score and keep `maxAllowed` of them; then orient each kept corner.
   */
  method DetectKeypointsPostProc(img: Image, corners: array<Keypoint>, count: nat, maxAllowed: int,
                                 sort: seq<Keypoint> -> seq<Keypoint>) returns (n: int)
    requires count <= corners.Length && SortsByScore(sort)
    modifies corners
    ensures n == Kept(count, maxAllowed)
    ensures corners[..] == PostProc(img, old(corners[..]), count, maxAllowed, sort)
  {
    ghost var s := corners[..];
    n := count;
    if count > maxAllowed {
      var ranked := sort(corners[..count]);
      SortedLength(sort, corners[..count]);
      forall i | 0 <= i < count {
        corners[i] := ranked[i];
      }
      n := maxAllowed;
    }
    ghost var ranked := corners[..];
    var i := 0;
    while i < n
      invariant 0 <= i <= n || (i == 0 && n < 0)
      invariant forall j :: 0 <= j < corners.Length ==>
        corners[j] == if j < i then WithOrientation(img, ranked[j]) else ranked[j]
    {
      var angle := IcAngle(img, corners[i].x, corners[i].y);
      corners[i] := corners[i].(angle := angle);
      i := i + 1;
    }
  }

  lemma CornersConcat(a: seq<Keypoint>, b: seq<Keypoint>)
    ensures Corners(a + b) == Corners(a) + Corners(b)
  {
  }

  /** Taking out the element at `k`. */
  lemma RemoveAt(b: seq<Keypoint>, k: nat)
    requires k < |b|
    ensures multiset(b) == multiset(b[..k] + b[k + 1..]) + multiset{b[k]}
  {
    assert b == b[..k] + [b[k]] + b[k + 1..];
  }

  /** Taking out the element at `k`, after mapping to corners. */
  lemma RemoveCornerAt(b: seq<Keypoint>, k: nat)
    requires k < |b|
    ensures multiset(Corners(b)) == multiset(Corners(b[..k] + b[k + 1..])) + multiset{Corner(b[k])}
  {
    assert b == b[..k] + [b[k]] + b[k + 1..];
    CornersConcat(b[..k] + [b[k]], b[k + 1..]);
    CornersConcat(b[..k], [b[k]]);
    CornersConcat(b[..k], b[k + 1..]);
  }

  lemma Cancel<T>(x: T, m: multiset<T>, n: multiset<T>)
    requires m + multiset{x} == n + multiset{x}
    ensures m == n
  {
    assert m == (m + multiset{x}) - multiset{x};
  }

  lemma RemoveSame(a: seq<Keypoint>, b: seq<Keypoint>, k: nat)
    requires a != [] && k < |b| && b[k] == a[0] && multiset(a) == multiset(b)
    ensures multiset(a[1..]) == multiset(b[..k] + b[k + 1..])
  {
    RemoveAt(a, 0);
    assert a[..0] + a[1..] == a[1..];
    RemoveAt(b, k);
    Cancel(a[0], multiset(a[1..]), multiset(b[..k] + b[k + 1..]));
  }

  lemma AddSameCorner(a: seq<Keypoint>, b: seq<Keypoint>, k: nat)
    requires a != [] && k < |b| && b[k] == a[0]
    requires multiset(Corners(a[1..])) == multiset(Corners(b[..k] + b[k + 1..]))
    ensures multiset(Corners(a)) == multiset(Corners(b))
  {
    RemoveCornerAt(a, 0);
    assert a[..0] + a[1..] == a[1..];
    RemoveCornerAt(b, k);
  }

  lemma {:induction false} CornersPermutation(a: seq<Keypoint>, b: seq<Keypoint>)
    requires multiset(a) == multiset(b)
    ensures multiset(Corners(a)) == multiset(Corners(b))
    decreases |a|
  {
    if a != [] {
      assert a[0] in multiset(b);
      var k :| 0 <= k < |b| && b[k] == a[0];
      RemoveSame(a, b, k);
      CornersPermutation(a[1..], b[..k] + b[k + 1..]);
      AddSameCorner(a, b, k);
    }
  }

  /** The entries `AM.DetectKeypointsPostProc` leaves in the first `count` slots, before orienting them. */
  function Ranked(s: seq<Keypoint>, count: nat, maxAllowed: int, sort: seq<Keypoint> -> seq<Keypoint>): seq<Keypoint>
    requires count <= |s|
  {
    if count > maxAllowed then sort(s[..count]) else s[..count]
  }

  /**
   * The kept corners outscore every dropped one, and when the corners had to be truncated, the
   * first `count` entries are in order of non-increasing score.
   */
  lemma PostProcKeepsBest(img: Image, s: seq<Keypoint>, count: nat, maxAllowed: int,
                          sort: seq<Keypoint> -> seq<Keypoint>)
    requires count <= |s| && SortsByScore(sort)
    ensures var r, n := PostProc(img, s, count, maxAllowed, sort), Kept(count, maxAllowed);
      && (forall i, j :: 0 <= i < n <= j < count ==> r[i].score >= r[j].score)
      && (count > maxAllowed ==> Descending(r[..count]))
  {
    SortedLength(sort, s[..count]);
    var ranked := Ranked(s, count, maxAllowed, sort);
    assert count > maxAllowed ==> Descending(ranked);
  }

  /**
   * The first `count` entries are the same corners as before, only reordered and re-oriented, each
   * kept corner carries its own orientation, the rest of the buffer is untouched, and without
   * truncation the order is kept.
   */
  lemma PostProcSameCorners(img: Image, s: seq<Keypoint>, count: nat, maxAllowed: int,
                            sort: seq<Keypoint> -> seq<Keypoint>)
    requires count <= |s| && SortsByScore(sort)
    ensures var r, n := PostProc(img, s, count, maxAllowed, sort), Kept(count, maxAllowed);
      && multiset(Corners(r[..count])) == multiset(Corners(s[..count]))
      && (forall i :: 0 <= i < n ==> r[i].angle == Orientation(img, UMax, r[i].x, r[i].y))
      && r[count..] == s[count..]
      && (count <= maxAllowed ==> forall i :: 0 <= i < count ==> r[i] == WithOrientation(img, s[i]))
  {
    SortedLength(sort, s[..count]);
    var r := PostProc(img, s, count, maxAllowed, sort);
    var ranked := Ranked(s, count, maxAllowed, sort);
    assert Corners(r[..count]) == Corners(ranked);
    CornersPermutation(ranked, s[..count]);
  }
}
