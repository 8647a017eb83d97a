/**
 * The vectorised quad index buffers: an (n, 6) array whose rows are a fixed
 * 6-entry pattern, offset row by row by 4*i, then flattened
 * (`I[:] = pattern; I += 4*arange(n).reshape(n,1); I.ravel()`).
 */
module QuadIndex {

  import opened Ndarray

  /** The (n, 6) array before flattening: row i is pattern + 4*i. */
  function QuadRows(n: nat, pattern: seq<nat>): (rows: seq<seq<nat>>)
    requires |pattern| == 6
  {
    seq(n, i requires 0 <= i < n => seq(6, j requires 0 <= j < 6 => pattern[j] + 4 * i))
  }

  /** The flattened index buffer: entry k is pattern[k mod 6] + 4*(k div 6). */
  function QuadIndices(n: nat, pattern: seq<nat>): (I: seq<nat>)
    requires |pattern| == 6
    ensures |I| == 6 * n
    ensures forall k :: 0 <= k < 6 * n ==> I[k] == pattern[k % 6] + 4 * (k / 6)
  {
    var rows := QuadRows(n, pattern);
    forall k | 0 <= k < 6 * n
      ensures |Ravel(rows)| == 6 * n && Ravel(rows)[k] == pattern[k % 6] + 4 * (k / 6)
    {
      RavelAt(rows, 6, k);
    }
    RavelLength(rows, 6);
    Ravel(rows)
  }

  /**
   * With a pattern over the four corners 0..3, every index is below 4n and
   * each triangle (three consecutive entries) stays within its own quad.
   */
  lemma QuadIndicesBounded(n: nat, pattern: seq<nat>)
    requires |pattern| == 6 && forall j :: 0 <= j < 6 ==> pattern[j] < 4
    ensures forall k :: 0 <= k < 6 * n ==> QuadIndices(n, pattern)[k] < 4 * n
    // entry k belongs to triangle k div 3, which lies in quad k div 6
    ensures forall k :: 0 <= k < 6 * n ==> 4 * (k / 6) <= QuadIndices(n, pattern)[k] < 4 * (k / 6) + 4
  {
    var I := QuadIndices(n, pattern);
    forall k | 0 <= k < 6 * n ensures I[k] < 4 * n {
      assert k / 6 < n;
      assert 4 * (k / 6) <= 4 * (n - 1);
    }
  }
}

/** code/chapter-09/agg-segments.py: thick antialiased segments, one quad each. */
module AggSegments {
  import opened RealFacts
  import QuadIndex

  /** Vertex shader: thin lines keep width 1 and fade instead; thick lines are opaque. */
  function ThicknessAlpha(t: real): (ta: (real, real))
    ensures ta.0 >= 1.0 && 0.0 <= ta.1 <= 1.0
    ensures ta.0 * ta.1 == Abs(t)
    ensures Abs(t) < 1.0 ==> ta.0 == 1.0
    ensures Abs(t) >= 1.0 ==> ta.1 == 1.0
  {
    if Abs(t) < 1.0 then (1.0, Abs(t)) else (Abs(t), 1.0)
  }

  /** Vertex shader: a quad corner coordinate in {0, 1} becomes a side sign in {-1, +1}. */
  function CornerSign(c: real): (s: real)
    ensures c == 0.0 ==> s == -1.0
    ensures c == 1.0 ==> s == 1.0
    ensures c == (s + 1.0) / 2.0
  {
    2.0 * c - 1.0
  }

  /** Fragment shader alpha from the distance d to the segment's stroke. */
  function FragmentAlpha(d: real, antialias: real, vAlpha: real, exp: real -> real): (a: real)
    ensures d < 0.0 ==> a == vAlpha
    ensures 0.0 <= d < antialias ==> a == exp(-d * d) * vAlpha
    ensures d >= 0.0 && d >= antialias ==> a == 0.0
    ensures ExpFacts(exp) && vAlpha >= 0.0 ==> 0.0 <= a <= vAlpha
  {
    if d < 0.0 then vAlpha
    else if d < antialias then
      assert ExpFacts(exp) ==> exp(-d * d) <= 1.0 by {
        if ExpFacts(exp) && -d * d < 0.0 { assert exp(-d * d) < exp(0.0); }
      }
      MulLeOne(exp, d, vAlpha);
      exp(-d * d) * vAlpha
    else 0.0
  }

  lemma MulLeOne(exp: real -> real, d: real, vAlpha: real)
    ensures ExpFacts(exp) && exp(-d * d) <= 1.0 && vAlpha >= 0.0 ==>
      0.0 <= exp(-d * d) * vAlpha <= vAlpha
  {
    if ExpFacts(exp) && exp(-d * d) <= 1.0 && vAlpha >= 0.0 {
      MulNonneg(exp(-d * d), vAlpha);
      MulNonneg(1.0 - exp(-d * d), vAlpha);
    }
  }

  /** `I[:] = [0,1,2,1,2,3]; I += 4*arange(n)`: two triangles per segment quad. */
  function Indices(n: nat): (I: seq<nat>)
    ensures |I| == 6 * n
    ensures forall k :: 0 <= k < 6 * n ==> I[k] < 4 * n
    ensures forall k :: 0 <= k < 6 * n ==> 4 * (k / 6) <= I[k] < 4 * (k / 6) + 4
  {
    QuadIndex.QuadIndicesBounded(n, [0, 1, 2, 1, 2, 3]);
    QuadIndex.QuadIndices(n, [0, 1, 2, 1, 2, 3])
  }
}

/** code/chapter-07/ellipses.py: n rotated ellipses drawn on quads. */
module Ellipses {
  import opened RealFacts
  import QuadIndex

  datatype Vec2 = Vec2(x: real, y: real)

  /** Corners v0..v3 of the quad around an a-by-b ellipse with antialias margin aa. */
  function Corners(a: real, b: real, aa: real): (v: seq<Vec2>)
    ensures |v| == 4
    // the corners walk the box: consecutive corners share one coordinate
    ensures v[0].x == v[1].x && v[1].y == v[2].y && v[2].x == v[3].x && v[3].y == v[0].y
    ensures v[0].x == -a / 2.0 - aa && v[2].x == a / 2.0 + aa
    ensures v[0].y == -b / 2.0 - aa && v[1].y == b / 2.0 + aa
  {
    var x0, x1 := -a / 2.0, a / 2.0;
    var y0, y1 := -b / 2.0, b / 2.0;
    [Vec2(x0 - aa, y0 - aa), Vec2(x0 - aa, y1 + aa), Vec2(x1 + aa, y1 + aa), Vec2(x1 + aa, y0 - aa)]
  }

  /** Fragment alpha bands around the fake ellipse distance d (already shifted by +1). */
  function BandAlpha(d: real, exp: real -> real): (alpha: real)
    ensures Abs(d) < 1.0 ==> alpha == exp(-d * d) / 4.0
    ensures Abs(d) >= 1.0 && d < 0.0 ==> alpha == 1.0 / 16.0
    ensures d >= 1.0 ==> alpha == exp(-d * d) / 16.0
    ensures ExpFacts(exp) ==> 0.0 < alpha <= 0.25
    ensures ExpFacts(exp) && d >= 1.0 ==> alpha < 1.0 / 16.0
  {
    assert ExpFacts(exp) && d != 0.0 ==> exp(-d * d) < 1.0 by {
      if ExpFacts(exp) && d != 0.0 { assert -d * d < 0.0; assert exp(-d * d) < exp(0.0); }
    }
    if Abs(d) < 1.0 then exp(-d * d) / 4.0
    else if d < 0.0 then 1.0 / 16.0
    else exp(-d * d) / 16.0
  }

  /** `linspace(0, 2π, n, endpoint=False)`: entry k is 2πk/n. */
  function Angles(n: nat, twoPi: real): (A: seq<real>)
    requires twoPi > 0.0
    ensures |A| == n
    ensures forall k :: 0 <= k < n ==> 0.0 <= A[k] < twoPi
    ensures forall k :: 0 <= k < n - 1 ==> A[k + 1] - A[k] == twoPi / (n as real)
  {
    var A := seq(n, k requires 0 <= k < n => (k as real) * (twoPi / (n as real)));
    forall k | 0 <= k < n ensures 0.0 <= A[k] < twoPi {
      var step := twoPi / (n as real);
      assert step > 0.0;
      assert A[k] <= ((n - 1) as real) * step;
      assert (n as real) * step == twoPi;
    }
    A
  }

  /** `I[:] = 0,1,2, 0,2,3; I += 4*arange(n)`. */
  function Indices(n: nat): (I: seq<nat>)
    ensures |I| == 6 * n
    ensures forall k :: 0 <= k < 6 * n ==> I[k] < 4 * n
    // both triangles of quad i share its diagonal 4i – 4i+2
    ensures forall i :: 0 <= i < n ==> I[6 * i] == I[6 * i + 3] == 4 * i && I[6 * i + 2] == I[6 * i + 4] == 4 * i + 2
  {
    QuadIndex.QuadIndicesBounded(n, [0, 1, 2, 0, 2, 3]);
    var I := QuadIndex.QuadIndices(n, [0, 1, 2, 0, 2, 3]);
    forall i | 0 <= i < n
      ensures I[6 * i] == I[6 * i + 3] == 4 * i && I[6 * i + 2] == I[6 * i + 4] == 4 * i + 2
    {
      assert (6 * i + 3) / 6 == i && (6 * i + 2) / 6 == i && (6 * i + 4) / 6 == i && (6 * i) / 6 == i;
    }
    I
  }
}

/** code/boxes.py: outlined boxes from a cheap box distance. */
module Boxes {
  import opened RealFacts
  import QuadIndex

  /** `SDF_fake_box(p, size)` = max(|p.x| - size.x, |p.y| - size.y). */
  function FakeBox(px: real, py: real, sx: real, sy: real): (d: real)
    ensures d < 0.0 <==> Abs(px) < sx && Abs(py) < sy
    ensures d == 0.0 <==> (Abs(px) == sx && Abs(py) <= sy) || (Abs(py) == sy && Abs(px) <= sx)
    ensures d > 0.0 <==> Abs(px) > sx || Abs(py) > sy
  {
    Max(Abs(px) - sx, Abs(py) - sy)
  }

  lemma FakeBoxMirror(px: real, py: real, sx: real, sy: real)
    ensures FakeBox(-px, py, sx, sy) == FakeBox(px, py, sx, sy)
    ensures FakeBox(px, -py, sx, sy) == FakeBox(px, py, sx, sy)
  {}

  /** Outline mode: alpha from |d + 1|, fully opaque only on the curve d = -1. */
  function OutlineAlpha(d: real, exp: real -> real): (a: real)
    ensures d == -1.0 ==> a == 1.0
    ensures d != -1.0 ==> a == exp(-Abs(d + 1.0) * Abs(d + 1.0))
    ensures ExpFacts(exp) ==> (a == 1.0 <==> d == -1.0)
    ensures ExpFacts(exp) ==> 0.0 < a <= 1.0
  {
    var e := Abs(d + 1.0);
    assert ExpFacts(exp) && e > 0.0 ==> exp(-e * e) < 1.0 by {
      if ExpFacts(exp) && e > 0.0 { MulPos(e, e); assert -e * e == -(e * e); ExpBelowOne(exp, -e * e); }
    }
    if e > 0.0 then exp(-e * e) else 1.0
  }

  /** The outline is symmetric about the curve d = -1: the inner and outer halves fade alike. */
  lemma OutlineSymmetric(t: real, exp: real -> real)
    ensures OutlineAlpha(-1.0 + t, exp) == OutlineAlpha(-1.0 - t, exp)
  {
    // the same squared distance on both sides of the curve
    assert Abs(-1.0 + t + 1.0) == Abs(-1.0 - t + 1.0);
    assert -Abs(-1.0 + t + 1.0) * Abs(-1.0 + t + 1.0) == -Abs(-1.0 - t + 1.0) * Abs(-1.0 - t + 1.0);
  }

  /**
   * The quad spans [-(a+aa), a+aa] × [-(b+aa), b+aa] (`v0 = 2*x0-aa` with x0 = -a/2):
   * it contains every point whose fake distance to the box of half-size (a, b) is below aa.
   */
  function QuadHalfExtent(a: real, b: real, aa: real): (h: (real, real))
    ensures forall px: real, py: real {:trigger FakeBox(px, py, a, b)} ::
      FakeBox(px, py, a, b) < aa ==> Abs(px) < h.0 && Abs(py) < h.1
  {
    var x0, x1 := -a / 2.0, a / 2.0;
    var y0, y1 := -b / 2.0, b / 2.0;
    (2.0 * x1 + aa, 2.0 * y1 + aa)
  }

  /** `I[:] = 0,1,2, 0,2,3; I += 4*arange(n)`. */
  function Indices(n: nat): (I: seq<nat>)
    ensures |I| == 6 * n
    ensures forall k :: 0 <= k < 6 * n ==> I[k] < 4 * n
  {
    QuadIndex.QuadIndicesBounded(n, [0, 1, 2, 0, 2, 3]);
    QuadIndex.QuadIndices(n, [0, 1, 2, 0, 2, 3])
  }
}
