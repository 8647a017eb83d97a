/**
 * The antialiasing coverage ramp shared by several fragment shaders:
 * `alpha` in code/circle-aa.py, `coverage` in code/csg-aa-union.py and
 * `compute_alpha` in code/chapter-03/quad-grid.py are the same expression,
 * modelled once here.
 */
module SdfCoverage {
  import opened RealFacts

  /**
   * Opaque inside the stroke (d below width/2 - antialias), then a Gaussian
   * falloff exp(-((d - (width/2 - antialias)) / antialias)²).
   */
  function Coverage(d: real, width: real, antialias: real, exp: real -> real): (r: real)
    requires antialias > 0.0
    ensures d < width / 2.0 - antialias ==> r == 1.0
    ensures d >= width / 2.0 - antialias ==>
      r == exp(-((d - (width / 2.0 - antialias)) / antialias) * ((d - (width / 2.0 - antialias)) / antialias))
    ensures ExpFacts(exp) ==> 0.0 < r <= 1.0
    ensures ExpFacts(exp) ==> (r == 1.0 <==> d <= width / 2.0 - antialias)
  {
    var e := d - (width / 2.0 - antialias);
    var a := e / antialias;
    if e < 0.0 then 1.0
    else
      assert ExpFacts(exp) ==> exp(-a * a) <= exp(0.0) && (exp(-a * a) == 1.0 <==> e == 0.0) by {
        if ExpFacts(exp) && e > 0.0 {
          assert a > 0.0;
          assert -a * a < 0.0;
          assert exp(-a * a) < exp(0.0);
        }
      }
      exp(-a * a)
  }

  lemma SquareMono(a: real, b: real)
    requires 0.0 <= a <= b
    ensures a * a <= b * b
  {
    MulNonneg(b - a, b + a);
    assert (b - a) * (b + a) == b * b - a * a;
  }

  lemma DivMono(a: real, b: real, c: real)
    requires 0.0 <= a <= b && c > 0.0
    ensures 0.0 <= a / c <= b / c
  {
    MulNonneg(b - a, 1.0 / c);
    MulNonneg(a, 1.0 / c);
  }

  /** Moving farther from the stroke never increases the coverage. */
  lemma {:induction false} CoverageNonincreasing(d1: real, d2: real, width: real, antialias: real, exp: real -> real)
    requires antialias > 0.0 && ExpFacts(exp)
    requires d1 <= d2
    ensures Coverage(d2, width, antialias, exp) <= Coverage(d1, width, antialias, exp)
  {
    var t := width / 2.0 - antialias;
    if d1 - t >= 0.0 {
      DivMono(d1 - t, d2 - t, antialias);
      var a1 := (d1 - t) / antialias;
      var a2 := (d2 - t) / antialias;
      SquareMono(a1, a2);
      if -a2 * a2 < -a1 * a1 { assert exp(-a2 * a2) < exp(-a1 * a1); }
    }
  }
}

/** code/circle-aa.py: the four CSG operators on signed distances. */
module CircleAA {
  import opened RealFacts

  /** Union (A or B): inside exactly where either shape is inside. */
  function CsgUnion(d1: real, d2: real): (r: real)
    ensures r < 0.0 <==> d1 < 0.0 || d2 < 0.0
    ensures r <= d1 && r <= d2 && (r == d1 || r == d2)
  {
    Min(d1, d2)
  }

  /** Intersection (A and B): inside exactly where both shapes are inside. */
  function CsgIntersection(d1: real, d2: real): (r: real)
    ensures r < 0.0 <==> d1 < 0.0 && d2 < 0.0
    ensures r >= d1 && r >= d2 && (r == d1 || r == d2)
  {
    Max(d1, d2)
  }

  /** Difference (A not B): inside A and strictly outside B. */
  function CsgDifference(d1: real, d2: real): (r: real)
    ensures r < 0.0 <==> d1 < 0.0 && d2 > 0.0
  {
    Max(d1, -d2)
  }

  /** Exclusion (A xor B), written with nested maxima as in the shader. */
  function CsgExclusion(d1: real, d2: real): (r: real)
    ensures r < 0.0 <==> (d1 < 0.0 && d2 > 0.0) || (d1 > 0.0 && d2 < 0.0)
  {
    -Max(-Max(d1, -Max(d1, d2)), -Max(d2, -Max(d1, d2)))
  }

  lemma UnionCommutativeIdempotent(d1: real, d2: real)
    ensures CsgUnion(d1, d2) == CsgUnion(d2, d1)
    ensures CsgUnion(d1, d1) == d1
  {}

  lemma ExclusionSymmetric(d1: real, d2: real)
    ensures CsgExclusion(d1, d2) == CsgExclusion(d2, d1)
  {}
}

/** code/csg-exclusion.py: exclusion as min of two differences. */
module CsgExclusion {
  import opened RealFacts
  import CircleAA

  function Exclusion(d1: real, d2: real): (r: real)
    ensures r < 0.0 <==> (d1 < 0.0 && d2 > 0.0) || (d1 > 0.0 && d2 < 0.0)
    ensures (d1 >= 0.0 && d2 >= 0.0) || (d1 <= 0.0 && d2 <= 0.0) ==> r >= 0.0
  {
    Min(Max(d1, -d2), Max(-d1, d2))
  }

  lemma ExclusionSymmetric(d1: real, d2: real)
    ensures Exclusion(d1, d2) == Exclusion(d2, d1)
  {}

  /** Both shaders commented "A xor B" compute the same field. */
  lemma ExclusionFormsAgree(d1: real, d2: real)
    ensures Exclusion(d1, d2) == CircleAA.CsgExclusion(d1, d2)
  {}
}

/** code/csg-aa-union.py: union of two circles, stroked along its boundary. */
module CsgAaUnion {
  import opened RealFacts
  import SdfCoverage
  import CircleAA

  /** Grey level of a fragment at distance d from the union: mix(white, black, coverage(|d|, 1.5, 1)). */
  function Shade(d: real, exp: real -> real): (g: real)
    ensures ExpFacts(exp) ==> 0.0 < g < 1.0
  {
    // width/2 - antialias = -0.25 is below every |d|: the ramp never reaches its opaque core
    var c := SdfCoverage.Coverage(Abs(d), 1.5, 1.0, exp);
    Mix(1.0, 0.0, c)
  }

  /** The shade depends on |d| only: the stroke is symmetric about the union's boundary. */
  lemma ShadeSymmetric(d: real, exp: real -> real)
    ensures Shade(d, exp) == Shade(-d, exp)
  {}

  lemma UnionLaws(a: real, b: real, c: real)
    ensures CircleAA.CsgUnion(a, b) == CircleAA.CsgUnion(b, a)
    ensures CircleAA.CsgUnion(CircleAA.CsgUnion(a, b), c) == CircleAA.CsgUnion(a, CircleAA.CsgUnion(b, c))
    ensures CircleAA.CsgUnion(a, a) == a
  {}
}

/** code/csg-merge.py: polynomial smooth union. */
module CsgMerge {
  import opened RealFacts

  /** The blend factor h = clamp(0.5 + 0.5*(d2-d1)/k, 0, 1). */
  function BlendFactor(d1: real, d2: real, k: real): (h: real)
    requires k > 0.0
    ensures 0.0 <= h <= 1.0
    ensures d2 - d1 >= k ==> h == 1.0
    ensures d1 - d2 >= k ==> h == 0.0
  {
    HalfRatioBounds(d2 - d1, k);
    Clamp(0.5 + 0.5 * (d2 - d1) / k, 0.0, 1.0)
  }

  lemma HalfRatioBounds(x: real, k: real)
    requires k > 0.0
    ensures x >= k ==> 0.5 * x / k >= 0.5
    ensures x <= -k ==> 0.5 * x / k <= -0.5
  {
    DivLinear(x, -x, k);
    if x >= k { DivLinear(x - k, k, k); }
    if x <= -k { DivLinear(x + k, -k, k); }
  }

  /** `csg_merge(d1, d2, k)` = mix(d2, d1, h) - k*h*(1-h). */
  function Merge(d1: real, d2: real, k: real): (r: real)
    requires k > 0.0
    ensures d2 - d1 >= k ==> r == d1
    ensures d1 - d2 >= k ==> r == d2
  {
    var h := BlendFactor(d1, d2, k);
    Mix(d2, d1, h) - k * h * (1.0 - h)
  }

  /** The smooth union never lies above the sharp union min(d1, d2). */
  lemma MergeBelowMin(d1: real, d2: real, k: real)
    requires k > 0.0
    ensures Merge(d1, d2, k) <= Min(d1, d2)
  {
    var h := BlendFactor(d1, d2, k);
    var r := Merge(d1, d2, k);
    if d2 - d1 >= k || d1 - d2 >= k {
    } else {
      // unclamped: d2 - d1 = k*(2h - 1)
      assert h == 0.5 + 0.5 * (d2 - d1) / k;
      assert d2 - d1 == k * (2.0 * h - 1.0);
      assert r - d1 == -k * (1.0 - h) * (1.0 - h);
      assert r - d2 == -k * h * h;
      MulNonneg(k, (1.0 - h) * (1.0 - h));
      MulNonneg(k, h * h);
    }
  }

  /** Swapping the operands swaps h and 1-h and leaves the result unchanged. */
  lemma MergeSymmetric(d1: real, d2: real, k: real)
    requires k > 0.0
    ensures BlendFactor(d2, d1, k) == 1.0 - BlendFactor(d1, d2, k)
    ensures Merge(d1, d2, k) == Merge(d2, d1, k)
  {
    var h := BlendFactor(d1, d2, k);
    if d2 - d1 >= k || d1 - d2 >= k {
    } else {
      DivLinear(0.0, d2 - d1, k);
      assert 0.5 * (d1 - d2) / k == -(0.5 * (d2 - d1) / k);
    }
  }
}

/** code/chapter-03/quad-grid.py: antialiased major/minor grid lines. */
module QuadGrid {
  import opened RealFacts
  import SdfCoverage

  /**
   * Grey level of the fragment at (x, y): mix(white, black, a) where a is the
   * strongest of the four line coverages, major lines 2.5 wide and minor
   * lines 1 wide, both with antialias 1. The fragment is black exactly
   * within 0.25 of a major line (a minor line is never fully opaque).
   */
  function GridShade(x: real, y: real, major: real, minor: real, exp: real -> real): (g: real)
    requires major > 0.0 && minor > 0.0
    ensures ExpFacts(exp) ==> 0.0 <= g < 1.0
    ensures ExpFacts(exp) ==>
      (g == 0.0 <==> GridDistance(x, major) <= 0.25 || GridDistance(y, major) <= 0.25)
  {
    var majorX := SdfCoverage.Coverage(GridDistance(x, major), 2.5, 1.0, exp);
    var majorY := SdfCoverage.Coverage(GridDistance(y, major), 2.5, 1.0, exp);
    var minorX := SdfCoverage.Coverage(GridDistance(x, minor), 1.0, 1.0, exp);
    var minorY := SdfCoverage.Coverage(GridDistance(y, minor), 1.0, 1.0, exp);
    Mix(1.0, 0.0, Max(Max(majorX, majorY), Max(minorX, minorY)))
  }

  /** Distance from coordinate v to the nearest grid line of spacing s: min(mod(v,s), mod(s-v,s)). */
  function GridDistance(v: real, s: real): (d: real)
    requires s > 0.0
    ensures 0.0 <= d <= s / 2.0
  {
    ModRange(v, s);
    ModRange(s - v, s);
    ModReflect(v, s);
    Min(Mod(v, s), Mod(s - v, s))
  }

  /** mod(s - v, s) is s - mod(v, s), except on a grid line where both are 0. */
  lemma ModReflect(v: real, s: real)
    requires s > 0.0
    ensures Mod(s - v, s) == if Mod(v, s) == 0.0 then 0.0 else s - Mod(v, s)
  {
    var f := (v / s).Floor;
    var g := ((s - v) / s).Floor;
    DivLinear(s, v, s);
    assert (s - v) / s == 1.0 - v / s;
    ModRange(v, s);
    ModRange(s - v, s);
    if Mod(v, s) == 0.0 {
      assert v == s * (f as real);
      assert v / s == f as real;
      assert g == 1 - f;
    } else {
      assert v / s != f as real;
      assert g == -f;
    }
  }

  /** v lies on a grid line of spacing s: v/s is a whole number. */
  ghost predicate OnGridLine(v: real, s: real)
    requires s > 0.0
  {
    v / s == (v / s).Floor as real
  }

  /** The distance vanishes exactly on the grid lines. */
  lemma GridDistanceZero(v: real, s: real)
    requires s > 0.0
    ensures GridDistance(v, s) == 0.0 <==> OnGridLine(v, s)
  {
    ModReflect(v, s);
    ModRange(v, s);
    var q := v / s;
    assert v == s * q;
    assert Mod(v, s) == s * (q - q.Floor as real);
    if Mod(v, s) == 0.0 {
      assert q - q.Floor as real == 0.0;
    }
  }

  /** The pattern repeats with period s. */
  lemma GridDistancePeriodic(v: real, s: real)
    requires s > 0.0
    ensures GridDistance(v + s, s) == GridDistance(v, s)
  {
    DivLinear(v, s, s);
    assert (v + s) / s == v / s + 1.0;
    assert ((v + s) / s).Floor == (v / s).Floor + 1;
    assert Mod(v + s, s) == Mod(v, s);
    ModReflect(v, s);
    ModReflect(v + s, s);
  }

  /** Per-frame scale 3 + 2cos(t): both scales stay positive and minor = major / 10. */
  function Scales(t: real, cos: real -> real): (scales: (real, real))
    requires CosRange(cos)
    ensures 128.0 <= scales.0 <= 640.0
    ensures scales.1 == scales.0 / 10.0 && scales.1 > 0.0
  {
    var scale := 3.0 + 2.0 * cos(t);
    (128.0 * scale, 12.8 * scale)
  }
}
