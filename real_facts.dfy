/**
 * The GLSL built-ins the shaders use, over mathematical reals.
 *
 * `exp`, `cos` and `sin` are never defined here: every member that needs one
 * takes it as a function parameter, and states in its `requires` only the
 * range facts its property needs.
 */
module RealFacts {

  function Abs(x: real): real { if x < 0.0 then -x else x }
  function Min(a: real, b: real): real { if a <= b then a else b }
  function Max(a: real, b: real): real { if a >= b then a else b }

  /** GLSL `clamp(x, lo, hi)` = min(max(x, lo), hi). */
  function Clamp(x: real, lo: real, hi: real): real { Min(Max(x, lo), hi) }

  /** GLSL `mix(x, y, a)` = x*(1-a) + y*a. */
  function Mix(x: real, y: real, a: real): real { x * (1.0 - a) + y * a }

  /** GLSL `floor`. */
  function Floor(x: real): int { x.Floor }

  /** GLSL `mod(x, y)` = x - y*floor(x/y) (the sign follows y, unlike C's %). */
  function Mod(x: real, y: real): real
    requires y != 0.0
  {
    x - y * (Floor(x / y) as real)
  }

  /** GLSL `fract(x)` = x - floor(x). */
  function Fract(x: real): real { x - (Floor(x) as real) }

  /** What the properties need of `exp`: positive, strictly increasing, exp(0) = 1. */
  ghost predicate ExpFacts(exp: real -> real)
  {
    && exp(0.0) == 1.0
    && (forall x :: exp(x) > 0.0)
    && (forall x, y :: x < y ==> exp(x) < exp(y))
  }

  /** What the properties need of `cos` and `sin`: cos² + sin² = 1 everywhere. */
  ghost predicate TrigFacts(cos: real -> real, sin: real -> real)
  {
    forall t :: cos(t) * cos(t) + sin(t) * sin(t) == 1.0
  }

  /** What the properties need of `cos` alone: it stays in [-1, 1]. */
  ghost predicate CosRange(cos: real -> real)
  {
    forall t :: -1.0 <= cos(t) <= 1.0
  }

  /** exp of a negative number is below 1. */
  lemma ExpBelowOne(exp: real -> real, x: real)
    requires ExpFacts(exp) && x < 0.0
    ensures 0.0 < exp(x) < 1.0
  {
    assert exp(x) < exp(0.0);
  }

  lemma MulNonneg(a: real, b: real)
    requires a >= 0.0 && b >= 0.0
    ensures a * b >= 0.0
  {}

  lemma MulPos(a: real, b: real)
    requires a > 0.0 && b > 0.0
    ensures a * b > 0.0
  {}

  lemma DivLinear(a: real, b: real, s: real)
    requires s != 0.0
    ensures (a + b) / s == a / s + b / s
    ensures (a - b) / s == a / s - b / s
    ensures s / s == 1.0
  {}

  lemma ModRange(x: real, y: real)
    requires y > 0.0
    ensures 0.0 <= Mod(x, y) < y
  {
    var q := x / y;
    var f := q.Floor as real;
    var r := q - f;
    assert 0.0 <= r < 1.0;
    assert x == q * y;
    var m := y * r;
    assert Mod(x, y) == m;
    MulNonneg(y, r);
    MulPos(y, 1.0 - r);
    assert y * (1.0 - r) == y - m;
  }
}
