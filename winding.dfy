/**
 * code/chapter-10/winding.py: three nested squares drawn with mixed
 * winding, filled through the stencil buffer by the even-odd rule.
 */
module Winding {
  import opened RealFacts

  datatype Pt = Pt(x: real, y: real)

  /** The 12 points: three nested squares, corners counter-clockwise from bottom-left. */
  const P: seq<Pt> :=
    [Pt(-0.75, -0.75), Pt(0.75, -0.75), Pt(0.75, 0.75), Pt(-0.75, 0.75),
     Pt(-0.50, -0.50), Pt(0.50, -0.50), Pt(0.50, 0.50), Pt(-0.50, 0.50),
     Pt(-0.25, -0.25), Pt(0.25, -0.25), Pt(0.25, 0.25), Pt(-0.25, 0.25)]

  /** Two triangles per square; the middle square is listed clockwise. */
  const I: seq<nat> := [0, 1, 2,  2, 3, 0,
                        6, 5, 4,  4, 7, 6,
                        8, 9, 10, 10, 11, 8]

  /** Square k has corners (±h, ±h) in counter-clockwise order from (-h, -h). */
  predicate IsSquare(k: nat, h: real)
    requires k < 3
  {
    P[4 * k] == Pt(-h, -h) && P[4 * k + 1] == Pt(h, -h) && P[4 * k + 2] == Pt(h, h) && P[4 * k + 3] == Pt(-h, h)
  }

  lemma NestedSquares()
    ensures IsSquare(0, 0.75) && IsSquare(1, 0.5) && IsSquare(2, 0.25)
  {}

  lemma IndicesBounded()
    ensures |I| == 18
    ensures forall k :: 0 <= k < |I| ==> I[k] < |P|
  {}

  /** Twice the signed area of triangle (a, b, c): positive iff counter-clockwise. */
  function Area2(a: Pt, b: Pt, c: Pt): real
  {
    (b.x - a.x) * (c.y - a.y) - (b.y - a.y) * (c.x - a.x)
  }

  /** Corner j of triangle t. */
  function Corner(t: nat, j: nat): Pt
    requires t < 6 && j < 3
  {
    P[I[3 * t + j]]
  }

  function TriangleArea2(t: nat): real
    requires t < 6
  {
    Area2(Corner(t, 0), Corner(t, 1), Corner(t, 2))
  }

  /** As the table's comments say: triangles 0, 1, 4, 5 are counter-clockwise, 2 and 3 clockwise. */
  lemma Orientations()
    ensures TriangleArea2(0) > 0.0 && TriangleArea2(1) > 0.0
    ensures TriangleArea2(2) < 0.0 && TriangleArea2(3) < 0.0
    ensures TriangleArea2(4) > 0.0 && TriangleArea2(5) > 0.0
  {}

  /** q lies strictly inside triangle t (same side of all three edges). */
  predicate Covers(t: nat, q: Pt)
    requires t < 6
  {
    var a, b, c := Corner(t, 0), Corner(t, 1), Corner(t, 2);
    (Area2(a, b, q) > 0.0 && Area2(b, c, q) > 0.0 && Area2(c, a, q) > 0.0) ||
    (Area2(a, b, q) < 0.0 && Area2(b, c, q) < 0.0 && Area2(c, a, q) < 0.0)
  }

  /** An 8-bit stencil value after GL_INCR (front face) or GL_DECR (back face); both saturate. */
  function StencilOp(s: nat, front: bool): (r: nat)
    requires s <= 255
    ensures r <= 255
    ensures front && s < 255 ==> r == s + 1
    ensures !front && s > 0 ==> r + 1 == s
  {
    if front then (if s < 255 then s + 1 else 255)
    else (if s > 0 then s - 1 else 0)
  }

  /** The stencil value at q after the first k triangles, starting from a cleared buffer. */
  function Stencil(q: Pt, k: nat): (s: nat)
    requires k <= 6
    ensures s <= 255
  {
    if k == 0 then 0
    else
      var s := Stencil(q, k - 1);
      if Covers(k - 1, q) then StencilOp(s, TriangleArea2(k - 1) > 0.0) else s
  }

  /** Half-size of the square that triangle t belongs to. */
  function HalfSize(t: nat): real
    requires t < 6
  {
    if t < 2 then 0.75 else if t < 4 then 0.5 else 0.25
  }

  /**
   * Each square splits along y = x: its even triangle covers the part below
   * the diagonal and its odd triangle the part above.
   */
  lemma CoversRegion(t: nat, q: Pt)
    requires t < 6
    ensures Covers(t, q) <==>
      if t % 2 == 0 then -HalfSize(t) < q.y < q.x < HalfSize(t)
      else -HalfSize(t) < q.x < q.y < HalfSize(t)
  {
    if t == 0 {
      assert Corner(0, 0) == Pt(-0.75, -0.75) && Corner(0, 1) == Pt(0.75, -0.75) && Corner(0, 2) == Pt(0.75, 0.75);
    } else if t == 1 {
      assert Corner(1, 0) == Pt(0.75, 0.75) && Corner(1, 1) == Pt(-0.75, 0.75) && Corner(1, 2) == Pt(-0.75, -0.75);
    } else if t == 2 {
      assert Corner(2, 0) == Pt(0.5, 0.5) && Corner(2, 1) == Pt(0.5, -0.5) && Corner(2, 2) == Pt(-0.5, -0.5);
    } else if t == 3 {
      assert Corner(3, 0) == Pt(-0.5, -0.5) && Corner(3, 1) == Pt(-0.5, 0.5) && Corner(3, 2) == Pt(0.5, 0.5);
    } else if t == 4 {
      assert Corner(4, 0) == Pt(-0.25, -0.25) && Corner(4, 1) == Pt(0.25, -0.25) && Corner(4, 2) == Pt(0.25, 0.25);
    } else {
      assert Corner(5, 0) == Pt(0.25, 0.25) && Corner(5, 1) == Pt(-0.25, 0.25) && Corner(5, 2) == Pt(-0.25, -0.25);
    }
  }

  /** Chebyshev radius of q: the half-size of the axis-aligned square through q. */
  function Radius(q: Pt): real { Max(Abs(q.x), Abs(q.y)) }

  /** q is on no square's boundary and off the shared diagonal y = x. */
  predicate OffEdges(q: Pt)
  {
    q.x != q.y && Radius(q) != 0.25 && Radius(q) != 0.5 && Radius(q) != 0.75
  }

  /** Exact stencil counts, from the outside in: 0, 1, 0, 1. */
  lemma StencilCounts(q: Pt)
    requires OffEdges(q)
    ensures Stencil(q, 6) == (if Radius(q) < 0.25 then 1 else if Radius(q) < 0.5 then 0 else if Radius(q) < 0.75 then 1 else 0)
  {
    Orientations();
    CoversRegion(0, q); CoversRegion(1, q); CoversRegion(2, q);
    CoversRegion(3, q); CoversRegion(4, q); CoversRegion(5, q);
    var r := Radius(q);
    // from the outside in, the square of half-size h is covered once iff r < h
    var outer, middle, inner := r < 0.75, r < 0.5, r < 0.25;
    assert Stencil(q, 1) == if Covers(0, q) then 1 else 0;
    assert Stencil(q, 2) == if outer then 1 else 0 by {
      assert Covers(0, q) || Covers(1, q) <==> outer;
      assert !(Covers(0, q) && Covers(1, q));
    }
    assert Stencil(q, 3) == if Covers(2, q) then 0 else Stencil(q, 2);
    assert Stencil(q, 4) == if outer && !middle then 1 else 0 by {
      assert Covers(2, q) || Covers(3, q) <==> middle;
      assert !(Covers(2, q) && Covers(3, q));
    }
    assert Stencil(q, 5) == if Covers(4, q) then 1 else Stencil(q, 4);
    assert Stencil(q, 6) == if inner || (outer && !middle) then 1 else 0 by {
      assert Covers(4, q) || Covers(5, q) <==> inner;
      assert !(Covers(4, q) && Covers(5, q));
    }
  }

  /**
   * The odd test (GL_EQUAL, ref 1, mask 1) passes exactly in the outer ring
   * and the inner square.
   */
  lemma OddRuleFills(q: Pt)
    requires OffEdges(q)
    ensures Stencil(q, 6) % 2 == 1 <==> (0.5 < Radius(q) < 0.75 || Radius(q) < 0.25)
  {
    StencilCounts(q);
    var s := Stencil(q, 6);
    assert s == 0 || s == 1;
  }
}
