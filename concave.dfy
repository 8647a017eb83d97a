/**
 * code/chapter-10/concave-polygon.py: the boundary of a star-shaped
 * polygon handed to a constrained triangulator as a closed loop of
 * segments, and the same loop drawn as an outline.
 */
module ConcavePolygon {
  import opened RealFacts
  import LineStrip

  /** `np.repeat(np.arange(m), 2)`: every number below m twice, in order. */
  function RepeatTwice(m: nat): (r: seq<nat>)
    ensures |r| == 2 * m
    ensures forall i :: 0 <= i < 2 * m ==> r[i] == i / 2
  {
    seq(2 * m, i requires 0 <= i < 2 * m => i / 2)
  }

  /** Elementwise `% n`. */
  function ModAll(s: seq<nat>, n: nat): (r: seq<nat>)
    requires n > 0
    ensures |r| == |s|
    ensures forall i :: 0 <= i < |s| ==> r[i] == s[i] % n && r[i] < n
  {
    seq(|s|, i requires 0 <= i < |s| => s[i] % n)
  }

  /**
   * `(np.repeat(np.arange(n + 1), 2)[1:-1]) % n`: the segment list of the
   * polygon boundary (`segments` in `triangulate`, and the outline `O`).
   * With no vertices the slice is empty and so is the list.
   */
  function Segments(n: nat): (s: seq<nat>)
    ensures |s| == 2 * n
  {
    if n == 0 then [] else ModAll(RepeatTwice(n + 1)[1..2 * n + 1], n)
  }

  /** Segment k joins vertex k to vertex (k + 1) mod n: a closed loop. */
  lemma SegmentsLoop(n: nat)
    requires n > 0
    ensures forall k :: 0 <= k < n ==> Segments(n)[2 * k] == k && Segments(n)[2 * k + 1] == (k + 1) % n
    ensures forall i :: 0 <= i < 2 * n ==> Segments(n)[i] < n
  {
    forall k | 0 <= k < n
      ensures Segments(n)[2 * k] == k && Segments(n)[2 * k + 1] == (k + 1) % n
    {
      SegmentPair(n, k);
    }
    var s := Segments(n);
    forall i | 0 <= i < 2 * n ensures s[i] < n {
      assert s[i] == RepeatTwice(n + 1)[1..2 * n + 1][i] % n;
    }
  }

  lemma SegmentPair(n: nat, k: nat)
    requires k < n
    ensures Segments(n)[2 * k] == k && Segments(n)[2 * k + 1] == (k + 1) % n
  {
    var r := RepeatTwice(n + 1);
    var mid := r[1..2 * n + 1];
    Halves(k);
    assert mid[2 * k] == r[2 * k + 1] == k;
    assert mid[2 * k + 1] == r[2 * k + 2] == k + 1;
    assert Segments(n)[2 * k] == k % n;
    ModSmall(k, n);
  }

  lemma ModSmall(k: nat, n: nat)
    requires k < n
    ensures k % n == k
  {}

  lemma Halves(k: nat)
    ensures (2 * k + 1) / 2 == k && (2 * k + 2) / 2 == k + 1
  {}

  /**
   * Every vertex is an endpoint of exactly two segments: v occurs at
   * position 2v (start of its own segment) and at the end of the segment
   * before it, position 2v - 1 (for v = 0, the last position 2n - 1).
   */
  lemma EachVertexTwice(n: nat, v: nat)
    requires v < n
    ensures forall i :: 0 <= i < 2 * n ==>
      (Segments(n)[i] == v <==> i == 2 * v || i == (if v == 0 then 2 * n - 1 else 2 * v - 1))
  {
    forall i | 0 <= i < 2 * n
      ensures Segments(n)[i] == v <==> i == 2 * v || i == (if v == 0 then 2 * n - 1 else 2 * v - 1)
    {
      VertexAt(n, v, i);
    }
  }

  lemma VertexAt(n: nat, v: nat, i: nat)
    requires v < n && i < 2 * n
    ensures Segments(n)[i] == v <==> i == 2 * v || i == (if v == 0 then 2 * n - 1 else 2 * v - 1)
  {
    var k := i / 2;
    if i == 2 * k {
      SegmentPair(n, k);
    } else {
      assert i == 2 * k + 1;
      SegmentEnd(n, k);
    }
  }

  /** The end of segment k is v exactly for the segment before v. */
  lemma SegmentEnd(n: nat, k: nat)
    requires k < n
    ensures Segments(n)[2 * k + 1] == (if k + 1 < n then k + 1 else 0)
  {
    SegmentPair(n, k);
    if k + 1 < n {
      ModSmall(k + 1, n);
    } else {
      ModSelf(n);
    }
  }

  lemma ModSelf(n: nat)
    requires n > 0
    ensures n % n == 0
  {}

  /** The outline buffer `O` is the same loop over all len(P) points. */
  function Outline(pointCount: nat): (O: seq<nat>)
    ensures |O| == 2 * pointCount
    ensures forall i :: 0 <= i < |O| ==> O[i] < pointCount
  {
    if pointCount == 0 then Segments(0)
    else SegmentsLoop(pointCount); Segments(pointCount)
  }

  /**
   * `star(inner, outer, n)` of concave-polygon.py: as in linestrip.py but
   * starting at angle -π/2, so the first (inner) point is straight below
   * the centre.
   */
  function Star(inner: real, outer: real, n: nat, cos: real -> real, sin: real -> real, pi: real): (P: seq<LineStrip.Pt>)
    ensures |P| == 2 * n
    ensures TrigFacts(cos, sin) ==> forall k :: 0 <= k < 2 * n ==>
      P[k].x * P[k].x + P[k].y * P[k].y == (if k % 2 == 0 then inner * inner else outer * outer)
    ensures n > 0 ==> P[0] == LineStrip.Pt(inner * cos(-0.5 * pi), inner * sin(-0.5 * pi))
  {
    LineStrip.StarFrom(inner, outer, n, -0.5 * pi, cos, sin, pi)
  }
}
