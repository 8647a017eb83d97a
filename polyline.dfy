/**
 * The "bake" buffer builders of chapter 9 (code/chapter-09/linestrip.py,
 * bezier.py, linestrip-varying-thickness.py, linestrip-dotted.py): a
 * polyline of n points becomes a buffer V of n+2 rows; row k+1 holds point k
 * twice (side +1 and -1) with its cumulative arc length, rows 0 and n+1 are
 * padding, and the shader reads V shifted by 0, 1 and 2 rows as prev, curr
 * and next.
 */
module Polyline {
  import opened Wrappers

  datatype Pt = Pt(x: real, y: real)

  /** One vertex of the buffer: position, side marker, cumulative length. */
  datatype Vertex = Vertex(x: real, y: real, side: real, dist: real)

  /** The two copies of one point, on either side of the line. */
  datatype Row<V> = Row(up: V, down: V)

  datatype BakeError = TooFewPoints

  /** Squared-distance threshold for closing a path (`epsilon = 1e-10`). */
  const Epsilon: real := 0.0000000001

  function SqDist(a: Pt, b: Pt): real
  {
    (a.x - b.x) * (a.x - b.x) + (a.y - b.y) * (a.y - b.y)
  }

  /** The segment-length function is a length: never negative. */
  ghost predicate NonNegative<P(!new)>(segLen: (P, P) -> real)
  {
    forall a, b :: segLen(a, b) >= 0.0
  }

  /**
   * Closing a path: with `closed`, the first point is appended when the ends
   * are more than epsilon apart (squared); otherwise the points are kept.
   */
  function ClosePath<P>(pts: seq<P>, closed: bool, sqDist: (P, P) -> real): (q: seq<P>)
    ensures |q| == |pts| || |q| == |pts| + 1
    ensures q[..|pts|] == pts
    ensures |q| == |pts| + 1 <==> closed && |pts| > 0 && sqDist(pts[0], pts[|pts| - 1]) > Epsilon
    // after closing, a closed path ends where it starts (exactly or within epsilon)
    ensures closed && |pts| > 0 ==> q[0] == q[|q| - 1] || sqDist(q[0], q[|q| - 1]) <= Epsilon
  {
    if closed && |pts| > 0 && sqDist(pts[0], pts[|pts| - 1]) > Epsilon then pts + [pts[0]] else pts
  }

  /** Total length of the polyline pts: the sum of its segment lengths. */
  function ArcLength<P>(pts: seq<P>, segLen: (P, P) -> real): (len: real)
    ensures |pts| <= 1 ==> len == 0.0
  {
    if |pts| <= 1 then 0.0 else segLen(pts[0], pts[1]) + ArcLength(pts[1..], segLen)
  }

  /** Running sums of the segment lengths of pts, starting from `start`. */
  function CumulativeFrom<P>(pts: seq<P>, segLen: (P, P) -> real, start: real): (c: seq<real>)
    ensures |c| == |pts|
    ensures |pts| > 0 ==> c[0] == start
  {
    if |pts| == 0 then []
    else [start] + CumulativeFrom(pts[1..], segLen, if |pts| >= 2 then start + segLen(pts[0], pts[1]) else start)
  }

  /**
   * `np.cumsum` of the segment lengths, with 0 in front: entry k is the arc
   * length from the first point to point k.
   */
  function Cumulative<P>(pts: seq<P>, segLen: (P, P) -> real): (c: seq<real>)
    ensures |c| == |pts|
    ensures |pts| > 0 ==> c[0] == 0.0
  {
    CumulativeFrom(pts, segLen, 0.0)
  }

  lemma {:induction false} CumulativeFromStep<P>(pts: seq<P>, segLen: (P, P) -> real, start: real, k: nat)
    requires 0 < k < |pts|
    ensures CumulativeFrom(pts, segLen, start)[k] ==
            CumulativeFrom(pts, segLen, start)[k - 1] + segLen(pts[k - 1], pts[k])
  {
    var next := start + segLen(pts[0], pts[1]);
    if k > 1 {
      CumulativeFromStep(pts[1..], segLen, next, k - 1);
      assert pts[1..][k - 2] == pts[k - 1] && pts[1..][k - 1] == pts[k];
    }
  }

  /** Each entry adds the length of the segment that ends at that point. */
  lemma CumulativeStep<P>(pts: seq<P>, segLen: (P, P) -> real, k: nat)
    requires 0 < k < |pts|
    ensures Cumulative(pts, segLen)[k] == Cumulative(pts, segLen)[k - 1] + segLen(pts[k - 1], pts[k])
  {
    CumulativeFromStep(pts, segLen, 0.0, k);
  }

  lemma {:induction false} CumulativeFromLast<P>(pts: seq<P>, segLen: (P, P) -> real, start: real)
    requires |pts| > 0
    ensures CumulativeFrom(pts, segLen, start)[|pts| - 1] == start + ArcLength(pts, segLen)
  {
    if |pts| >= 2 {
      CumulativeFromLast(pts[1..], segLen, start + segLen(pts[0], pts[1]));
    }
  }

  /** The returned length `L[-1]` is the arc length of the whole path. */
  lemma CumulativeLast<P>(pts: seq<P>, segLen: (P, P) -> real)
    requires |pts| > 0
    ensures Cumulative(pts, segLen)[|pts| - 1] == ArcLength(pts, segLen)
  {
    CumulativeFromLast(pts, segLen, 0.0);
  }

  /** With nonnegative segment lengths the cumulative length starts at 0 and never decreases. */
  lemma {:induction false} CumulativeMonotone<P(!new)>(pts: seq<P>, segLen: (P, P) -> real, i: nat, j: nat)
    requires NonNegative(segLen)
    requires i <= j < |pts|
    ensures 0.0 <= Cumulative(pts, segLen)[i] <= Cumulative(pts, segLen)[j]
    decreases j
  {
    if j > 0 {
      CumulativeStep(pts, segLen, j);
      if i < j {
        CumulativeMonotone(pts, segLen, i, j - 1);
      } else {
        CumulativeMonotone(pts, segLen, 0, j - 1);
      }
    }
  }

  /** Row k+1 of the buffer: point k doubled with sides +1 and -1 and its arc length. */
  function PointRow(p: Pt, dist: real): Row<Vertex>
  {
    Row(Vertex(p.x, p.y, 1.0, dist), Vertex(p.x, p.y, -1.0, dist))
  }

  /** The buffer the bake builds for the (already closed) points q. */
  function Layout(q: seq<Pt>, closed: bool, segLen: (Pt, Pt) -> real): (V: seq<Row<Vertex>>)
    requires |q| >= 2
    ensures |V| == |q| + 2
    ensures forall k :: 0 <= k < |q| ==> V[k + 1] == PointRow(q[k], Cumulative(q, segLen)[k])
    ensures closed ==> V[0] == V[|q| - 1] && V[|q| + 1] == V[2]
    ensures !closed ==> V[0] == V[1] && V[|q| + 1] == V[|q|]
  {
    var c := Cumulative(q, segLen);
    var n := |q|;
    var curr := CurrRows(q, c);
    if closed then [curr[n - 2]] + curr + [curr[1]]
    else [curr[0]] + curr + [curr[n - 1]]
  }

  /** `V[1:-1]`: point k doubled with its arc length c[k]. */
  function CurrRows(q: seq<Pt>, c: seq<real>): (r: seq<Row<Vertex>>)
    requires |c| == |q|
    ensures |r| == |q|
    ensures forall k :: 0 <= k < |q| ==> r[k] == PointRow(q[k], c[k])
  {
    if q == [] then [] else [PointRow(q[0], c[0])] + CurrRows(q[1..], c[1..])
  }

  /** The three views of V the shader reads. */
  function Prev<V>(buf: seq<V>): seq<V> requires |buf| >= 2 { buf[..|buf| - 2] }
  function Curr<V>(buf: seq<V>): seq<V> requires |buf| >= 2 { buf[1..|buf| - 1] }
  function Next<V>(buf: seq<V>): seq<V> requires |buf| >= 2 { buf[2..] }

  /** prev and next are curr shifted by one row either way. */
  lemma ShiftedViews<V>(buf: seq<V>)
    requires |buf| >= 2
    ensures |Prev(buf)| == |Curr(buf)| == |Next(buf)| == |buf| - 2
    ensures forall i :: 0 < i < |buf| - 2 ==> Prev(buf)[i] == Curr(buf)[i - 1]
    ensures forall i :: 0 <= i < |buf| - 3 ==> Next(buf)[i] == Curr(buf)[i + 1]
  {}

  function Position(r: Row<Vertex>): Pt { Pt(r.up.x, r.up.y) }

  /**
   * Open path: the padding copies the end rows, so prev equals curr exactly
   * at the first point and next equals curr exactly at the last point (where
   * the shader draws the caps), provided no two consecutive points coincide.
   */
  lemma OpenPadding(q: seq<Pt>, segLen: (Pt, Pt) -> real)
    requires |q| >= 2
    requires forall k :: 0 < k < |q| ==> q[k - 1] != q[k]
    ensures var V := Layout(q, false, segLen);
      V[0] == V[1] && V[|q| + 1] == V[|q|] &&
      (forall i :: 0 <= i < |q| ==> (Position(Prev(V)[i]) == Position(Curr(V)[i]) <==> i == 0)) &&
      (forall i :: 0 <= i < |q| ==> (Position(Next(V)[i]) == Position(Curr(V)[i]) <==> i == |q| - 1))
  {
    var V := Layout(q, false, segLen);
    forall i | 0 <= i < |q|
      ensures Position(Prev(V)[i]) == Position(Curr(V)[i]) <==> i == 0
    {
      if i > 0 { assert Position(Prev(V)[i]) == q[i - 1] && Position(Curr(V)[i]) == q[i]; }
    }
    forall i | 0 <= i < |q|
      ensures Position(Next(V)[i]) == Position(Curr(V)[i]) <==> i == |q| - 1
    {
      if i < |q| - 1 { assert Position(Next(V)[i]) == q[i + 1] && Position(Curr(V)[i]) == q[i]; }
    }
  }

  /**
   * Closed path: the padding wraps around (`V[0], V[-1] = V[-3], V[2]`), so
   * the first point's prev is the second-to-last point and the last point's
   * next is the second point: when the path ends where it starts, the seam
   * is joined like any interior vertex.
   */
  lemma ClosedPadding(q: seq<Pt>, segLen: (Pt, Pt) -> real)
    requires |q| >= 3
    requires q[0] == q[|q| - 1]
    ensures var V := Layout(q, true, segLen);
      Position(Prev(V)[0]) == q[|q| - 2] && Position(Next(V)[|q| - 1]) == q[1] &&
      Position(Prev(V)[0]) == Position(Prev(V)[|q| - 1]) &&
      Position(Next(V)[|q| - 1]) == Position(Next(V)[0])
  {}

  /**
   * `bake(P, closed)`: close the path if asked, fill the curr rows with the
   * doubled points and running arc length, then write the padding rows.
   * Fewer than two points leave no last cumulative length (`L[-1]` fails).
   */
  method Bake(P: seq<Pt>, closed: bool, segLen: (Pt, Pt) -> real) returns (V: array<Row<Vertex>>, L: Result<real, BakeError>)
    ensures var q := ClosePath(P, closed, SqDist);
      (L.Ok? <==> |q| >= 2) &&
      (L.Ok? ==> V[..] == Layout(q, closed, segLen) && L.value == Cumulative(q, segLen)[|q| - 1])
  {
    var q := P;
    var n := |P|;
    if closed && n > 0 && SqDist(P[0], P[n - 1]) > Epsilon {
      q := P + [P[0]];
      n := n + 1;
    }
    assert q == ClosePath(P, closed, SqDist);
    V := new Row<Vertex>[n + 2](_ => Row(Vertex(0.0, 0.0, 0.0, 0.0), Vertex(0.0, 0.0, 0.0, 0.0)));
    if n < 2 {
      return V, Err(TooFewPoints);
    }
    var total := FillCurr(V, q, segLen);
    if closed {
      V[0], V[n + 1] := V[n - 1], V[2];
    } else {
      V[0], V[n + 1] := V[1], V[n];
    }
    L := Ok(total);
    LayoutFromRows(V[..], q, closed, segLen);
  }

  /** A buffer with the curr rows and padding rows of `Layout` is `Layout`. */
  lemma LayoutFromRows(V: seq<Row<Vertex>>, q: seq<Pt>, closed: bool, segLen: (Pt, Pt) -> real)
    requires |q| >= 2 && |V| == |q| + 2
    requires forall i :: 0 <= i < |q| ==> V[i + 1] == PointRow(q[i], Cumulative(q, segLen)[i])
    requires closed ==> V[0] == V[|q| - 1] && V[|q| + 1] == V[2]
    requires !closed ==> V[0] == V[1] && V[|q| + 1] == V[|q|]
    ensures V == Layout(q, closed, segLen)
  {
    var W := Layout(q, closed, segLen);
    forall i | 0 <= i < |V| ensures V[i] == W[i] {
      if 0 < i < |q| + 1 { assert V[i] == W[(i - 1) + 1]; }
    }
  }

  /** The curr rows `V[1:-1]`: each point doubled, with the running arc length. */
  method FillCurr(V: array<Row<Vertex>>, q: seq<Pt>, segLen: (Pt, Pt) -> real) returns (total: real)
    requires V.Length == |q| + 2 && |q| >= 2
    modifies V
    ensures V[0] == old(V[0]) && V[|q| + 1] == old(V[|q| + 1])
    ensures forall i :: 0 <= i < |q| ==> V[i + 1] == PointRow(q[i], Cumulative(q, segLen)[i])
    ensures total == Cumulative(q, segLen)[|q| - 1]
  {
    ghost var c := Cumulative(q, segLen);
    var n := |q|;
    var acc := 0.0;
    var k := 0;
    while k < n
      invariant 0 <= k <= n
      invariant k == 0 ==> acc == 0.0
      invariant k > 0 ==> acc == c[k - 1]
      invariant V[0] == old(V[0]) && V[n + 1] == old(V[n + 1])
      invariant forall i :: 0 <= i < k ==> V[i + 1] == PointRow(q[i], c[i])
    {
      if k > 0 {
        acc := acc + segLen(q[k - 1], q[k]);
        CumulativeStep(q, segLen, k);
      }
      V[k + 1] := PointRow(q[k], acc);
      k := k + 1;
    }
    total := acc;
  }
}

/** code/chapter-09/linestrip.py: `star()`, the closed test shape. */
module LineStrip {
  import opened RealFacts

  datatype Pt = Pt(x: real, y: real)

  /**
   * 2n points at angles start + 2πk/(2n) (`np.linspace(start, start + 2π, 2n,
   * endpoint=False)`), alternating the inner radius (even k) and the outer
   * radius (odd k).
   */
  function StarFrom(inner: real, outer: real, n: nat, start: real, cos: real -> real, sin: real -> real, pi: real): (P: seq<Pt>)
    ensures |P| == 2 * n
    ensures TrigFacts(cos, sin) ==> forall k :: 0 <= k < 2 * n ==>
      P[k].x * P[k].x + P[k].y * P[k].y == (if k % 2 == 0 then inner * inner else outer * outer)
  {
    var R := seq(2 * n, k requires 0 <= k < 2 * n => if k % 2 == 0 then inner else outer);
    var T := seq(2 * n, k requires 0 <= k < 2 * n => start + (k as real) * (2.0 * pi / ((2 * n) as real)));
    var P := seq(2 * n, k requires 0 <= k < 2 * n => Pt(R[k] * cos(T[k]), R[k] * sin(T[k])));
    forall k | 0 <= k < 2 * n && TrigFacts(cos, sin)
      ensures P[k].x * P[k].x + P[k].y * P[k].y == R[k] * R[k]
    {
      PolarRadius(R[k], cos(T[k]), sin(T[k]));
    }
    P
  }

  /** `star(inner, outer, n)` of linestrip.py: the first point on the positive x axis. */
  function Star(inner: real, outer: real, n: nat, cos: real -> real, sin: real -> real, pi: real): (P: seq<Pt>)
    ensures |P| == 2 * n
    ensures TrigFacts(cos, sin) ==> forall k :: 0 <= k < 2 * n ==>
      P[k].x * P[k].x + P[k].y * P[k].y == (if k % 2 == 0 then inner * inner else outer * outer)
    ensures n > 0 ==> P[0] == Pt(inner * cos(0.0), inner * sin(0.0))
  {
    StarFrom(inner, outer, n, 0.0, cos, sin, pi)
  }

  /** (r cos t)² + (r sin t)² = r² when cos² + sin² = 1. */
  lemma PolarRadius(r: real, c: real, s: real)
    requires c * c + s * s == 1.0
    ensures (r * c) * (r * c) + (r * s) * (r * s) == r * r
  {
    calc {
      (r * c) * (r * c) + (r * s) * (r * s);
      == (r * r) * (c * c + s * s);
      == r * r;
    }
  }
}

/** code/chapter-09/linestrip-varying-thickness.py: the fragment's width modulation. */
module VaryingThickness {
  import opened RealFacts

  /** `s = 0.75 + 0.25*cos(0.1*v_uv.x)`. */
  function WidthFactor(u: real, cos: real -> real): (s: real)
    ensures CosRange(cos) ==> 0.5 <= s <= 1.0
  {
    0.75 + 0.25 * cos(0.1 * u)
  }

  /** `w = s*thickness/2 - antialias` never exceeds the unmodulated half-width. */
  lemma HalfWidthBounded(u: real, thickness: real, antialias: real, cos: real -> real)
    requires CosRange(cos) && thickness >= 0.0
    ensures WidthFactor(u, cos) * thickness / 2.0 - antialias <= thickness / 2.0 - antialias
    ensures WidthFactor(u, cos) * thickness / 2.0 - antialias >= thickness / 4.0 - antialias
  {
    var s := WidthFactor(u, cos);
    MulNonneg(1.0 - s, thickness);
    MulNonneg(s - 0.5, thickness);
  }
}

/** code/chapter-09/linestrip-dotted.py: open-only bake and the round-dot pattern. */
module DottedLine {
  import opened Wrappers
  import opened RealFacts
  import Polyline

  /** `bake(P)`: the open-path bake (no closing, end rows copied). */
  method Bake(P: seq<Polyline.Pt>, segLen: (Polyline.Pt, Polyline.Pt) -> real)
    returns (V: array<Polyline.Row<Polyline.Vertex>>, L: Result<real, Polyline.BakeError>)
    ensures (L.Ok? <==> |P| >= 2)
    ensures L.Ok? ==> V[..] == Polyline.Layout(P, false, segLen) && L.value == Polyline.Cumulative(P, segLen)[|P| - 1]
  {
    V, L := Polyline.Bake(P, false, segLen);
  }

  /** Dot spacing, in thicknesses. */
  const Spacing: real := 1.5

  /**
   * The centre of the dot nearest to arc length x:
   * `x + spacing/2*t - mod(x + phase + spacing/2*t, spacing*t)`.
   * Dot centres sit on the lattice of multiples of spacing*t shifted by
   * -phase, and x is within half a spacing of its dot's centre.
   */
  function DotCenter(x: real, phase: real, t: real): (center: real)
    requires t > 0.0
    ensures OnLattice(center + phase, Spacing * t)
    ensures -Spacing / 2.0 * t < center - x <= Spacing / 2.0 * t
  {
    var h := Spacing / 2.0 * t;
    var m := Mod(x + phase + h, Spacing * t);
    ModRange(x + phase + h, Spacing * t);
    ModLattice(x + phase + h, Spacing * t);
    x + h - m
  }

  /** v is a whole multiple of s. */
  ghost predicate OnLattice(v: real, s: real)
    requires s != 0.0
  {
    v / s == (v / s).Floor as real
  }

  lemma ModLattice(v: real, s: real)
    requires s > 0.0
    ensures OnLattice(v - Mod(v, s), s)
  {
    var f := (v / s).Floor as real;
    assert v - Mod(v, s) == s * f;
    assert (s * f) / s == f;
  }

  /** The fragment is kept only if its dot lies at least t/2 inside both ends of the line. */
  predicate Kept(x: real, phase: real, t: real, lineLength: real)
    requires t > 0.0
  {
    var center := DotCenter(x, phase, t);
    !(lineLength - center < t / 2.0) && !(center < t / 2.0)
  }

  /** A drawn dot never pokes past either end of the line. */
  lemma KeptDotsInside(x: real, phase: real, t: real, lineLength: real)
    requires t > 0.0
    ensures Kept(x, phase, t, lineLength) <==>
      t / 2.0 <= DotCenter(x, phase, t) <= lineLength - t / 2.0
  {}
}

/** code/chapter-09/linestrip-3d-better.py: 3-D bake with a separate UV buffer, and the miter clamp. */
module Line3D {
  import opened Wrappers
  import opened RealFacts
  import Polyline

  datatype P3 = P3(x: real, y: real, z: real)

  /** One UV entry: cumulative length and side. */
  datatype UV = UV(dist: real, side: real)

  function SqDist3(a: P3, b: P3): real
  {
    (a.x - b.x) * (a.x - b.x) + (a.y - b.y) * (a.y - b.y) + (a.z - b.z) * (a.z - b.z)
  }

  /** The position buffer: n+2 rows of doubled 3-D points, padded as in the 2-D case. */
  function Layout3(q: seq<P3>, closed: bool): (V: seq<Polyline.Row<P3>>)
    requires |q| >= 2
    ensures |V| == |q| + 2
    ensures forall k :: 0 <= k < |q| ==> V[k + 1] == Polyline.Row(q[k], q[k])
    ensures closed ==> V[0] == V[|q| - 1] && V[|q| + 1] == V[2]
    ensures !closed ==> V[0] == V[1] && V[|q| + 1] == V[|q|]
  {
    var n := |q|;
    var curr := seq(n, k requires 0 <= k < n => Polyline.Row(q[k], q[k]));
    if closed then [curr[n - 2]] + curr + [curr[1]]
    else [curr[0]] + curr + [curr[n - 1]]
  }

  /** The UV buffer: n rows, (cumulative length, ±1) per doubled vertex. */
  function UVLayout(q: seq<P3>, segLen: (P3, P3) -> real): (U: seq<Polyline.Row<UV>>)
    ensures |U| == |q|
    ensures forall k :: 0 <= k < |q| ==>
      U[k].up == UV(Polyline.Cumulative(q, segLen)[k], 1.0) && U[k].down == UV(Polyline.Cumulative(q, segLen)[k], -1.0)
  {
    var c := Polyline.Cumulative(q, segLen);
    seq(|q|, k requires 0 <= k < |q| => Polyline.Row(UV(c[k], 1.0), UV(c[k], -1.0)))
  }

  /** `bake(P, closed)` for 3-D points, returning V, UV and the total length. */
  method Bake(P: seq<P3>, closed: bool, segLen: (P3, P3) -> real)
    returns (V: array<Polyline.Row<P3>>, U: array<Polyline.Row<UV>>, L: Result<real, Polyline.BakeError>)
    ensures var q := Polyline.ClosePath(P, closed, SqDist3);
      (L.Ok? <==> |q| >= 2) &&
      (L.Ok? ==> V[..] == Layout3(q, closed) && U[..] == UVLayout(q, segLen) &&
                 L.value == Polyline.Cumulative(q, segLen)[|q| - 1])
  {
    var q := P;
    var n := |P|;
    if closed && n > 0 && SqDist3(P[0], P[n - 1]) > Polyline.Epsilon {
      q := P + [P[0]];
      n := n + 1;
    }
    assert q == Polyline.ClosePath(P, closed, SqDist3);
    V := new Polyline.Row<P3>[n + 2](_ => Polyline.Row(P3(0.0, 0.0, 0.0), P3(0.0, 0.0, 0.0)));
    U := new Polyline.Row<UV>[n](_ => Polyline.Row(UV(0.0, 0.0), UV(0.0, 0.0)));
    if n < 2 {
      return V, U, Err(Polyline.TooFewPoints);
    }
    var total := FillCurr(V, U, q, segLen);
    if closed {
      V[0], V[n + 1] := V[n - 1], V[2];
    } else {
      V[0], V[n + 1] := V[1], V[n];
    }
    L := Ok(total);
    Layout3FromRows(V[..], q, closed);
    assert U[..] == UVLayout(q, segLen);
  }

  /** A buffer with the curr rows and padding rows of `Layout3` is `Layout3`. */
  lemma Layout3FromRows(V: seq<Polyline.Row<P3>>, q: seq<P3>, closed: bool)
    requires |q| >= 2 && |V| == |q| + 2
    requires forall i :: 0 <= i < |q| ==> V[i + 1] == Polyline.Row(q[i], q[i])
    requires closed ==> V[0] == V[|q| - 1] && V[|q| + 1] == V[2]
    requires !closed ==> V[0] == V[1] && V[|q| + 1] == V[|q|]
    ensures V == Layout3(q, closed)
  {
    var W := Layout3(q, closed);
    forall i | 0 <= i < |V| ensures V[i] == W[i] {
      if 0 < i < |q| + 1 { assert V[i] == W[(i - 1) + 1]; }
    }
  }

  /** The curr rows of V and all rows of UV, with the running arc length. */
  method FillCurr(V: array<Polyline.Row<P3>>, U: array<Polyline.Row<UV>>, q: seq<P3>, segLen: (P3, P3) -> real)
    returns (total: real)
    requires V.Length == |q| + 2 && U.Length == |q| && |q| >= 2
    modifies V, U
    ensures V[0] == old(V[0]) && V[|q| + 1] == old(V[|q| + 1])
    ensures forall i :: 0 <= i < |q| ==> V[i + 1] == Polyline.Row(q[i], q[i])
    ensures forall i :: 0 <= i < |q| ==> U[i] == UVLayout(q, segLen)[i]
    ensures total == Polyline.Cumulative(q, segLen)[|q| - 1]
  {
    ghost var c := Polyline.Cumulative(q, segLen);
    var n := |q|;
    var acc := 0.0;
    var k := 0;
    while k < n
      invariant 0 <= k <= n
      invariant k == 0 ==> acc == 0.0
      invariant k > 0 ==> acc == c[k - 1]
      invariant V[0] == old(V[0]) && V[n + 1] == old(V[n + 1])
      invariant forall i :: 0 <= i < k ==> V[i + 1] == Polyline.Row(q[i], q[i])
      invariant forall i :: 0 <= i < k ==> U[i] == Polyline.Row(UV(c[i], 1.0), UV(c[i], -1.0))
    {
      if k > 0 {
        acc := acc + segLen(q[k - 1], q[k]);
        Polyline.CumulativeStep(q, segLen, k);
      }
      V[k + 1] := Polyline.Row(q[k], q[k]);
      U[k] := Polyline.Row(UV(acc, 1.0), UV(acc, -1.0));
      k := k + 1;
    }
    total := acc;
  }

  /**
   * The miter offset `w / max(dot(miter, n1), 1.0)`: never longer than the
   * half-width w, and exactly w / dot when the dot product is at least 1.
   */
  function MiterOffset(w: real, d: real): (dy: real)
    ensures w >= 0.0 ==> 0.0 <= dy <= w
    ensures d >= 1.0 ==> dy * d == w
  {
    var m := Max(d, 1.0);
    assert w >= 0.0 ==> w / m <= w by {
      if w >= 0.0 { MulNonneg(w / m, m - 1.0); }
    }
    w / m
  }
}
