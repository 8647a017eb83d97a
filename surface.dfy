/**
 * `surface(func, umin, umax, ucount, vmin, vmax, vcount)` of
 * code/chapter-11/boy.py and code/chapter-11/boy-tesselation.py: a
 * parametric grid of (ucount+1)·(vcount+1) vertices, evaluated by an opaque
 * `func`, and an index buffer with two triangles per grid cell.
 */
module ParamGrid {

  import opened Ndarray
  import RealFacts

  /** `lo + t·(hi - lo)`: the point at fraction t of [lo, hi]. */
  function Lerp(lo: real, hi: real, t: real): real
  {
    lo + t * (hi - lo)
  }

  /** Row-major parameter of vertex i: `U = umin + repeat(linspace(0, 1, uc), vc) * (umax - umin)`. */
  function UColumn(umin: real, umax: real, uc: nat, vc: nat): (U: seq<real>)
    requires vc > 0
    ensures |U| == uc * vc
  {
    seq(uc * vc, i requires 0 <= i < uc * vc => DivBound(i, vc, uc); Lerp(umin, umax, LinspacePoint(i / vc, uc)))
  }

  /** `V = vmin + tile(linspace(0, 1, vc), uc) * (vmax - vmin)`. */
  function VColumn(vmin: real, vmax: real, uc: nat, vc: nat): (V: seq<real>)
    requires vc > 0
    ensures |V| == uc * vc
  {
    seq(uc * vc, i requires 0 <= i < uc * vc => Lerp(vmin, vmax, LinspacePoint(i % vc, vc)))
  }

  /**
   * Vertex r·vc + c carries the r-th point of the u range and the c-th
   * point of the v range (`U[i div vc]`, `V[i mod vc]`).
   */
  lemma VertexParameters(umin: real, umax: real, uc: nat, vmin: real, vmax: real, vc: nat, r: nat, c: nat)
    requires r < uc && c < vc
    ensures r * vc + c < uc * vc
    ensures UColumn(umin, umax, uc, vc)[r * vc + c] == umin + LinspacePoint(r, uc) * (umax - umin)
    ensures VColumn(vmin, vmax, uc, vc)[r * vc + c] == vmin + LinspacePoint(c, vc) * (vmax - vmin)
  {
    CellInRange(uc, vc, r, c);
    DivModOf(r * vc + c, vc, r, c);
  }

  /**
   * Both ranges include their ends: the first vertex sits at (umin, vmin)
   * and the last at (umax, vmax).
   */
  lemma ParametersIncludeEnds(umin: real, umax: real, uc: nat, vmin: real, vmax: real, vc: nat)
    requires uc >= 2 && vc >= 2
    ensures UColumn(umin, umax, uc, vc)[0] == umin && VColumn(vmin, vmax, uc, vc)[0] == vmin
    ensures UColumn(umin, umax, uc, vc)[uc * vc - 1] == umax && VColumn(vmin, vmax, uc, vc)[uc * vc - 1] == vmax
  {
    VertexParameters(umin, umax, uc, vmin, vmax, vc, 0, 0);
    VertexParameters(umin, umax, uc, vmin, vmax, vc, uc - 1, vc - 1);
    assert (uc - 1) * vc + (vc - 1) == uc * vc - 1;
  }

  /** Every parameter stays between its bounds. */
  lemma ParametersWithinRanges(umin: real, umax: real, uc: nat, vmin: real, vmax: real, vc: nat, i: nat)
    requires vc > 0 && i < uc * vc
    requires umin <= umax && vmin <= vmax
    ensures umin <= UColumn(umin, umax, uc, vc)[i] <= umax
    ensures vmin <= VColumn(vmin, vmax, uc, vc)[i] <= vmax
  {
    var r, c := i / vc, i % vc;
    assert r < uc by { DivBound(i, vc, uc); }
    Between(umin, umax, LinspacePoint(r, uc));
    Between(vmin, vmax, LinspacePoint(c, vc));
  }

  /** A fraction t in [0, 1] of [lo, hi] lies in [lo, hi]. */
  lemma Between(lo: real, hi: real, t: real)
    requires lo <= hi && 0.0 <= t <= 1.0
    ensures lo <= Lerp(lo, hi, t) <= hi
  {
    var d := hi - lo;
    RealFacts.MulNonneg(t, d);
    RealFacts.MulNonneg(1.0 - t, d);
    assert t * d + (1.0 - t) * d == d;
  }

  /** The six indices cell origin a appends: triangles (a, a+1, a+vc+1) and (a+vc, a+vc+1, a). */
  function Cell(a: nat, vc: nat): (c: seq<nat>)
    ensures |c| == 6
  {
    [a, a + 1, a + vc + 1, a + vc, a + vc + 1, a]
  }

  /**
   * The two triangles of a cell cover its four corners and share exactly
   * the diagonal from a to a+vc+1.
   */
  lemma CellSharesDiagonal(a: nat, vc: nat)
    requires vc >= 2
    ensures var c := Cell(a, vc);
      (set k | 0 <= k < 6 :: c[k]) == {a, a + 1, a + vc, a + vc + 1} &&
      {c[0], c[1], c[2]} * {c[3], c[4], c[5]} == {a, a + vc + 1}
  {
    var c := Cell(a, vc);
    assert c[0] == a && c[1] == a + 1 && c[2] == a + vc + 1 && c[3] == a + vc && c[4] == a + vc + 1 && c[5] == a;
  }

  /** Origin of the c-th cell in row-major order over (uc-1) × (vc-1) cells. */
  function CellOrigin(c: nat, vc: nat): nat
    requires vc >= 2
  {
    (c / (vc - 1)) * vc + c % (vc - 1)
  }

  /** The six indices of every cell, in row-major order over (uc-1) × (vc-1) cells. */
  function CellRows(uc: nat, vc: nat): (rows: seq<seq<nat>>)
    requires uc >= 2 && vc >= 2
    ensures |rows| == (uc - 1) * (vc - 1)
    ensures forall c :: 0 <= c < |rows| ==> rows[c] == Cell(CellOrigin(c, vc), vc)
  {
    MulMonoLe(0, uc - 1, vc - 1);
    seq((uc - 1) * (vc - 1), c requires 0 <= c < (uc - 1) * (vc - 1) => Cell(CellOrigin(c, vc), vc))
  }

  /** The index buffer the nested loops produce. */
  function GridIndices(uc: nat, vc: nat): (I: seq<nat>)
    ensures |I| == if uc < 2 || vc < 2 then 0 else 6 * ((uc - 1) * (vc - 1))
  {
    if uc < 2 || vc < 2 then []
    else
      RavelLength(CellRows(uc, vc), 6);
      Ravel(CellRows(uc, vc))
  }

  /** Cell (i, j) is cell number i·(vc-1) + j of the buffer, with origin a = i·vc + j. */
  lemma CellNumber(uc: nat, vc: nat, i: nat, j: nat)
    requires vc >= 2 && i < uc - 1 && j < vc - 1
    ensures i * (vc - 1) + j < |CellRows(uc, vc)|
    ensures CellRows(uc, vc)[i * (vc - 1) + j] == Cell(i * vc + j, vc)
  {
    var c := i * (vc - 1) + j;
    assert c < (uc - 1) * (vc - 1) by { CellInRange(uc - 1, vc - 1, i, j); }
    assert CellOrigin(c, vc) == i * vc + j by { DivModOf(c, vc - 1, i, j); }
  }

  /** Cell (i, j) is written at position 6(i·(vc-1) + j) with origin a = i·vc + j. */
  lemma GridCell(uc: nat, vc: nat, i: nat, j: nat, r: nat)
    requires i < uc - 1 && j < vc - 1 && r < 6
    ensures var t := 6 * (i * (vc - 1) + j) + r;
      t < |GridIndices(uc, vc)| && GridIndices(uc, vc)[t] == Cell(i * vc + j, vc)[r]
  {
    var c := i * (vc - 1) + j;
    CellNumber(uc, vc, i, j);
    RavelCell(CellRows(uc, vc), 6, c, r);
    assert c * 6 + r == 6 * c + r;
  }

  lemma CellInRange(rows: nat, cols: nat, i: nat, j: nat)
    requires i < rows && j < cols
    ensures i * cols + j < rows * cols
  {
    MulMonoLe(i + 1, rows, cols);
  }

  lemma MulMonoLe(a: nat, b: nat, m: nat)
    requires a <= b
    ensures a * m <= b * m
  {}

  /** Every index names a vertex of the (uc·vc)-vertex grid. */
  lemma GridIndicesBounded(uc: nat, vc: nat)
    ensures forall t :: 0 <= t < |GridIndices(uc, vc)| ==> GridIndices(uc, vc)[t] < uc * vc
  {
    if uc >= 2 && vc >= 2 {
      var rows := CellRows(uc, vc);
      forall t | 0 <= t < |GridIndices(uc, vc)|
        ensures GridIndices(uc, vc)[t] < uc * vc
      {
        RavelAt(rows, 6, t);
        CellOriginBounded(uc, vc, t / 6);
      }
    }
  }

  /** The far corner of every cell is still a vertex of the grid. */
  lemma CellOriginBounded(uc: nat, vc: nat, c: nat)
    requires uc >= 2 && vc >= 2 && c < (uc - 1) * (vc - 1)
    ensures CellOrigin(c, vc) + vc + 1 < uc * vc
  {
    var i, j := c / (vc - 1), c % (vc - 1);
    assert i < uc - 1 by { DivBound(c, vc - 1, uc - 1); }
    assert i * vc <= (uc - 2) * vc by { MulMonoLe(i, uc - 2, vc); }
    assert (uc - 2) * vc + vc == uc * vc - vc;
  }

  /**
   * The nested loops of `surface`: for each cell (i, j) in row-major order,
   * append the six indices of its two triangles.
   */
  method BuildIndices(uc: nat, vc: nat) returns (indices: seq<nat>)
    ensures indices == GridIndices(uc, vc)
  {
    indices := [];
    if uc < 2 || vc < 2 {
      return;
    }
    ghost var rows := CellRows(uc, vc);
    ghost var cells := 0;
    var i := 0;
    while i < uc - 1
      invariant 0 <= i <= uc - 1
      invariant cells == i * (vc - 1) && cells <= |rows|
      invariant indices == Ravel(rows[..cells])
    {
      var j := 0;
      while j < vc - 1
        invariant 0 <= j <= vc - 1
        invariant cells == i * (vc - 1) + j && cells <= |rows|
        invariant indices == Ravel(rows[..cells])
      {
        var a := i * vc + j;
        GridStep(uc, vc, i, j);
        indices := indices + [a, a + 1, a + vc + 1, a + vc, a + vc + 1, a];
        cells := cells + 1;
        j := j + 1;
      }
      assert cells == (i + 1) * (vc - 1);
      i := i + 1;
    }
    assert rows[..cells] == rows;
  }

  /** Appending cell (i, j) extends the buffer written so far by that cell's six indices. */
  lemma GridStep(uc: nat, vc: nat, i: nat, j: nat)
    requires vc >= 2 && i < uc - 1 && j < vc - 1
    ensures i * (vc - 1) + j < |CellRows(uc, vc)|
    ensures Ravel(CellRows(uc, vc)[..i * (vc - 1) + j + 1]) ==
            Ravel(CellRows(uc, vc)[..i * (vc - 1) + j]) + Cell(i * vc + j, vc)
  {
    var rows := CellRows(uc, vc);
    var c := i * (vc - 1) + j;
    CellNumber(uc, vc, i, j);
    assert rows[..c + 1] == rows[..c] + [rows[c]];
    RavelSnoc(rows[..c], rows[c]);
  }

}

/** code/chapter-11/boy.py: vertices carry the position `func(u, v)` and the uv pair. */
module Boy {
  import opened ParamGrid

  datatype P3 = P3(x: real, y: real, z: real)
  datatype SurfaceVertex = SurfaceVertex(position: P3, u: real, v: real)

  /**
   * `surface`: both counts are incremented, the vertex loop evaluates
   * `func` at every (U[i], V[i]) and stores that pair as the uv attribute,
   * and the index loops triangulate every cell.
   */
  method Surface(func: (real, real) -> P3, umin: real, umax: real, ucount: nat, vmin: real, vmax: real, vcount: nat)
    returns (vertices: array<SurfaceVertex>, indices: seq<nat>)
    ensures var uc := ucount + 1; var vc := vcount + 1;
      var U := UColumn(umin, umax, uc, vc); var V := VColumn(vmin, vmax, uc, vc);
      vertices.Length == uc * vc &&
      (forall i :: 0 <= i < uc * vc ==> vertices[i] == SurfaceVertex(func(U[i], V[i]), U[i], V[i])) &&
      indices == GridIndices(uc, vc)
  {
    var vc := vcount + 1;
    var uc := ucount + 1;
    var n := uc * vc;
    var U := UColumn(umin, umax, uc, vc);
    var V := VColumn(vmin, vmax, uc, vc);
    vertices := new SurfaceVertex[n](_ => SurfaceVertex(P3(0.0, 0.0, 0.0), 0.0, 0.0));
    var i := 0;
    while i < n
      invariant 0 <= i <= n
      invariant forall k :: 0 <= k < i ==> vertices[k] == SurfaceVertex(func(U[k], V[k]), U[k], V[k])
    {
      vertices[i] := SurfaceVertex(func(U[i], V[i]), U[i], V[i]);
      i := i + 1;
    }
    indices := BuildIndices(uc, vc);
  }
}

/** code/chapter-11/boy-tesselation.py: the same grid, positions only. */
module BoyTesselation {
  import opened ParamGrid
  import Boy

  method Surface(func: (real, real) -> Boy.P3, umin: real, umax: real, ucount: nat, vmin: real, vmax: real, vcount: nat)
    returns (positions: array<Boy.P3>, indices: seq<nat>)
    ensures var uc := ucount + 1; var vc := vcount + 1;
      var U := UColumn(umin, umax, uc, vc); var V := VColumn(vmin, vmax, uc, vc);
      positions.Length == uc * vc &&
      (forall i :: 0 <= i < uc * vc ==> positions[i] == func(U[i], V[i])) &&
      indices == GridIndices(uc, vc)
  {
    var vc := vcount + 1;
    var uc := ucount + 1;
    var n := uc * vc;
    var U := UColumn(umin, umax, uc, vc);
    var V := VColumn(vmin, vmax, uc, vc);
    positions := new Boy.P3[n](_ => Boy.P3(0.0, 0.0, 0.0));
    var i := 0;
    while i < n
      invariant 0 <= i <= n
      invariant forall k :: 0 <= k < i ==> positions[k] == func(U[k], V[k])
    {
      positions[i] := func(U[i], V[i]);
      i := i + 1;
    }
    indices := BuildIndices(uc, vc);
  }
}
