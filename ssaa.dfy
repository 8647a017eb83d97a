/**
 * The supersampling patterns of code/triangle-ssaa.py: sub-cell centres N4
 * and N8, the regular grids G4 and G8 built from them, and the named table
 * of sample offsets (positions inside one pixel, in pixel units).
 */
module SamplePatterns {

  import opened Ndarray

  /** A sample position inside a pixel, measured from its corner in pixels. */
  datatype Offset = Offset(dx: real, dy: real)

  /** One entry of the `offsets` dictionary, in insertion order. */
  datatype Pattern = Pattern(name: string, samples: seq<Offset>)

  /** The slice `[1:-1:2]`: every other interior entry, starting at index 1. */
  function OddInterior(s: seq<real>): (r: seq<real>)
    requires |s| >= 1
    ensures |r| == (|s| - 1) / 2
  {
    seq((|s| - 1) / 2, k requires 0 <= k < (|s| - 1) / 2 => s[2 * k + 1])
  }

  /**
   * `linspace(0, 1, 2m+1)[1:-1:2]` (N4 for m = 4, N8 for m = 8): the centres
   * (2k+1)/2m of the m equal sub-cells of [0, 1].
   */
  function SubCentres(m: nat): (N: seq<real>)
    requires m >= 1
    ensures |N| == m
    ensures forall k :: 0 <= k < m ==> N[k] == (2 * k + 1) as real / (2 * m) as real
  {
    var lin := Linspace01(2 * m + 1);
    assert forall k :: 0 <= k < m ==> lin[2 * k + 1] == LinspacePoint(2 * k + 1, 2 * m + 1);
    OddInterior(lin)
  }

  /** Every sub-cell centre lies strictly inside (0, 1), and distinct sub-cells have distinct centres. */
  lemma SubCentresInside(m: nat, i: nat, j: nat)
    requires m >= 1 && i < m && j < m
    ensures 0.0 < SubCentres(m)[i] < 1.0
    ensures SubCentres(m)[i] == SubCentres(m)[j] ==> i == j
  {
    var d := (2 * m) as real;
    assert SubCentres(m)[i] * d == (2 * i + 1) as real;
    assert SubCentres(m)[j] * d == (2 * j + 1) as real;
  }

  lemma SubCentreBounds(m: nat, i: nat)
    requires m >= 1 && i < m
    ensures 0.0 < SubCentres(m)[i] < 1.0
  {
    var d := (2 * m) as real;
    assert SubCentres(m)[i] * d == (2 * i + 1) as real;
  }

  /**
   * `dstack(meshgrid(N, N)).reshape(m*m, 2)`: row i of the meshgrid holds the
   * points (N[j], N[i]), and the rows are flattened in order.
   */
  function Grid(m: nat): (G: seq<Offset>)
    requires m >= 1
    ensures |G| == m * m
  {
    RavelLength(Mesh(m), m);
    Ravel(Mesh(m))
  }

  function Mesh(m: nat): (rows: seq<seq<Offset>>)
    requires m >= 1
    ensures |rows| == m && forall i :: 0 <= i < m ==> |rows[i]| == m
  {
    var N := SubCentres(m);
    seq(m, i requires 0 <= i < m => seq(m, j requires 0 <= j < m => Offset(N[j], N[i])))
  }

  /** Entry g of the grid is the centre of sub-cell column g mod m, row g div m. */
  lemma GridEntry(m: nat, g: nat)
    requires m >= 1 && g < m * m
    ensures g / m < m
    ensures Grid(m)[g] == Offset(SubCentres(m)[g % m], SubCentres(m)[g / m])
  {
    DivBound(g, m, m);
    RavelAt(Mesh(m), m, g);
  }

  /** Fancy indexing `G[[i0, i1, ...]]`. */
  function Select(G: seq<Offset>, idx: seq<nat>): (P: seq<Offset>)
    requires forall k :: 0 <= k < |idx| ==> idx[k] < |G|
    ensures |P| == |idx|
  {
    seq(|idx|, k requires 0 <= k < |idx| => G[idx[k]])
  }

  const RgssCells: seq<nat> := [2, 4, 11, 13]
  const Checker4Cells: seq<nat> := [0, 2, 5, 7, 8, 10, 13, 15]
  const RooksCells: seq<nat> := [4, 10, 16, 30, 33, 47, 53, 59]
  const Checker8Cells: seq<nat> :=
    [ 0, 2, 4, 6, 9, 11, 13, 15, 16, 18, 20, 22, 25, 27, 29, 31,
      32, 34, 36, 38, 41, 43, 45, 47, 48, 50, 52, 54, 57, 59, 61, 63]

  /** The `offsets` table, in the dictionary's insertion order. */
  function Offsets(): (t: seq<Pattern>)
    ensures |t| == 11
  {
    [ Pattern("1 sample", [Offset(0.5, 0.5)]),
      Pattern("1x2 sample", [Offset(0.5, 0.25), Offset(0.5, 0.75)]),
      Pattern("2x1 sample", [Offset(0.25, 0.5), Offset(0.75, 0.5)]),
      Pattern("quincux", [Offset(0.05, 0.05), Offset(0.95, 0.05), Offset(0.05, 0.95),
                          Offset(0.95, 0.95), Offset(0.5, 0.5)]),
      Pattern("2x2 grid", [Offset(0.25, 0.25), Offset(0.75, 0.25), Offset(0.25, 0.75),
                           Offset(0.75, 0.75)]),
      Pattern("2x2 RGSS", RgssPattern()),
      Pattern("4x4 checker", Checker4Pattern()),
      Pattern("8 rooks", RooksPattern()),
      Pattern("4x4 grid", Grid(4)),
      Pattern("8x8 checker", Checker8Pattern()),
      Pattern("8x8 grid", Grid(8)) ]
  }

  function RgssPattern(): (P: seq<Offset>)
    ensures |P| == 4
  {
    Select(Grid(4), RgssCells)
  }

  function Checker4Pattern(): (P: seq<Offset>)
    ensures |P| == 8
  {
    Select(Grid(4), Checker4Cells)
  }

  function RooksPattern(): (P: seq<Offset>)
    ensures |P| == 8
  {
    Select(Grid(8), RooksCells)
  }

  function Checker8Pattern(): (P: seq<Offset>)
    ensures |P| == 32
  {
    Select(Grid(8), Checker8Cells)
  }

  /** Cell g of an m×m grid lies on the "white" squares of a checkerboard. */
  predicate EvenCell(g: nat, m: nat)
    requires m >= 1
  {
    (g % m + g / m) % 2 == 0
  }

  /** No two cells of the list share a column or a row of the m×m grid. */
  predicate NonAttacking(cells: seq<nat>, m: nat)
    requires m >= 1
  {
    forall i, j :: 0 <= i < j < |cells| ==> cells[i] % m != cells[j] % m && cells[i] / m != cells[j] / m
  }

  /** The "8 rooks" and "2x2 RGSS" cells are non-attacking rook placements on their grids. */
  lemma RookCellsNonAttacking()
    ensures |RooksCells| == 8 && NonAttacking(RooksCells, 8)
    ensures |RgssCells| == 4 && NonAttacking(RgssCells, 4)
  {
    var rooksColumns := [4, 2, 0, 6, 1, 7, 5, 3];
    assert forall k :: 0 <= k < 8 ==> RooksCells[k] == 8 * k + rooksColumns[k];
    forall k | 0 <= k < 8
      ensures RooksCells[k] / 8 == k && RooksCells[k] % 8 == rooksColumns[k]
    {
      DivModOf(RooksCells[k], 8, k, rooksColumns[k]);
    }
    var rgssColumns := [2, 0, 3, 1];
    assert forall k :: 0 <= k < 4 ==> RgssCells[k] == 4 * k + rgssColumns[k];
    forall k | 0 <= k < 4
      ensures RgssCells[k] / 4 == k && RgssCells[k] % 4 == rgssColumns[k]
    {
      DivModOf(RgssCells[k], 4, k, rgssColumns[k]);
    }
  }

  /**
   * Non-attacking cells give samples with pairwise distinct horizontal and
   * pairwise distinct vertical positions.
   */
  lemma {:induction false} DistinctRowsAndColumns(m: nat, cells: seq<nat>)
    requires m >= 1 && NonAttacking(cells, m)
    requires forall k :: 0 <= k < |cells| ==> cells[k] < m * m
    ensures forall i, j :: 0 <= i < j < |cells| ==>
      Select(Grid(m), cells)[i].dx != Select(Grid(m), cells)[j].dx &&
      Select(Grid(m), cells)[i].dy != Select(Grid(m), cells)[j].dy
  {
    var P := Select(Grid(m), cells);
    forall i, j | 0 <= i < j < |cells|
      ensures P[i].dx != P[j].dx && P[i].dy != P[j].dy
    {
      DistinctCells(m, cells[i], cells[j]);
    }
  }

  /** Two grid cells in different columns and rows give samples differing in both coordinates. */
  lemma DistinctCells(m: nat, a: nat, b: nat)
    requires m >= 1 && a < m * m && b < m * m
    requires a % m != b % m && a / m != b / m
    ensures Grid(m)[a].dx != Grid(m)[b].dx && Grid(m)[a].dy != Grid(m)[b].dy
  {
    var ca, ra := GridCoordinates(m, a);
    var cb, rb := GridCoordinates(m, b);
    SubCentresInside(m, ca, cb);
    SubCentresInside(m, ra, rb);
  }

  /** GridEntry with the column and the row named. */
  lemma GridCoordinates(m: nat, g: nat) returns (c: nat, r: nat)
    requires m >= 1 && g < m * m
    ensures c == g % m && r == g / m && c < m && r < m
    ensures Grid(m)[g] == Offset(SubCentres(m)[c], SubCentres(m)[r])
  {
    GridEntry(m, g);
    c, r := g % m, g / m;
  }

  /** The "8 rooks" samples have eight distinct columns and eight distinct rows. */
  lemma RooksSamples()
    ensures Offsets()[7].name == "8 rooks" && |Offsets()[7].samples| == 8
    ensures forall i, j :: 0 <= i < j < 8 ==>
      Offsets()[7].samples[i].dx != Offsets()[7].samples[j].dx &&
      Offsets()[7].samples[i].dy != Offsets()[7].samples[j].dy
  {
    RookCellsNonAttacking();
    DistinctRowsAndColumns(8, RooksCells);
  }

  /** The "2x2 RGSS" samples have four distinct columns and four distinct rows. */
  lemma RgssSamples()
    ensures Offsets()[5].name == "2x2 RGSS" && |Offsets()[5].samples| == 4
    ensures forall i, j :: 0 <= i < j < 4 ==>
      Offsets()[5].samples[i].dx != Offsets()[5].samples[j].dx &&
      Offsets()[5].samples[i].dy != Offsets()[5].samples[j].dy
  {
    RookCellsNonAttacking();
    DistinctRowsAndColumns(4, RgssCells);
  }

  /** The 4×4 checker lists, in increasing order, exactly the 8 even cells of the 4×4 grid. */
  lemma Checker4Exact(g: nat)
    requires g < 16
    ensures |Checker4Cells| == 8
    ensures forall k :: 0 < k < |Checker4Cells| ==> Checker4Cells[k - 1] < Checker4Cells[k]
    ensures forall k :: 0 <= k < |Checker4Cells| ==> Checker4Cells[k] < 16
    ensures g in Checker4Cells <==> EvenCell(g, 4)
  {
    if EvenCell(g, 4) {
      assert Checker4Cells[2 * (g / 4) + (g % 4) / 2] == g;
    }
  }

  /** The 8×8 checker lists, in increasing order, exactly the 32 even cells of the 8×8 grid. */
  lemma Checker8Exact(g: nat)
    requires g < 64
    ensures |Checker8Cells| == 32
    ensures forall k :: 0 < k < |Checker8Cells| ==> Checker8Cells[k - 1] < Checker8Cells[k]
    ensures forall k :: 0 <= k < |Checker8Cells| ==> Checker8Cells[k] < 64
    ensures g in Checker8Cells <==> EvenCell(g, 8)
  {
    Checker8Listed();
    if EvenCell(g, 8) {
      Checker8Covers(g);
    }
  }

  lemma Checker8Covers(g: nat)
    requires g < 64 && EvenCell(g, 8)
    ensures g in Checker8Cells
  {
    var r, c := g / 8, g % 8;
    assert g == 8 * r + c && r < 8;
    var j := c / 2;
    assert c == 2 * j + r % 2;
    Checker8At(r, j);
  }

  /** Row r of the 8×8 checker holds the columns of parity r mod 2, four list entries per row. */
  lemma Checker8At(r: nat, j: nat)
    requires r < 8 && j < 4
    ensures 4 * r + j < |Checker8Cells| && Checker8Cells[4 * r + j] == 8 * r + r % 2 + 2 * j
  {
    if r == 0 {} else if r == 1 {} else if r == 2 {} else if r == 3 {}
    else if r == 4 {} else if r == 5 {} else if r == 6 {} else {}
  }

  /** Column r % 2 + 2j of row r is a light square of the 8x8 grid. */
  lemma Checker8Light(r: nat, j: nat)
    requires r < 8 && j < 4
    ensures 8 * r + r % 2 + 2 * j < 64 && EvenCell(8 * r + r % 2 + 2 * j, 8)
  {
    DivModOf(8 * r + r % 2 + 2 * j, 8, r, r % 2 + 2 * j);
  }

  lemma Checker8Listed()
    ensures |Checker8Cells| == 32
    ensures forall k :: 0 < k < |Checker8Cells| ==> Checker8Cells[k - 1] < Checker8Cells[k]
    ensures forall k :: 0 <= k < |Checker8Cells| ==> Checker8Cells[k] < 64 && EvenCell(Checker8Cells[k], 8)
  {
    forall k | 0 <= k < |Checker8Cells|
      ensures Checker8Cells[k] < 64 && EvenCell(Checker8Cells[k], 8)
      ensures k > 0 ==> Checker8Cells[k - 1] < Checker8Cells[k]
    {
      Checker8Entry(k);
    }
  }

  lemma Checker8Entry(k: nat)
    requires k < 32
    ensures |Checker8Cells| == 32 && Checker8Cells[k] < 64 && EvenCell(Checker8Cells[k], 8)
    ensures k > 0 ==> Checker8Cells[k - 1] < Checker8Cells[k]
  {
    var r, j := k / 4, k % 4;
    assert k == 4 * r + j;
    Checker8Light(r, j);
    Checker8At(r, j);
    if k > 0 {
      var r', j' := (k - 1) / 4, (k - 1) % 4;
      assert k - 1 == 4 * r' + j';
      Checker8At(r', j');
    }
  }

  predicate InUnitSquare(o: Offset)
  {
    0.0 <= o.dx <= 1.0 && 0.0 <= o.dy <= 1.0
  }

  lemma GridInside(m: nat)
    requires m >= 1
    ensures forall g :: 0 <= g < |Grid(m)| ==> InUnitSquare(Grid(m)[g])
  {
    forall g | 0 <= g < |Grid(m)|
      ensures InUnitSquare(Grid(m)[g])
    {
      GridPointInside(m, g);
    }
  }

  lemma GridPointInside(m: nat, g: nat)
    requires m >= 1 && g < m * m
    ensures InUnitSquare(Grid(m)[g])
  {
    var c, r := GridCoordinates(m, g);
    SubCentreBounds(m, c);
    SubCentreBounds(m, r);
  }

  /** Every sample of every pattern lies in the unit pixel square [0,1]². */
  lemma OffsetsInsidePixel(p: nat, k: nat)
    requires p < |Offsets()| && k < |Offsets()[p].samples|
    ensures InUnitSquare(Offsets()[p].samples[k])
  {
    if p < 5 {
      LiteralOffsetsInside(p, k);
    } else if p == 5 || p == 6 || p == 8 {
      Grid4OffsetsInside(p, k);
    } else {
      Grid8OffsetsInside(p, k);
    }
  }

  lemma LiteralOffsetsInside(p: nat, k: nat)
    requires p < 5 && k < |Offsets()[p].samples|
    ensures InUnitSquare(Offsets()[p].samples[k])
  {
  }

  lemma Grid4OffsetsInside(p: nat, k: nat)
    requires (p == 5 || p == 6 || p == 8) && k < |Offsets()[p].samples|
    ensures InUnitSquare(Offsets()[p].samples[k])
  {
    if p == 5 {
      SelectPointInside(Grid(4), RgssCells, 4, k);
    } else if p == 6 {
      SelectPointInside(Grid(4), Checker4Cells, 4, k);
    } else {
      GridPointInside(4, k);
    }
  }

  lemma Grid8OffsetsInside(p: nat, k: nat)
    requires (p == 7 || p == 9 || p == 10) && k < |Offsets()[p].samples|
    ensures InUnitSquare(Offsets()[p].samples[k])
  {
    if p == 7 {
      assert Offsets()[p].samples == RooksPattern();
      RooksInside(k);
    } else if p == 9 {
      assert Offsets()[p].samples == Checker8Pattern();
      Checker8Inside(k);
    } else {
      GridPointInside(8, k);
    }
  }

  lemma RooksInside(k: nat)
    requires k < 8
    ensures InUnitSquare(RooksPattern()[k])
  {
    SelectPointInside(Grid(8), RooksCells, 8, k);
  }

  lemma Checker8Inside(k: nat)
    requires k < 32
    ensures InUnitSquare(Checker8Pattern()[k])
  {
    SelectPointInside(Grid(8), Checker8Cells, 8, k);
  }

  lemma SelectPointInside(G: seq<Offset>, idx: seq<nat>, m: nat, k: nat)
    requires m >= 1 && G == Grid(m) && k < |idx|
    requires forall j :: 0 <= j < |idx| ==> idx[j] < |G|
    ensures InUnitSquare(Select(G, idx)[k])
  {
    GridPointInside(m, idx[k]);
  }
}

/**
 * The render loop of code/triangle-ssaa.py: one pass per sample of the
 * chosen pattern, each shifting the scene by the sample's offset and adding
 * the pass into an accumulation buffer with constant alpha 1/k.
 */
module TriangleSsaa {

  import RealFacts
  import opened SamplePatterns

  /** The off-screen resolution in pixels. */
  const Width: nat := 32
  const Height: nat := 16

  /**
   * The offset uniform `(2d - 1) / size`: in normalised device coordinates a
   * pixel spans 2/size, so the scene moves by d - ½ pixel, at most half a
   * pixel either way.
   */
  function NdcShift(d: real, size: nat): (s: real)
    requires size > 0
    ensures s * (size as real) / 2.0 == d - 0.5
    ensures 0.0 <= d <= 1.0 ==> -1.0 / (size as real) <= s <= 1.0 / (size as real)
  {
    var n := size as real;
    var inv := 1.0 / n;
    var s := (2.0 * d - 1.0) / n;
    assert s == (2.0 * d - 1.0) * inv;
    assert s + inv == (2.0 * d) * inv && inv - s == (2.0 - 2.0 * d) * inv;
    if 0.0 <= d <= 1.0 then
      RealFacts.MulNonneg(2.0 * d, inv);
      RealFacts.MulNonneg(2.0 - 2.0 * d, inv);
      s
    else
      s
  }

  /** The scene's `offset` uniform for one sample. */
  function SceneShift(o: Offset): (shift: Offset)
    ensures shift.dx * (Width as real) / 2.0 == o.dx - 0.5
    ensures shift.dy * (Height as real) / 2.0 == o.dy - 0.5
  {
    Offset(NdcShift(o.dx, Width), NdcShift(o.dy, Height))
  }

  function Sum(values: seq<real>): (s: real)
  {
    if values == [] then 0.0 else values[0] + Sum(values[1..])
  }

  lemma {:induction false} SumSnoc(values: seq<real>, x: real)
    ensures Sum(values + [x]) == Sum(values) + x
  {
    if values != [] {
      assert (values + [x])[1..] == values[1..] + [x];
      SumSnoc(values[1..], x);
    }
  }

  /** The mean of the per-sample values, the resolved pixel. */
  function Average(values: seq<real>): (a: real)
  {
    if values == [] then 0.0 else Sum(values) / (|values| as real)
  }

  /**
   * Blending pass values into the cleared accumulation buffer with
   * `glBlendFunc(GL_CONSTANT_ALPHA, GL_ONE)` and alpha 1/k: the buffer ends
   * holding the average of the k pass values.
   */
  method Accumulate(values: seq<real>) returns (acc: real)
    ensures acc == Average(values)
  {
    acc := 0.0;
    var i := 0;
    while i < |values|
      invariant 0 <= i <= |values|
      invariant i == 0 ==> acc == 0.0
      invariant i > 0 ==> acc == Sum(values[..i]) / (|values| as real)
    {
      assert values[..i + 1] == values[..i] + [values[i]];
      SumSnoc(values[..i], values[i]);
      acc := acc + values[i] * (1.0 / (|values| as real));
      i := i + 1;
    }
    assert values[..i] == values;
  }

  lemma {:induction false} SumConstant(k: nat, c: real)
    ensures Sum(seq(k, _ => c)) == (k as real) * c
  {
    if k > 0 {
      assert seq(k, _ => c)[1..] == seq(k - 1, _ => c);
      SumConstant(k - 1, c);
    }
  }

  /** The k weights 1/k sum to one: a pixel every pass renders alike resolves to that value. */
  lemma AverageOfConstant(k: nat, c: real)
    requires k > 0
    ensures Average(seq(k, _ => c)) == c
  {
    SumConstant(k, c);
  }

  lemma {:induction false} SumBounds(values: seq<real>)
    requires forall i :: 0 <= i < |values| ==> 0.0 <= values[i] <= 1.0
    ensures 0.0 <= Sum(values) <= |values| as real
  {
    if values != [] {
      SumBounds(values[1..]);
    }
  }

  /** Passes whose values lie in [0, 1] resolve to a value in [0, 1]. */
  lemma AverageBounds(values: seq<real>)
    requires forall i :: 0 <= i < |values| ==> 0.0 <= values[i] <= 1.0
    ensures 0.0 <= Average(values) <= 1.0
  {
    SumBounds(values);
  }

  /** The image written for a pattern: `"triangle-ssaa-filled-%s.png" % name`. */
  function FilledFilename(name: string): (f: string)
    ensures |f| == |name| + 25
    ensures f[21..21 + |name|] == name
  {
    "triangle-ssaa-filled-" + name + ".png"
  }
}

/**
 * code/ssaa-sdf.py: a 4×9 figure comparing every pattern with the SDF
 * rendering. Entry i of the table occupies three panels on row i mod 4
 * starting at column 3·(i div 4): the sample positions, then the filled and
 * the outlined rendering read back from disk.
 */
module SsaaSdf {

  import opened Wrappers
  import opened SamplePatterns
  import TriangleSsaa

  /** The table is the supersampling table plus a single-sample "SDF" entry. */
  function Table(): (t: seq<Pattern>)
    ensures |t| == 12
    ensures t[..11] == Offsets()
    ensures t[11] == Pattern("SDF", [Offset(0.5, 0.5)])
  {
    Offsets() + [Pattern("SDF", [Offset(0.5, 0.5)])]
  }

  /** The table's twelve keys are pairwise distinct, so no dictionary entry shadows another. */
  lemma TableKeysDistinct()
    ensures forall i, j :: 0 <= i < j < |Table()| ==> Table()[i].name != Table()[j].name
  {
  }

  /** The scatter marker size `25 + 25·(1 - n/64)`: from 25 up to, but excluding, 50. */
  function MarkerSize(n: nat): (s: real)
    ensures 1 <= n <= 64 ==> 25.0 <= s < 50.0
  {
    25.0 + 25.0 * (1.0 - (n as real) / 64.0)
  }

  /** More samples never give a larger marker. */
  lemma MarkerSizeDecreasing(n: nat, n': nat)
    requires n <= n'
    ensures MarkerSize(n') <= MarkerSize(n)
  {
  }

  /** The three panels drawn for one table entry. */
  datatype Panels = Panels(row: nat, col: nat, marker: Option<real>, filled: string, outlined: string)

  function PanelsFor(i: nat, p: Pattern): (q: Panels)
    ensures q.row == i % 4 && q.col == 3 * (i / 4)
  {
    if p.name != "SDF" then
      Panels(i % 4, 3 * (i / 4), Some(MarkerSize(|p.samples|)),
             TriangleSsaa.FilledFilename(p.name), "triangle-ssaa-outlined-" + p.name + ".png")
    else
      Panels(i % 4, 3 * (i / 4), None, "triangle-sdf-filled.png", "triangle-sdf-outlined.png")
  }

  function Figure(): (f: seq<Panels>)
    ensures |f| == 12
  {
    seq(12, i requires 0 <= i < 12 => PanelsFor(i, Table()[i]))
  }

  /**
   * Every entry's three panels fit the 4×9 axes grid, and no two entries
   * share a panel.
   */
  lemma FigureLayout()
    ensures forall i :: 0 <= i < 12 ==> Figure()[i].row < 4 && Figure()[i].col + 2 < 9
    ensures forall i, j :: 0 <= i < j < 12 ==>
      Figure()[i].row != Figure()[j].row || Figure()[i].col != Figure()[j].col
  {
  }

  /**
   * Each supersampling entry reads back exactly the file the supersampling
   * renderer writes for that pattern, with a marker size in [25, 50); the SDF
   * entry has no markers and reads the fixed SDF files.
   */
  lemma FigureFiles()
    ensures forall i :: 0 <= i < 11 ==>
      Figure()[i].filled == TriangleSsaa.FilledFilename(Offsets()[i].name) &&
      Figure()[i].marker.Some? && 25.0 <= Figure()[i].marker.value < 50.0
    ensures Figure()[11] == Panels(3, 6, None, "triangle-sdf-filled.png", "triangle-sdf-outlined.png")
  {
    TableKeysDistinct();
  }
}
