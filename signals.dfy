/**
 * code/chapter-09/signals.py: rows·cols signals of `size` samples drawn as
 * one line strip. Every frame scrolls each signal left by one sample, in
 * place in the (rows, cols, size) view of the `ydata` buffer, and appends one
 * fresh sample; the random source of those samples is a parameter here.
 */
module Signals {

  import opened Ndarray
  import RealFacts

  /** `rows, cols, size = 15, 20, 100`. */
  const Rows: nat := 15
  const Cols: nat := 20
  const Size: nat := 100

  /** One scroll of one signal: the oldest sample leaves, the fresh one enters at the end. */
  function ScrollOnce(signal: seq<real>, sample: real): (s: seq<real>)
    requires |signal| >= 1
    ensures |s| == |signal|
    ensures forall k :: 0 <= k < |signal| - 1 ==> s[k] == signal[k + 1]
    ensures s[|signal| - 1] == sample
  {
    signal[1..] + [sample]
  }

  /** Scrolling once per sample of a stream, in order. */
  function ScrollAll(signal: seq<real>, stream: seq<real>): (s: seq<real>)
    requires |signal| >= 1
    ensures |s| == |signal|
    decreases |stream|
  {
    if stream == [] then signal else ScrollAll(ScrollOnce(signal, stream[0]), stream[1..])
  }

  /**
   * After any number of frames the buffer holds the most recent `size`
   * values of the initial samples followed by the fresh ones: a sliding
   * window over the stream.
   */
  lemma {:induction false} ScrollWindow(signal: seq<real>, stream: seq<real>)
    requires |signal| >= 1
    ensures ScrollAll(signal, stream) == (signal + stream)[|stream|..]
    decreases |stream|
  {
    if stream != [] {
      ScrollWindow(ScrollOnce(signal, stream[0]), stream[1..]);
      assert ScrollOnce(signal, stream[0]) + stream[1..] == (signal + stream)[1..];
    }
  }

  /** After `size` frames or more no initial sample is left. */
  lemma ScrollForgets(signal: seq<real>, stream: seq<real>)
    requires |signal| >= 1 && |stream| >= |signal|
    ensures ScrollAll(signal, stream) == stream[|stream| - |signal|..]
  {
    ScrollWindow(signal, stream);
    assert (signal + stream)[|stream|..] == stream[|stream| - |signal|..];
  }

  /** Signal (r, c) of the (rows, cols, size) view. */
  function Signal(y: array3<real>, r: nat, c: nat): (s: seq<real>)
    requires r < y.Length0 && c < y.Length1
    reads y
    ensures |s| == y.Length2
  {
    seq(y.Length2, k requires 0 <= k < y.Length2 reads y => y[r, c, k])
  }

  /**
   * The frame update `ydata[:,:,:-1] = ydata[:,:,1:]; ydata[:,:,-1] = fresh`:
   * every signal is scrolled once, with its own fresh sample.
   */
  method Scroll(y: array3<real>, samples: seq<seq<real>>)
    requires y.Length2 >= 1
    requires |samples| == y.Length0 && forall r :: 0 <= r < |samples| ==> |samples[r]| == y.Length1
    modifies y
    ensures forall r, c :: 0 <= r < y.Length0 && 0 <= c < y.Length1 ==>
      Signal(y, r, c) == ScrollOnce(old(Signal(y, r, c)), samples[r][c])
  {
    var r := 0;
    while r < y.Length0
      invariant 0 <= r <= y.Length0
      invariant forall r', c' :: 0 <= r' < r && 0 <= c' < y.Length1 ==>
        Signal(y, r', c') == ScrollOnce(old(Signal(y, r', c')), samples[r'][c'])
      invariant forall r', c' :: r <= r' < y.Length0 && 0 <= c' < y.Length1 ==>
        Signal(y, r', c') == old(Signal(y, r', c'))
    {
      var c := 0;
      while c < y.Length1
        invariant 0 <= c <= y.Length1
        invariant forall r', c' :: 0 <= r' < r && 0 <= c' < y.Length1 ==>
          Signal(y, r', c') == ScrollOnce(old(Signal(y, r', c')), samples[r'][c'])
        invariant forall c' :: 0 <= c' < c ==>
          Signal(y, r, c') == ScrollOnce(old(Signal(y, r, c')), samples[r][c'])
        invariant forall r', c' :: r <= r' < y.Length0 && 0 <= c' < y.Length1 && (r' > r || c' >= c) ==>
          Signal(y, r', c') == old(Signal(y, r', c'))
      {
        ScrollSignal(y, r, c, samples[r][c]);
        c := c + 1;
      }
      r := r + 1;
    }
  }

  /** Scrolls signal (r, c) alone, reading each sample before it is overwritten. */
  method ScrollSignal(y: array3<real>, r: nat, c: nat, sample: real)
    requires r < y.Length0 && c < y.Length1 && y.Length2 >= 1
    modifies y
    ensures Signal(y, r, c) == ScrollOnce(old(Signal(y, r, c)), sample)
    ensures forall r', c' :: 0 <= r' < y.Length0 && 0 <= c' < y.Length1 && (r' != r || c' != c) ==>
      Signal(y, r', c') == old(Signal(y, r', c'))
  {
    var k := 0;
    while k < y.Length2 - 1
      invariant 0 <= k <= y.Length2 - 1
      invariant forall k' :: 0 <= k' < k ==> y[r, c, k'] == old(y[r, c, k' + 1])
      invariant forall k' :: k <= k' < y.Length2 ==> y[r, c, k'] == old(y[r, c, k'])
      invariant forall r', c', k' ::
        (0 <= r' < y.Length0 && 0 <= c' < y.Length1 && 0 <= k' < y.Length2 && (r' != r || c' != c)) ==>
        y[r', c', k'] == old(y[r', c', k'])
    {
      y[r, c, k] := y[r, c, k + 1];
      k := k + 1;
    }
    y[r, c, y.Length2 - 1] := sample;
    assert forall r', c' :: 0 <= r' < y.Length0 && 0 <= c' < y.Length1 && (r' != r || c' != c) ==>
      Signal(y, r', c') == old(Signal(y, r', c'));
  }

  /** `xdata[:] = linspace(0, 1, size)` for each of the n signals, flattened. */
  function XData(n: nat, size: nat): (x: seq<real>)
    ensures |x| == size * n
  {
    RavelLength(XRows(n, size), size);
    Ravel(XRows(n, size))
  }

  function XRows(n: nat, size: nat): (rows: seq<seq<real>>)
    ensures |rows| == n && forall s :: 0 <= s < n ==> rows[s] == Linspace01(size)
  {
    seq(n, s requires 0 <= s < n => Linspace01(size))
  }

  /** `index[:] = arange(n)[:, newaxis]`, flattened: every sample of signal s carries s. */
  function IndexData(n: nat, size: nat): (ix: seq<nat>)
    ensures |ix| == size * n
  {
    RavelLength(IndexRows(n, size), size);
    Ravel(IndexRows(n, size))
  }

  function IndexRows(n: nat, size: nat): (rows: seq<seq<nat>>)
    ensures |rows| == n
    ensures forall s :: 0 <= s < n ==> |rows[s]| == size
    ensures forall s, k :: 0 <= s < n && 0 <= k < size ==> rows[s][k] == s
  {
    seq(n, s requires 0 <= s < n => seq(size, _ => s))
  }

  /**
   * Vertex s·size + k of the strip is sample k of signal s: it carries index
   * s and abscissa k/(size - 1), from 0 at the first sample to 1 at the last.
   */
  lemma VertexAttributes(n: nat, size: nat, s: nat, k: nat)
    requires s < n && k < size
    ensures s * size + k < |IndexData(n, size)| && IndexData(n, size)[s * size + k] == s
    ensures s * size + k < |XData(n, size)| && XData(n, size)[s * size + k] == LinspacePoint(k, size)
    ensures 0.0 <= XData(n, size)[s * size + k] <= 1.0
    ensures k == 0 ==> XData(n, size)[s * size + k] == 0.0
    ensures k == size - 1 >= 1 ==> XData(n, size)[s * size + k] == 1.0
  {
    RavelCell(IndexRows(n, size), size, s, k);
    RavelCell(XRows(n, size), size, s, k);
  }

  /** The shader's cell of a signal: `i = mod(index, cols)`, `j = index/cols - fract(index/cols)`. */
  function Cell(index: nat, cols: nat): (ij: (real, real))
    requires cols > 0
  {
    var x := (index as real) / (cols as real);
    (RealFacts.Mod(index as real, cols as real), x - RealFacts.Fract(x))
  }

  /** For an integer index the float cell is column index mod cols, row index div cols. */
  lemma CellOfIndex(index: nat, cols: nat)
    requires cols > 0
    ensures Cell(index, cols) == ((index % cols) as real, (index / cols) as real)
  {
    CellRow(index, cols);
    CellColumn(index, cols);
  }

  lemma CellRow(index: nat, cols: nat)
    requires cols > 0
    ensures Cell(index, cols).1 == (index / cols) as real
  {
    var x := (index as real) / (cols as real);
    QuotientSplit(index, cols);
    assert x.Floor == index / cols;
  }

  lemma CellColumn(index: nat, cols: nat)
    requires cols > 0
    ensures Cell(index, cols).0 == (index % cols) as real
  {
    var q, c := index / cols, cols as real;
    var x := (index as real) / c;
    QuotientSplit(index, cols);
    assert x.Floor == q;
    assert RealFacts.Mod(index as real, c) == (index as real) - c * (q as real);
  }

  /** index / cols over the reals is the integer quotient plus a fraction in [0, 1). */
  lemma QuotientSplit(index: nat, cols: nat)
    requires cols > 0
    ensures (index as real) == ((index / cols) as real) * (cols as real) + ((index % cols) as real)
    ensures 0.0 <= ((index % cols) as real) / (cols as real) < 1.0
    ensures (index as real) / (cols as real) == ((index / cols) as real) + ((index % cols) as real) / (cols as real)
  {
    var q, r := index / cols, index % cols;
    var c := cols as real;
    var t := (r as real) / c;
    assert index == q * cols + r;
    assert (index as real) == (q as real) * c + (r as real);
    assert t * c == r as real;
    RealFacts.DivLinear((q as real) * c, r as real, c);
    assert ((q as real) * c) / c == q as real;
  }

  /** `-1 + (0.025 + cell + 0.95·data)·(2/count)`: the vertex coordinate along one axis. */
  function Place(cell: real, data: real, count: nat): (p: real)
    requires count > 0
  {
    -1.0 + (0.025 + cell + 0.95 * data) * (2.0 / (count as real))
  }

  /**
   * Data in [0, 1] keeps the vertex inside its own cell, 0.025 cell away from
   * each border; for a cell below `count` that is inside [-1, 1].
   */
  lemma PlaceInCell(cell: nat, data: real, count: nat)
    requires count > 0 && 0.0 <= data <= 1.0
    ensures Place(cell as real, data, count) >= -1.0 + ((cell as real) + 0.025) * (2.0 / (count as real))
    ensures Place(cell as real, data, count) <= -1.0 + ((cell as real) + 0.975) * (2.0 / (count as real))
    ensures cell < count ==> -1.0 < Place(cell as real, data, count) < 1.0
  {
    var w := 2.0 / (count as real);
    var c := cell as real;
    var t := 0.025 + c + 0.95 * data;
    assert Place(c, data, count) == -1.0 + t * w;
    assert w > 0.0;
    RealFacts.MulNonneg(t - (c + 0.025), w);
    RealFacts.MulNonneg((c + 0.975) - t, w);
    assert t * w - (c + 0.025) * w == (t - (c + 0.025)) * w;
    assert (c + 0.975) * w - t * w == ((c + 0.975) - t) * w;
    if cell < count {
      InsideViewport(c, count as real, w);
    }
  }

  lemma InsideViewport(c: real, n: real, w: real)
    requires 0.0 <= c && c + 1.0 <= n && w > 0.0 && n * w == 2.0
    ensures 0.0 < (c + 0.025) * w && (c + 0.975) * w < 2.0
  {
    RealFacts.MulPos(c + 0.025, w);
    RealFacts.MulPos(n - (c + 0.975), w);
    assert n * w - (c + 0.975) * w == (n - (c + 0.975)) * w;
  }

  /**
   * Signal s below rows·cols is drawn in column s mod cols and row s div
   * cols, both inside the grid, and all its vertices are inside the
   * viewport.
   */
  lemma SignalPlacement(s: nat, xdata: real, ydata: real, rows: nat, cols: nat)
    requires rows > 0 && cols > 0 && s < rows * cols
    requires 0.0 <= xdata <= 1.0 && 0.0 <= ydata <= 1.0
    ensures Cell(s, cols).0 == (s % cols) as real && s % cols < cols
    ensures Cell(s, cols).1 == (s / cols) as real && s / cols < rows
    ensures -1.0 < Place(Cell(s, cols).0, xdata, cols) < 1.0
    ensures -1.0 < Place(Cell(s, cols).1, ydata, rows) < 1.0
  {
    CellOfIndex(s, cols);
    DivBound(s, cols, rows);
    PlaceInCell(s % cols, xdata, cols);
    PlaceInCell(s / cols, ydata, rows);
  }
}
