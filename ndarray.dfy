/**
 * The numpy reshapes shared by the vectorised buffers: an (n, w) array stored
 * row-major and flattened (`ravel`, `reshape(-1)`).
 */
module Ndarray {

  /** `np.linspace(0, 1, count, endpoint=True)`. */
  function Linspace01(count: nat): (s: seq<real>)
    ensures |s| == count
    ensures count > 0 ==> s[0] == 0.0
    ensures count > 1 ==> s[count - 1] == 1.0
    ensures forall k :: 0 <= k < count ==> 0.0 <= s[k] <= 1.0
  {
    seq(count, k requires 0 <= k < count => LinspacePoint(k, count))
  }

  function LinspacePoint(k: nat, count: nat): (x: real)
    requires k < count
    ensures 0.0 <= x <= 1.0
    ensures k == 0 ==> x == 0.0
    ensures count > 1 && k == count - 1 ==> x == 1.0
  {
    if count == 1 then 0.0
    else
      var x := (k as real) / ((count - 1) as real);
      assert x * ((count - 1) as real) == k as real;
      x
  }

  /** Row-major flattening of a list of rows (numpy `ravel`). */
  function Ravel<T>(rows: seq<seq<T>>): (flat: seq<T>)
  {
    if rows == [] then [] else rows[0] + Ravel(rows[1..])
  }

  lemma {:induction false} RavelLength<T>(rows: seq<seq<T>>, w: nat)
    requires forall i :: 0 <= i < |rows| ==> |rows[i]| == w
    ensures |Ravel(rows)| == w * |rows|
  {
    if rows != [] { RavelLength(rows[1..], w); }
  }

  /** Flattening one more row appends that row. */
  lemma {:induction false} RavelSnoc<T>(rows: seq<seq<T>>, row: seq<T>)
    ensures Ravel(rows + [row]) == Ravel(rows) + row
  {
    if rows != [] {
      assert (rows + [row])[1..] == rows[1..] + [row];
      RavelSnoc(rows[1..], row);
    }
  }

  /** Entry k of a flattened list of w-wide rows is entry k mod w of row k div w. */
  lemma RavelAt<T>(rows: seq<seq<T>>, w: nat, k: nat)
    requires forall i :: 0 <= i < |rows| ==> |rows[i]| == w
    requires k < w * |rows|
    ensures |Ravel(rows)| == w * |rows|
    ensures w > 0 && k / w < |rows| && k % w < w
    ensures Ravel(rows)[k] == rows[k / w][k % w]
  {
    RavelLength(rows, w);
    assert w > 0 by { MulMono(w, 0, |rows|); }
    var i, j := k / w, k % w;
    assert k == i * w + j && j < w by { DivMod(k, w); }
    assert i < |rows| by { DivBound(k, w, |rows|); }
    RavelCell(rows, w, i, j);
  }

  /** Entry j of row i sits at i·w + j once flattened. */
  lemma {:induction false} RavelCell<T>(rows: seq<seq<T>>, w: nat, i: nat, j: nat)
    requires forall i :: 0 <= i < |rows| ==> |rows[i]| == w
    requires i < |rows| && j < w
    ensures i * w + j < |Ravel(rows)| && Ravel(rows)[i * w + j] == rows[i][j]
  {
    RavelLength(rows, w);
    if i > 0 {
      RavelCell(rows[1..], w, i - 1, j);
      assert i * w + j == w + ((i - 1) * w + j);
    }
  }

  lemma DivMod(k: nat, w: nat)
    requires w > 0
    ensures k == (k / w) * w + k % w && k % w < w
  {
  }

  /** Row i div w of a flat index i below uc·w is a row of the array. */
  lemma DivBound(i: nat, vc: nat, uc: nat)
    requires vc > 0 && i < uc * vc
    ensures i / vc < uc
  {
    var q := i / vc;
    assert q * vc <= i;
    MulMono(uc, q, vc);
  }

  lemma MulMono(a: int, b: int, c: nat)
    ensures a <= b ==> a * c <= b * c
  {
    assert b * c - a * c == (b - a) * c;
  }

  /** Division by m of q·m + r, for 0 <= r < m, gives back q and r. */
  lemma DivModOf(c: nat, m: nat, q: nat, r: nat)
    requires r < m && c == q * m + r
    ensures c / m == q && c % m == r
  {
    var q' := c / m;
    var r' := c % m;
    assert (q - q') * m == r' - r;
    MultipleBounds(q - q', m);
  }

  lemma MultipleBounds(d: int, m: int)
    requires m >= 0
    ensures d >= 1 ==> d * m >= m
    ensures d <= -1 ==> d * m <= -m
  {}
}
