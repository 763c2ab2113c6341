/**
 * Dense real matrices as nested sequences (numpy's two-dimensional float
 * arrays), and the in-place `fill_diagonal` of sbs/utils.py and utils.py.
 */
module Matrices {
  import opened Wrappers

  type Matrix = seq<seq<real>>

  /** `m` has `r` rows of `c` entries each. */
  predicate IsRect(m: Matrix, r: nat, c: nat) {
    |m| == r && forall i :: 0 <= i < r ==> |m[i]| == c
  }

  predicate IsSquare(m: Matrix, n: nat) {
    IsRect(m, n, n)
  }

  /**
   * numpy gives a nested list the shape `(r, c)` exactly when it has `r > 0`
   * rows, all of length `c`; an empty list has the one-dimensional shape `(0,)`.
   */
  predicate NestedShapeIs(m: Matrix, r: nat, c: nat) {
    r > 0 && IsRect(m, r, c)
  }

  /** Every diagonal entry is zero. */
  predicate ZeroDiagonal(m: Matrix)
    requires IsSquare(m, |m|)
  {
    forall i :: 0 <= i < |m| ==> m[i][i] == 0.0
  }

  /** `np.empty((r, c)); fill(x)`. */
  function Fill(r: nat, c: nat, x: real): (m: Matrix)
    ensures IsRect(m, r, c)
    ensures forall i, j :: 0 <= i < r && 0 <= j < c ==> m[i][j] == x
  {
    seq(r, _ => seq(c, _ => x))
  }

  /** Column `j` of `m`, the slice `m[:, j]`. */
  function Column(m: Matrix, j: nat): (col: seq<real>)
    requires forall i :: 0 <= i < |m| ==> j < |m[i]|
    ensures |col| == |m|
    ensures forall i :: 0 <= i < |m| ==> col[i] == m[i][j]
  {
    seq(|m|, i requires 0 <= i < |m| => m[i][j])
  }

  /** The matrix that `fill_diagonal(m, v)` leaves behind. */
  function WithDiagonal(m: Matrix, v: real): (r: Matrix)
    requires IsSquare(m, |m|)
    ensures IsSquare(r, |m|)
    ensures forall i :: 0 <= i < |m| ==> r[i][i] == v
    ensures forall i, j :: 0 <= i < |m| && 0 <= j < |m| && i != j ==> r[i][j] == m[i][j]
  {
    seq(|m|, i requires 0 <= i < |m| =>
      seq(|m|, j requires 0 <= j < |m| => if i == j then v else m[i][j]))
  }

  /** The rows of a two-dimensional array, as a matrix value. */
  function Rows(a: array2<real>): (m: Matrix)
    reads a
    ensures IsRect(m, a.Length0, a.Length1)
    ensures forall i, j :: 0 <= i < a.Length0 && 0 <= j < a.Length1 ==> m[i][j] == a[i, j]
  {
    seq(a.Length0, i requires 0 <= i < a.Length0 reads a =>
      seq(a.Length1, j requires 0 <= j < a.Length1 reads a => a[i, j]))
  }

  /**
   * `fill_diagonal(array, value)`: asserts that the array is square, writes
   * `value` on its diagonal in place and returns the same array.
   */
  method FillDiagonal(a: array2<real>, value: real) returns (r: Result<array2<real>>)
    modifies a
    ensures r.Ok? <==> a.Length0 == a.Length1
    ensures r.Ok? ==> r.value == a
    ensures r.Ok? ==> IsSquare(old(Rows(a)), a.Length0) && Rows(a) == WithDiagonal(old(Rows(a)), value)
    ensures r.Err? ==> r.error == AssertionError && unchanged(a)
  {
    if a.Length0 != a.Length1 {
      return Err(AssertionError);
    }
    ghost var before := Rows(a);
    var n := a.Length0;
    var i := 0;
    while i < n
      invariant 0 <= i <= n
      invariant forall p, q :: 0 <= p < n && 0 <= q < n ==>
        a[p, q] == if p == q && p < i then value else before[p][q]
    {
      a[i, i] := value;
      i := i + 1;
    }
    ghost var after, want := Rows(a), WithDiagonal(before, value);
    forall p | 0 <= p < n ensures after[p] == want[p] {
      assert |after[p]| == |want[p]| == n;
    }
    r := Ok(a);
  }
}
