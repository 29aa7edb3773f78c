/** Dense real matrices as sequences of rows, and the numpy shape operations
    the feature kernel relies on: column extraction, transposition, row-major
    flattening (`flatten`) and reshaping into a fixed number of rows
    (`reshape([rows, -1])`). */
module Matrix {

  type Matrix = seq<seq<real>>

  /** `m` has numpy shape `[rows, cols]`. */
  predicate IsMatrix(m: Matrix, rows: nat, cols: nat) {
    |m| == rows && forall i :: 0 <= i < rows ==> |m[i]| == cols
  }

  function Abs(x: real): real {
    if x < 0.0 then -x else x
  }

  /** Column `j` of `m`, top to bottom. */
  function Column(m: Matrix, j: nat): seq<real>
    requires forall i :: 0 <= i < |m| ==> j < |m[i]|
  {
    seq(|m|, i requires 0 <= i < |m| => m[i][j])
  }

  /** numpy `.T` of a `[rows, cols]` matrix. */
  function Transpose(m: Matrix, cols: nat): (t: Matrix)
    requires IsMatrix(m, |m|, cols)
    ensures IsMatrix(t, cols, |m|)
    ensures forall j, i :: 0 <= j < cols && 0 <= i < |m| ==> t[j][i] == m[i][j]
  {
    seq(cols, j requires 0 <= j < cols => Column(m, j))
  }

  /** Sum of a sequence, accumulated left to right. */
  function Sum(xs: seq<real>): real {
    if |xs| == 0 then 0.0 else Sum(xs[..|xs| - 1]) + xs[|xs| - 1]
  }

  /** numpy `cumsum` entry `i`: the sum of `xs[0..i]` inclusive. */
  function RunningSum(xs: seq<real>, i: nat): real
    requires i < |xs|
  {
    Sum(xs[..i + 1])
  }

  /** Row-major flattening: the rows of `m` laid end to end (numpy `flatten`). */
  function Concat(m: Matrix): seq<real> {
    if |m| == 0 then [] else m[0] + Concat(m[1..])
  }

  /** Entity-major flattening of a `[T, N]` matrix: transpose, then flatten,
      so that time varies fastest within each column. */
  function EntityMajor(m: Matrix, cols: nat): seq<real>
    requires IsMatrix(m, |m|, cols)
  {
    Concat(Transpose(m, cols))
  }

  /** The product of two non-negative reals is non-negative. */
  lemma MulNonneg(x: real, y: real)
    requires x >= 0.0 && y >= 0.0
    ensures x * y >= 0.0
  {}

  lemma MulPred(r: nat, c: nat)
    requires r > 0
    ensures r * c == (r - 1) * c + c
  {}

  /** Splits `xs` into `rows` consecutive rows of `cols` entries each. */
  function Reshape(xs: seq<real>, rows: nat, cols: nat): (m: Matrix)
    requires |xs| == rows * cols
    ensures IsMatrix(m, rows, cols)
    decreases rows
  {
    if rows == 0 then []
    else
      MulPred(rows, cols);
      [xs[..cols]] + Reshape(xs[cols..], rows - 1, cols)
  }

  /** numpy `reshape([rows, -1])`: the column count is inferred from the length.
      numpy raises when the length is not a multiple of `rows`. */
  function ReshapeRows(xs: seq<real>, rows: nat): (m: Matrix)
    requires rows > 0 && |xs| % rows == 0
    ensures IsMatrix(m, rows, |xs| / rows)
  {
    Reshape(xs, rows, |xs| / rows)
  }

  lemma {:induction false} ConcatAppend(x: Matrix, y: Matrix)
    ensures Concat(x + y) == Concat(x) + Concat(y)
  {
    if |x| == 0 {
      assert x + y == y;
    } else {
      ConcatAppend(x[1..], y);
      assert (x + y)[1..] == x[1..] + y;
    }
  }

  lemma {:induction false} ConcatLength(m: Matrix, rows: nat, cols: nat)
    requires IsMatrix(m, rows, cols)
    ensures |Concat(m)| == rows * cols
    decreases rows
  {
    if rows > 0 {
      ConcatLength(m[1..], rows - 1, cols);
      MulPred(rows, cols);
    }
  }

  /** Entry `(r, c)` of a `[rows, cols]` matrix sits at position `r*cols + c`
      of its row-major flattening. */
  lemma {:induction false} ConcatIndex(m: Matrix, rows: nat, cols: nat, r: nat, c: nat)
    requires IsMatrix(m, rows, cols)
    requires r < rows && c < cols
    ensures 0 <= r * cols + c < |Concat(m)| && Concat(m)[r * cols + c] == m[r][c]
    decreases rows
  {
    ConcatLength(m, rows, cols);
    ConcatLength(m[1..], rows - 1, cols);
    if r > 0 {
      ConcatIndex(m[1..], rows - 1, cols, r - 1, c);
      MulPred(r, cols);
      assert Concat(m) == m[0] + Concat(m[1..]);
    }
  }

  /** Reshaping a row-major flattening restores the matrix. */
  lemma {:induction false} ReshapeConcat(m: Matrix, rows: nat, cols: nat)
    requires IsMatrix(m, rows, cols)
    ensures |Concat(m)| == rows * cols
    ensures Reshape(Concat(m), rows, cols) == m
    decreases rows
  {
    ConcatLength(m, rows, cols);
    if rows > 0 {
      ReshapeConcat(m[1..], rows - 1, cols);
      var xs := Concat(m);
      assert xs == m[0] + Concat(m[1..]);
      assert xs[..cols] == m[0];
      assert xs[cols..] == Concat(m[1..]);
      assert m == [m[0]] + m[1..];
    }
  }

  /** Entry `(t, e)` of a `[rows, cols]` matrix sits at position `e*rows + t`
      of its entity-major flattening. */
  lemma EntityMajorIndex(m: Matrix, rows: nat, cols: nat, e: nat, t: nat)
    requires IsMatrix(m, rows, cols)
    requires e < cols && t < rows
    ensures |EntityMajor(m, cols)| == cols * rows
    ensures 0 <= e * rows + t < |EntityMajor(m, cols)| && EntityMajor(m, cols)[e * rows + t] == m[t][e]
  {
    var tr := Transpose(m, cols);
    ConcatLength(tr, cols, rows);
    ConcatIndex(tr, cols, rows, e, t);
    assert tr[e][t] == m[t][e];
    assert EntityMajor(m, cols) == Concat(tr);
  }

  lemma EntityMajorLength(m: Matrix, rows: nat, cols: nat)
    requires IsMatrix(m, rows, cols)
    ensures |EntityMajor(m, cols)| == cols * rows
  {
    ConcatLength(Transpose(m, cols), cols, rows);
  }
}
