/** `apply_rolling_function`: a centred, look-ahead rolling aggregate. Row `i`
    of the result aggregates, column by column, the input rows
    `[max(0, i - w), min(T, i + w))`, that is rows `i - w` through `i + w - 1`
    clipped to the array. */
module Rolling {
  import opened Matrix

  /** `max(0, i - w)`. */
  function WindowStart(i: nat, w: nat): nat {
    if i < w then 0 else i - w
  }

  /** `min(T, i + w)`; the slice end is exclusive. */
  function WindowEnd(i: nat, w: nat, t: nat): nat {
    if t < i + w then t else i + w
  }

  /** The rows the source slices for row `i`. With `w >= 1` the window is never
      empty, holds row `i`, spans at most `2w` rows, reaches `w` rows into the
      past and `w - 1` rows into the future where the array allows, and covers
      the whole array once `w >= T`. */
  function Window(a: Matrix, i: nat, w: nat): (s: Matrix)
    requires i < |a| && w >= 1
    ensures 1 <= |s| <= 2 * w
    ensures i - WindowStart(i, w) < |s| && s[i - WindowStart(i, w)] == a[i]
    ensures i >= w ==> s[0] == a[i - w]
    ensures i < w ==> s[0] == a[0]
    ensures i + w <= |a| ==> s[|s| - 1] == a[i + w - 1]
    ensures i + w > |a| ==> s[|s| - 1] == a[|a| - 1]
    ensures w >= |a| ==> s == a
  {
    a[WindowStart(i, w)..WindowEnd(i, w, |a|)]
  }

  /** `np.mean`. It is only applied to non-empty windows here; on an empty
      input this model returns 0 where numpy returns NaN. */
  function Mean(xs: seq<real>): real {
    if |xs| == 0 then 0.0 else Sum(xs) / (|xs| as real)
  }

  /** The population variance, the quantity under the square root of `np.std`. */
  function Variance(xs: seq<real>): real {
    var m := Mean(xs);
    Mean(seq(|xs|, k requires 0 <= k < |xs| => (xs[k] - m) * (xs[k] - m)))
  }

  /** `np.std` with its default `ddof = 0`; the square root is the caller's `sqrt`. */
  function Std(xs: seq<real>, sqrt: real -> real): real {
    sqrt(Variance(xs))
  }

  /** The source's `apply_rolling_function(array, window, func)`, with `func`
      an aggregate over one column of the window (`axis=0`). */
  function ApplyRolling(a: Matrix, n: nat, w: nat, agg: seq<real> -> real): (r: Matrix)
    requires IsMatrix(a, |a|, n) && w >= 1
    ensures IsMatrix(r, |a|, n)
  {
    seq(|a|, i requires 0 <= i < |a| =>
      seq(n, j requires 0 <= j < n => agg(Column(Window(a, i, w), j))))
  }

  /** The aggregate never mixes columns: column `j` of the result depends on
      column `j` of the input alone. */
  lemma RollingColumnLocal(a: Matrix, b: Matrix, n: nat, w: nat, agg: seq<real> -> real, j: nat)
    requires IsMatrix(a, |a|, n) && IsMatrix(b, |a|, n) && w >= 1 && j < n
    requires Column(a, j) == Column(b, j)
    ensures Column(ApplyRolling(a, n, w, agg), j) == Column(ApplyRolling(b, n, w, agg), j)
  {
    forall i | 0 <= i < |a|
      ensures ApplyRolling(a, n, w, agg)[i][j] == ApplyRolling(b, n, w, agg)[i][j]
    {
      var s, e := WindowStart(i, w), WindowEnd(i, w, |a|);
      assert Column(Window(a, i, w), j) == Column(a, j)[s..e];
      assert Column(Window(b, i, w), j) == Column(b, j)[s..e];
    }
  }

  /** A window at least as wide as the series covers all of it, so every row
      holds the aggregate of the whole column. */
  lemma RollingWholeSeries(a: Matrix, n: nat, w: nat, agg: seq<real> -> real)
    requires IsMatrix(a, |a|, n) && w >= 1 && w >= |a|
    ensures forall i, j :: 0 <= i < |a| && 0 <= j < n ==>
      ApplyRolling(a, n, w, agg)[i][j] == agg(Column(a, j))
  {
    forall i, j | 0 <= i < |a| && 0 <= j < n
      ensures ApplyRolling(a, n, w, agg)[i][j] == agg(Column(a, j))
    {
      assert Window(a, i, w) == a;
    }
  }

  /** With `mean` and `w >= T`, every row is the global column mean. */
  lemma RollingMeanGlobal(a: Matrix, n: nat, w: nat)
    requires IsMatrix(a, |a|, n) && w >= 1 && w >= |a|
    ensures forall i, j :: 0 <= i < |a| && 0 <= j < n ==>
      ApplyRolling(a, n, w, Mean)[i][j] == Sum(Column(a, j)) / (|a| as real)
  {
    RollingWholeSeries(a, n, w, Mean);
  }

  lemma {:induction false} SumBounds(xs: seq<real>, lo: real, hi: real)
    requires forall k :: 0 <= k < |xs| ==> lo <= xs[k] <= hi
    ensures (|xs| as real) * lo <= Sum(xs) <= (|xs| as real) * hi
  {
    if |xs| > 0 {
      SumBounds(xs[..|xs| - 1], lo, hi);
    }
  }

  /** The mean of a non-empty sequence lies between its bounds. */
  lemma MeanBounds(xs: seq<real>, lo: real, hi: real)
    requires |xs| > 0
    requires forall k :: 0 <= k < |xs| ==> lo <= xs[k] <= hi
    ensures lo <= Mean(xs) <= hi
  {
    SumBounds(xs, lo, hi);
    DivBounds(Sum(xs), |xs| as real, lo, hi);
  }

  lemma DivBounds(s: real, n: real, lo: real, hi: real)
    requires n > 0.0 && n * lo <= s <= n * hi
    ensures lo <= s / n <= hi
  {}

  /** The population variance is never negative, so `np.std` takes a real root. */
  lemma VarianceNonnegative(xs: seq<real>)
    ensures Variance(xs) >= 0.0
  {
    var m := Mean(xs);
    var sq := seq(|xs|, k requires 0 <= k < |xs| => (xs[k] - m) * (xs[k] - m));
    forall k | 0 <= k < |sq|
      ensures sq[k] >= 0.0
    {
      SquareNonnegative(xs[k] - m);
    }
    SumNonnegative(sq);
  }

  lemma SquareNonnegative(x: real)
    ensures x * x >= 0.0
  {}

  lemma {:induction false} SumNonnegative(xs: seq<real>)
    requires forall k :: 0 <= k < |xs| ==> xs[k] >= 0.0
    ensures Sum(xs) >= 0.0
  {
    if |xs| > 0 {
      SumNonnegative(xs[..|xs| - 1]);
    }
  }

  /** A rolling mean of a column that stays in `[lo, hi]` stays in `[lo, hi]`. */
  lemma RollingMeanBounds(a: Matrix, n: nat, w: nat, j: nat, lo: real, hi: real)
    requires IsMatrix(a, |a|, n) && w >= 1 && j < n
    requires forall i :: 0 <= i < |a| ==> lo <= a[i][j] <= hi
    ensures forall i :: 0 <= i < |a| ==> lo <= ApplyRolling(a, n, w, Mean)[i][j] <= hi
  {
    forall i | 0 <= i < |a|
      ensures lo <= ApplyRolling(a, n, w, Mean)[i][j] <= hi
    {
      var c := Column(Window(a, i, w), j);
      MeanBounds(c, lo, hi);
    }
  }
}
