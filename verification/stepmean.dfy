/** `step_mean`: an exponentially weighted moving average down the rows of a
    `[T, N]` array, seeded by blending the prior `init` with the first row. */
module Smoothing {
  import opened Matrix
  import opened Errors

  /** One smoothing step for every column: `alpha * prev + (1 - alpha) * cur`. */
  function Blend(alpha: real, prev: seq<real>, cur: seq<real>): seq<real>
    requires |prev| == |cur|
  {
    seq(|cur|, j requires 0 <= j < |cur| => alpha * prev[j] + (1.0 - alpha) * cur[j])
  }

  /** The seed row `alpha * init * ones(N) + (1 - alpha) * array[0]`. */
  function Seed(a: Matrix, n: nat, alpha: real, init: real): seq<real>
    requires IsMatrix(a, |a|, n) && |a| > 0
  {
    Blend(alpha, seq(n, _ => init), a[0])
  }

  /** Entry `(i, j)` of `r` is the smoothing step from entry `(i - 1, j)`
      towards the observation `a[i][j]`. */
  predicate Follows(r: Matrix, a: Matrix, alpha: real, i: nat, j: nat)
    requires 1 <= i < |r| && i < |a| && j < |r[i]| && j < |r[i - 1]| && j < |a[i]|
  {
    r[i][j] == alpha * r[i - 1][j] + (1.0 - alpha) * a[i][j]
  }

  /** Rows `0 .. t-1` of the step mean: the seed, then each row smoothed
      against the one before it. */
  function Smooth(a: Matrix, n: nat, alpha: real, init: real, t: nat): (r: Matrix)
    requires IsMatrix(a, |a|, n) && 1 <= t <= |a|
    ensures IsMatrix(r, t, n)
    ensures forall j :: 0 <= j < n ==> r[0][j] == alpha * init + (1.0 - alpha) * a[0][j]
    ensures forall i, j :: 1 <= i < t && 0 <= j < n ==> Follows(r, a, alpha, i, j)
    decreases t
  {
    if t == 1 then [Seed(a, n, alpha, init)]
    else
      var prev := Smooth(a, n, alpha, init, t - 1);
      var last := Blend(alpha, prev[t - 2], a[t - 1]);
      FollowsExtend(prev, last, a, n, alpha, init, t);
      prev + [last]
  }

  /** Appending a row that blends the previous last row with `a[t - 1]`
      keeps the shape and the seed row and extends the recurrence by one row. */
  lemma FollowsExtend(prev: Matrix, last: seq<real>, a: Matrix, n: nat, alpha: real, init: real, t: nat)
    requires IsMatrix(a, |a|, n) && 2 <= t <= |a| && IsMatrix(prev, t - 1, n)
    requires forall j :: 0 <= j < n ==> prev[0][j] == alpha * init + (1.0 - alpha) * a[0][j]
    requires forall i, j :: 1 <= i < t - 1 && 0 <= j < n ==> Follows(prev, a, alpha, i, j)
    requires last == Blend(alpha, prev[t - 2], a[t - 1])
    ensures IsMatrix(prev + [last], t, n)
    ensures forall j :: 0 <= j < n ==> (prev + [last])[0][j] == alpha * init + (1.0 - alpha) * a[0][j]
    ensures forall i, j :: 1 <= i < t && 0 <= j < n ==> Follows(prev + [last], a, alpha, i, j)
  {
    var r := prev + [last];
    assert r[0] == prev[0];
    forall i, j | 1 <= i < t && 0 <= j < n
      ensures Follows(r, a, alpha, i, j)
    {
      if i < t - 1 {
        assert Follows(prev, a, alpha, i, j);
      }
    }
  }

  /** The source's `step_mean(array, alpha, init)`. An empty series fails,
      because the seed reads `array[0]`; otherwise the result has the input's
      shape, row 0 is the blended seed and every later row follows the
      recurrence. */
  function StepMean(a: Matrix, n: nat, alpha: real, init: real): (r: Result<Matrix>)
    requires IsMatrix(a, |a|, n)
    ensures r.Ok? <==> |a| > 0
    ensures r.Err? ==> r.error == EmptySeries
    ensures r.Ok? ==> IsMatrix(r.value, |a|, n)
    ensures r.Ok? ==> forall j :: 0 <= j < n ==> r.value[0][j] == alpha * init + (1.0 - alpha) * a[0][j]
    ensures r.Ok? ==> forall i, j :: 1 <= i < |a| && 0 <= j < n ==> Follows(r.value, a, alpha, i, j)
  {
    if |a| == 0 then Err(EmptySeries) else Ok(Smooth(a, n, alpha, init, |a|))
  }

  /** The loop of the source as written: every row starts as the seed (the
      broadcast of `ones(N)` to the full shape), then rows `1 .. T-1` are
      overwritten in order. It computes exactly `StepMean`. */
  method StepMeanInPlace(a: Matrix, n: nat, alpha: real, init: real) returns (r: Result<Matrix>)
    requires IsMatrix(a, |a|, n)
    ensures r == StepMean(a, n, alpha, init)
  {
    if |a| == 0 {
      return Err(EmptySeries);
    }
    var seed := Seed(a, n, alpha, init);
    var means := seq(|a|, _ => seed);
    var i := 1;
    while i < |a|
      invariant 1 <= i <= |a| && |means| == |a|
      invariant means[..i] == Smooth(a, n, alpha, init, i)
      invariant forall k :: i <= k < |a| ==> means[k] == seed
    {
      means := means[i := Blend(alpha, means[i - 1], a[i])];
      i := i + 1;
    }
    assert means == means[..i];
    return Ok(means);
  }

  function Pow(x: real, k: nat): real {
    if k == 0 then 1.0 else x * Pow(x, k - 1)
  }

  /** The direct accumulation `sum_k alpha^(|xs|-1-k) * xs[k]`, oldest entry
      first: each observation discounted by its age. */
  function Discounted(xs: seq<real>, alpha: real): real {
    if |xs| == 0 then 0.0 else Pow(alpha, |xs| - 1) * xs[0] + Discounted(xs[1..], alpha)
  }

  /** Appending an observation ages every earlier one by one factor of `alpha`. */
  lemma {:induction false} DiscountedSnoc(xs: seq<real>, x: real, alpha: real)
    ensures Discounted(xs + [x], alpha) == alpha * Discounted(xs, alpha) + x
  {
    var ys := xs + [x];
    if |xs| == 0 {
      assert ys[1..] == [];
      assert Discounted(ys, alpha) == Pow(alpha, 0) * x + Discounted([], alpha);
    } else {
      var p, q := Pow(alpha, |xs| - 1), Pow(alpha, |xs|);
      var d, dTail := Discounted(xs[1..], alpha), Discounted(ys[1..], alpha);
      assert dTail == alpha * d + x by {
        assert ys[1..] == xs[1..] + [x];
        DiscountedSnoc(xs[1..], x, alpha);
      }
      assert q == alpha * p;
      assert Discounted(ys, alpha) == q * xs[0] + dTail;
      assert Discounted(xs, alpha) == p * xs[0] + d;
      AgeOne(Discounted(ys, alpha), Discounted(xs, alpha), alpha, p, q, xs[0], d, dTail, x);
    }
  }

  /** One step of the ageing induction, on plain numbers. */
  lemma AgeOne(dy: real, dx: real, alpha: real, p: real, q: real, x0: real, d: real, dTail: real, x: real)
    requires dy == q * x0 + dTail && dx == p * x0 + d
    requires q == alpha * p && dTail == alpha * d + x
    ensures dy == alpha * dx + x
  {}

  /** The direct accumulation for entry `i` of a column `c`:
      `alpha^(i+1) * init + (1 - alpha) * sum_{k <= i} alpha^(i-k) * c[k]`. */
  function ClosedForm(c: seq<real>, alpha: real, init: real, i: nat): real
    requires i < |c|
  {
    Pow(alpha, i + 1) * init + (1.0 - alpha) * Discounted(c[..i + 1], alpha)
  }

  /** The closed form satisfies the seed equation at row 0 ... */
  lemma ClosedFormSeed(c: seq<real>, alpha: real, init: real)
    requires |c| > 0
    ensures ClosedForm(c, alpha, init, 0) == alpha * init + (1.0 - alpha) * c[0]
  {
    assert c[..1] == [c[0]];
    assert [c[0]][1..] == [];
    assert Pow(alpha, 0) == 1.0;
    assert Pow(alpha, 1) == alpha * Pow(alpha, 0);
    assert Discounted([c[0]], alpha) == Pow(alpha, 0) * c[0] + Discounted([], alpha);
  }

  /** ... and the smoothing recurrence at every later row. */
  lemma ClosedFormStep(c: seq<real>, alpha: real, init: real, i: nat)
    requires 0 < i < |c|
    ensures ClosedForm(c, alpha, init, i) == alpha * ClosedForm(c, alpha, init, i - 1) + (1.0 - alpha) * c[i]
  {
    var d := Discounted(c[..i], alpha);
    var d1 := Discounted(c[..i + 1], alpha);
    var p := Pow(alpha, i);
    var p1 := Pow(alpha, i + 1);
    assert d1 == alpha * d + c[i] by {
      assert c[..i + 1] == c[..i] + [c[i]];
      DiscountedSnoc(c[..i], c[i], alpha);
    }
    assert p1 == alpha * p;
    assert ClosedForm(c, alpha, init, i) == p1 * init + (1.0 - alpha) * d1;
    assert ClosedForm(c, alpha, init, i - 1) == p * init + (1.0 - alpha) * d;
    StepAlgebra(ClosedForm(c, alpha, init, i), ClosedForm(c, alpha, init, i - 1), p1, p, d1, d, alpha, init, c[i]);
  }

  /** One step of the closed-form induction, on plain numbers. */
  lemma StepAlgebra(cf: real, cfPrev: real, p1: real, p: real, d1: real, d: real, alpha: real, init: real, x: real)
    requires cf == p1 * init + (1.0 - alpha) * d1
    requires cfPrev == p * init + (1.0 - alpha) * d
    requires p1 == alpha * p && d1 == alpha * d + x
    ensures cf == alpha * cfPrev + (1.0 - alpha) * x
  {}

  lemma {:induction false} SmoothClosedForm(a: Matrix, n: nat, alpha: real, init: real, t: nat, i: nat, j: nat)
    requires IsMatrix(a, |a|, n) && 1 <= t <= |a| && i < t && j < n
    ensures Smooth(a, n, alpha, init, t)[i][j] == ClosedForm(Column(a, j), alpha, init, i)
    decreases i
  {
    var c := Column(a, j);
    if i == 0 {
      ClosedFormSeed(c, alpha, init);
    } else {
      SmoothClosedForm(a, n, alpha, init, t, i - 1, j);
      SmoothRecurrence(a, n, alpha, init, t, i, j);
      assert c[i] == a[i][j];
      ClosedFormStep(c, alpha, init, i);
    }
  }

  lemma SmoothRecurrence(a: Matrix, n: nat, alpha: real, init: real, t: nat, i: nat, j: nat)
    requires IsMatrix(a, |a|, n) && 1 <= t <= |a| && 1 <= i < t && j < n
    ensures Smooth(a, n, alpha, init, t)[i][j]
      == alpha * Smooth(a, n, alpha, init, t)[i - 1][j] + (1.0 - alpha) * a[i][j]
  {
    assert Follows(Smooth(a, n, alpha, init, t), a, alpha, i, j);
  }

  /** The recurrence agrees with the direct accumulation of discounted
      observations, for every row and column. */
  lemma StepMeanClosedForm(a: Matrix, n: nat, alpha: real, init: real)
    requires IsMatrix(a, |a|, n) && |a| > 0
    ensures StepMean(a, n, alpha, init).Ok?
    ensures forall i, j :: 0 <= i < |a| && 0 <= j < n ==>
      StepMean(a, n, alpha, init).value[i][j] == ClosedForm(Column(a, j), alpha, init, i)
  {
    forall i, j | 0 <= i < |a| && 0 <= j < n
      ensures StepMean(a, n, alpha, init).value[i][j] == ClosedForm(Column(a, j), alpha, init, i)
    {
      SmoothClosedForm(a, n, alpha, init, |a|, i, j);
    }
  }

  /** A convex combination of two points of `[lo, hi]` stays in `[lo, hi]`. */
  lemma Convex(alpha: real, x: real, y: real, lo: real, hi: real)
    requires 0.0 <= alpha <= 1.0 && lo <= x <= hi && lo <= y <= hi
    ensures lo <= alpha * x + (1.0 - alpha) * y <= hi
  {
    MulNonneg(alpha, x - lo);
    MulNonneg(1.0 - alpha, y - lo);
    MulNonneg(alpha, hi - x);
    MulNonneg(1.0 - alpha, hi - y);
  }

  lemma {:induction false} SmoothBounds(a: Matrix, n: nat, alpha: real, init: real, t: nat, i: nat, j: nat, lo: real, hi: real)
    requires IsMatrix(a, |a|, n) && 1 <= t <= |a| && i < t && j < n
    requires 0.0 <= alpha <= 1.0 && lo <= init <= hi
    requires forall k :: 0 <= k < |a| ==> lo <= a[k][j] <= hi
    ensures lo <= Smooth(a, n, alpha, init, t)[i][j] <= hi
    decreases i
  {
    var r := Smooth(a, n, alpha, init, t);
    if i == 0 {
      Convex(alpha, init, a[0][j], lo, hi);
    } else {
      SmoothBounds(a, n, alpha, init, t, i - 1, j, lo, hi);
      SmoothRecurrence(a, n, alpha, init, t, i, j);
      Convex(alpha, r[i - 1][j], a[i][j], lo, hi);
    }
  }

  /** With `0 <= alpha <= 1`, a column whose entries and prior `init` lie in
      `[lo, hi]` is smoothed into `[lo, hi]`: every step is a convex combination. */
  lemma StepMeanBounds(a: Matrix, n: nat, alpha: real, init: real, j: nat, lo: real, hi: real)
    requires IsMatrix(a, |a|, n) && |a| > 0 && j < n
    requires 0.0 <= alpha <= 1.0 && lo <= init <= hi
    requires forall k :: 0 <= k < |a| ==> lo <= a[k][j] <= hi
    ensures StepMean(a, n, alpha, init).Ok?
    ensures forall i :: 0 <= i < |a| ==> lo <= StepMean(a, n, alpha, init).value[i][j] <= hi
  {
    forall i | 0 <= i < |a|
      ensures lo <= StepMean(a, n, alpha, init).value[i][j] <= hi
    {
      SmoothBounds(a, n, alpha, init, |a|, i, j, lo, hi);
    }
  }
}
