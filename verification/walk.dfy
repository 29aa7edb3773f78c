/** `non_stationary_bounded_random_walk`: a random walk whose per-step
    volatility is itself a bounded random walk, both folded into their
    intervals by `bound_array`.

    The two `np.random.normal` draws are not modelled as distributions: a draw
    with mean `loc` and scale `scale` is written `loc + scale * z`, where the
    matrices `z1` and `z2` of standard-normal values are supplied by the caller. */
module Walk {
  import opened Matrix
  import opened Reflect

  /** The source's defaults: `initial = 1/2`, `bounds = [0, 1]`, `drift = 0`,
      `std = 0.001`, `std_bounds = [0, 0.05]`; the default `size = [1000, 1]`
      is the shape of the supplied draws. */
  const DefaultInitial: real := 0.5
  const DefaultBounds: Bounds := Bounds(0.0, 1.0)
  const DefaultDrift: real := 0.0
  const DefaultStd: real := 0.001
  const DefaultStdBounds: Bounds := Bounds(0.0, 0.05)

  /** One normal draw with mean `loc` and scale `scale`, from the standard value `z`. */
  function Normal(loc: real, scale: real, z: real): real {
    loc + scale * z
  }

  /** numpy `cumsum(0)` on a `[T, N]` matrix, computed as a running total:
      each row adds the next input row to the previous total. */
  function CumSum(a: Matrix, n: nat): (r: Matrix)
    requires IsMatrix(a, |a|, n)
    ensures IsMatrix(r, |a|, n)
    ensures forall i, j :: 0 <= i < |a| && 0 <= j < n ==> r[i][j] == RunningSum(Column(a, j), i)
    decreases |a|
  {
    if |a| == 0 then []
    else
      var prev := CumSum(a[..|a| - 1], n);
      var last := seq(n, j requires 0 <= j < n =>
        (if |prev| == 0 then 0.0 else prev[|prev| - 1][j]) + a[|a| - 1][j]);
      CumSumStep(a, n);
      prev + [last]
  }

  /** Dropping the last row leaves the earlier running sums unchanged, and the
      last running sum adds the last entry to the one before it. */
  lemma CumSumStep(a: Matrix, n: nat)
    requires IsMatrix(a, |a|, n) && |a| > 0
    ensures forall i, j :: 0 <= i < |a| - 1 && 0 <= j < n ==>
      RunningSum(Column(a[..|a| - 1], j), i) == RunningSum(Column(a, j), i)
    ensures forall j :: 0 <= j < n ==>
      RunningSum(Column(a, j), |a| - 1)
      == (if |a| == 1 then 0.0 else RunningSum(Column(a[..|a| - 1], j), |a| - 2)) + a[|a| - 1][j]
  {
    forall i, j | 0 <= i < |a| - 1 && 0 <= j < n
      ensures RunningSum(Column(a[..|a| - 1], j), i) == RunningSum(Column(a, j), i)
    {
      assert Column(a[..|a| - 1], j)[..i + 1] == Column(a, j)[..i + 1];
    }
    forall j | 0 <= j < n
      ensures RunningSum(Column(a, j), |a| - 1)
        == (if |a| == 1 then 0.0 else RunningSum(Column(a[..|a| - 1], j), |a| - 2)) + a[|a| - 1][j]
    {
      var c := Column(a, j)[..|a|];
      assert Sum(c) == Sum(c[..|c| - 1]) + a[|a| - 1][j];
      if |a| == 1 {
        assert c[..|c| - 1] == [];
      } else {
        assert c[..|c| - 1] == Column(a[..|a| - 1], j)[..|a| - 1];
      }
    }
  }

  /** The first draw: increments with mean `drift` and the constant scale `std`. */
  function VolatilityIncrements(drift: real, std: real, z1: Matrix, n: nat): (d: Matrix)
    requires IsMatrix(z1, |z1|, n)
    ensures IsMatrix(d, |z1|, n)
  {
    seq(|z1|, i requires 0 <= i < |z1| => seq(n, j requires 0 <= j < n => Normal(drift, std, z1[i][j])))
  }

  /** `std_array`: the absolute value of the running sum of the first draw plus
      `std`, folded into `std_bounds`. */
  function Volatility(drift: real, std: real, stdBounds: Bounds, z1: Matrix, n: nat): (s: Matrix)
    requires stdBounds.Valid() && IsMatrix(z1, |z1|, n)
    ensures IsMatrix(s, |z1|, n)
    ensures forall i, j :: 0 <= i < |z1| && 0 <= j < n ==>
      s[i][j] == Bound(Abs(RunningSum(Column(VolatilityIncrements(drift, std, z1, n), j), i) + std), stdBounds)
    ensures forall i, j :: 0 <= i < |z1| && 0 <= j < n ==> stdBounds.Contains(s[i][j])
  {
    var c := CumSum(VolatilityIncrements(drift, std, z1, n), n);
    BoundArray(seq(|c|, i requires 0 <= i < |c| => seq(n, j requires 0 <= j < n => Abs(c[i][j] + std))), stdBounds)
  }

  /** The second draw: increments with mean `drift` and the per-step scale `scale[i][j]`. */
  function WalkIncrements(drift: real, scale: Matrix, z2: Matrix, n: nat): (d: Matrix)
    requires IsMatrix(scale, |scale|, n) && IsMatrix(z2, |scale|, n)
    ensures IsMatrix(d, |scale|, n)
  {
    seq(|z2|, i requires 0 <= i < |z2| => seq(n, j requires 0 <= j < n => Normal(drift, scale[i][j], z2[i][j])))
  }

  /** The source's `non_stationary_bounded_random_walk` for `size = [T, N]`:
      the running sum of the second draw plus `initial`, folded into `bounds`.
      The result has the requested shape and stays inside `bounds`. */
  function BoundedRandomWalk(initial: real, bounds: Bounds, drift: real, std: real, stdBounds: Bounds,
                             z1: Matrix, z2: Matrix, n: nat): (w: Matrix)
    requires bounds.Valid() && stdBounds.Valid()
    requires IsMatrix(z1, |z1|, n) && IsMatrix(z2, |z1|, n)
    ensures IsMatrix(w, |z1|, n)
    ensures forall i, j :: 0 <= i < |z1| && 0 <= j < n ==> bounds.Contains(w[i][j])
    ensures forall i, j :: 0 <= i < |z1| && 0 <= j < n ==>
      w[i][j] == Bound(RunningSum(Column(WalkIncrements(drift, Volatility(drift, std, stdBounds, z1, n), z2, n), j), i) + initial, bounds)
  {
    var c := CumSum(WalkIncrements(drift, Volatility(drift, std, stdBounds, z1, n), z2, n), n);
    BoundArray(seq(|c|, i requires 0 <= i < |c| => seq(n, j requires 0 <= j < n => c[i][j] + initial)), bounds)
  }

  /** Under the defaults neither `np.random.normal` call sees a negative scale:
      the first draw's scale is `std = 0.001`, and every entry of the second
      draw's scale lies in `std_bounds = [0, 0.05]`. The default walk stays in
      `[0, 1]`. */
  lemma DefaultScalesNonnegative(z1: Matrix, z2: Matrix, n: nat)
    requires IsMatrix(z1, |z1|, n) && IsMatrix(z2, |z1|, n)
    ensures DefaultStd >= 0.0
    ensures forall i, j :: 0 <= i < |z1| && 0 <= j < n ==>
      Volatility(DefaultDrift, DefaultStd, DefaultStdBounds, z1, n)[i][j] >= 0.0
    ensures forall i, j :: 0 <= i < |z1| && 0 <= j < n ==>
      0.0 <= BoundedRandomWalk(DefaultInitial, DefaultBounds, DefaultDrift, DefaultStd, DefaultStdBounds, z1, z2, n)[i][j] <= 1.0
  {
  }
}
