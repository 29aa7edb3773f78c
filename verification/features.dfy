/** `generate_X`: assembles the feature matrix from a `[T, N]` array of game
    results (`T` games by `N` teams). Each of its `2 + 2|windows| + 2|alphas|`
    rows has `T * N` columns:

      row 0                       `log(1 + t)`, the position in the series
      row 1                       the raw results, flattened row-major
      rows 2 ..                   the rolling mean for each window
      then                        the rolling std for each window
      then                        the step mean for each alpha
      then                        the rolling std (half-width 10) of each step mean

    Row 0 is built entity-major directly, and every derived row is transposed
    before flattening, so in those rows column `e * T + t` holds team `e` at
    game `t`; row 1 is flattened without the transpose, so its column
    `t * N + e` holds team `e` at game `t`.

    The source builds one long list from these pieces and reshapes it into
    `2 + 2|windows| + 2|alphas|` rows; the model does the same. `np.log` and
    the square root inside `np.std` are the parameters `log` and `sqrt`. */
module Features {
  import opened Matrix
  import opened Errors
  import opened Rolling
  import opened Smoothing

  /** `step_mean`'s default prior, which `generate_X` does not override. */
  const StepInit: real := 0.5

  /** The fixed half-width of the rolling std over each step-mean series. */
  const StepStdWindow: nat := 10

  /** `generate_X`'s default half-widths. */
  const DefaultWindows: seq<nat> := [5, 10, 20, 50, 100]

  /** `generate_X`'s default smoothing factors. */
  const DefaultAlphas: seq<real> := [0.85, 0.9, 0.95, 0.975, 0.99]

  /** The number of feature rows, `2 + 2|windows| + 2|alphas|`. */
  function FeatureCount(windows: nat, alphas: nat): nat {
    2 + 2 * windows + 2 * alphas
  }

  /** `np.std` as a column aggregate. */
  function StdAgg(sqrt: real -> real): seq<real> -> real {
    xs => Std(xs, sqrt)
  }

  predicate ValidWindows(windows: seq<nat>) {
    forall q :: 0 <= q < |windows| ==> windows[q] >= 1
  }

  /** `random_walk_ids`: `log(1 + t)` for `t` in `0 .. T-1`, the list repeated `N` times. */
  function IndexRow(t: nat, n: nat, log: real -> real): seq<real> {
    Concat(IndexBlocks(t, n, log))
  }

  function IndexBlocks(t: nat, n: nat, log: real -> real): (m: Matrix)
    ensures IsMatrix(m, n, t)
  {
    seq(n, _ => seq(t, k requires 0 <= k < t => log(1.0 + k as real)))
  }

  /** `window_means`, each transposed and flattened. */
  function WindowMeanRows(a: Matrix, n: nat, windows: seq<nat>): (rows: Matrix)
    requires IsMatrix(a, |a|, n) && ValidWindows(windows)
  {
    seq(|windows|, q requires 0 <= q < |windows| => EntityMajor(ApplyRolling(a, n, windows[q], Mean), n))
  }

  /** `window_stds`, each transposed and flattened. */
  function WindowStdRows(a: Matrix, n: nat, windows: seq<nat>, sqrt: real -> real): (rows: Matrix)
    requires IsMatrix(a, |a|, n) && ValidWindows(windows)
  {
    seq(|windows|, q requires 0 <= q < |windows| => EntityMajor(ApplyRolling(a, n, windows[q], StdAgg(sqrt)), n))
  }

  /** `step_means`, each transposed and flattened. */
  function StepMeanRows(a: Matrix, n: nat, alphas: seq<real>): (rows: Matrix)
    requires IsMatrix(a, |a|, n) && (|a| > 0 || |alphas| == 0)
  {
    seq(|alphas|, p requires 0 <= p < |alphas| => EntityMajor(StepMean(a, n, alphas[p], StepInit).value, n))
  }

  /** `step_stds`: the rolling std of each (untransposed) step mean, then transposed and flattened. */
  function StepStdRows(a: Matrix, n: nat, alphas: seq<real>, sqrt: real -> real): (rows: Matrix)
    requires IsMatrix(a, |a|, n) && (|a| > 0 || |alphas| == 0)
  {
    seq(|alphas|, p requires 0 <= p < |alphas| =>
      EntityMajor(ApplyRolling(StepMean(a, n, alphas[p], StepInit).value, n, StepStdWindow, StdAgg(sqrt)), n))
  }

  /** All feature rows in order, with `raw` as row 1. */
  function FeatureRows(a: Matrix, n: nat, windows: seq<nat>, alphas: seq<real>,
                       log: real -> real, sqrt: real -> real, raw: seq<real>): (rows: Matrix)
    requires IsMatrix(a, |a|, n) && ValidWindows(windows) && (|a| > 0 || |alphas| == 0)
  {
    [IndexRow(|a|, n, log), raw] + DerivedRows(a, n, windows, alphas, sqrt)
  }

  /** The rows computed from the results: every window mean, every window
      std, every step mean, every step std, in that order. */
  function DerivedRows(a: Matrix, n: nat, windows: seq<nat>, alphas: seq<real>, sqrt: real -> real): (rows: Matrix)
    requires IsMatrix(a, |a|, n) && ValidWindows(windows) && (|a| > 0 || |alphas| == 0)
  {
    WindowMeanRows(a, n, windows) + WindowStdRows(a, n, windows, sqrt)
    + StepMeanRows(a, n, alphas) + StepStdRows(a, n, alphas, sqrt)
  }

  /** Every feature row has `T * N` entries when `raw` does. */
  lemma FeatureRowsShape(a: Matrix, n: nat, windows: seq<nat>, alphas: seq<real>,
                         log: real -> real, sqrt: real -> real, raw: seq<real>)
    requires IsMatrix(a, |a|, n) && ValidWindows(windows) && (|a| > 0 || |alphas| == 0)
    requires |raw| == |a| * n
    ensures IsMatrix(FeatureRows(a, n, windows, alphas, log, sqrt, raw), FeatureCount(|windows|, |alphas|), |a| * n)
  {
    ConcatLength(IndexBlocks(|a|, n, log), n, |a|);
    forall q | 0 <= q < |windows|
      ensures |WindowMeanRows(a, n, windows)[q]| == |a| * n
      ensures |WindowStdRows(a, n, windows, sqrt)[q]| == |a| * n
    {
      EntityMajorLength(ApplyRolling(a, n, windows[q], Mean), |a|, n);
      EntityMajorLength(ApplyRolling(a, n, windows[q], StdAgg(sqrt)), |a|, n);
    }
    forall p | 0 <= p < |alphas|
      ensures |StepMeanRows(a, n, alphas)[p]| == |a| * n
      ensures |StepStdRows(a, n, alphas, sqrt)[p]| == |a| * n
    {
      var s := StepMean(a, n, alphas[p], StepInit).value;
      EntityMajorLength(s, |a|, n);
      EntityMajorLength(ApplyRolling(s, n, StepStdWindow, StdAgg(sqrt)), |a|, n);
    }
  }

  /** The long list the source builds before its reshape: the index row, the
      raw row, then every flattened group in order. */
  function FlatFeatures(a: Matrix, n: nat, windows: seq<nat>, alphas: seq<real>,
                        log: real -> real, sqrt: real -> real, raw: seq<real>): seq<real>
    requires IsMatrix(a, |a|, n) && ValidWindows(windows) && (|a| > 0 || |alphas| == 0)
  {
    IndexRow(|a|, n, log) + raw
    + (Concat(WindowMeanRows(a, n, windows)) + Concat(WindowStdRows(a, n, windows, sqrt))
       + Concat(StepMeanRows(a, n, alphas)) + Concat(StepStdRows(a, n, alphas, sqrt)))
  }

  /** The flat list is the row-major flattening of the feature rows. */
  lemma FlatFeaturesConcat(a: Matrix, n: nat, windows: seq<nat>, alphas: seq<real>,
                           log: real -> real, sqrt: real -> real, raw: seq<real>)
    requires IsMatrix(a, |a|, n) && ValidWindows(windows) && (|a| > 0 || |alphas| == 0)
    ensures FlatFeatures(a, n, windows, alphas, log, sqrt, raw) == Concat(FeatureRows(a, n, windows, alphas, log, sqrt, raw))
  {
    var x, y := IndexRow(|a|, n, log), raw;
    var wm, ws := WindowMeanRows(a, n, windows), WindowStdRows(a, n, windows, sqrt);
    var sm, ss := StepMeanRows(a, n, alphas), StepStdRows(a, n, alphas, sqrt);
    var d := DerivedRows(a, n, windows, alphas, sqrt);
    assert Concat([x, y]) == x + y by {
      assert [x, y][1..] == [y];
      assert [y][1..] == [];
      assert Concat([y]) == y + [];
      assert y + [] == y;
    }
    ConcatAppend([x, y], d);
    assert FeatureRows(a, n, windows, alphas, log, sqrt, raw) == [x, y] + d;
    assert Concat(d) == Concat(wm) + Concat(ws) + Concat(sm) + Concat(ss) by {
      ConcatAppend(wm, ws);
      ConcatAppend(wm + ws, sm);
      ConcatAppend(wm + ws + sm, ss);
    }
  }

  lemma ExactDivision(f: nat, x: nat)
    requires f > 0
    ensures (f * x) % f == 0 && (f * x) / f == x
  {
    var y := f * x;
    DivUnique(f, x, y / f, y % f);
  }

  /** Quotient and remainder are unique: `f*x == f*q + r` with `0 <= r < f` forces `q == x`. */
  lemma DivUnique(f: int, x: int, q: int, r: int)
    requires f > 0 && f * x == f * q + r && 0 <= r < f
    ensures q == x && r == 0
  {
    var d := x - q;
    assert f * d == r;
    if d >= 1 {
      MulAtLeast(f, d);
    }
  }

  lemma MulAtLeast(f: int, k: int)
    requires f >= 0 && k >= 1
    ensures f * k >= f
  {}

  /** The assembly shared by the as-written and the corrected layout; `raw`
      is the raw-outcome row. Fails exactly when a step mean is asked of an
      empty series; otherwise the shape is `[2 + 2|windows| + 2|alphas|, T*N]`. */
  function Assemble(a: Matrix, n: nat, windows: seq<nat>, alphas: seq<real>,
                    log: real -> real, sqrt: real -> real, raw: seq<real>): (r: Result<Matrix>)
    requires IsMatrix(a, |a|, n) && ValidWindows(windows) && |raw| == |a| * n
    ensures r.Ok? <==> (|a| > 0 || |alphas| == 0)
    ensures r.Err? ==> r.error == EmptySeries
    ensures r.Ok? ==> IsMatrix(r.value, FeatureCount(|windows|, |alphas|), |a| * n)
  {
    if |a| == 0 && |alphas| > 0 then Err(EmptySeries)
    else
      var f := FeatureCount(|windows|, |alphas|);
      var flat := FlatFeatures(a, n, windows, alphas, log, sqrt, raw);
      FeatureRowsShape(a, n, windows, alphas, log, sqrt, raw);
      FlatFeaturesConcat(a, n, windows, alphas, log, sqrt, raw);
      ConcatLength(FeatureRows(a, n, windows, alphas, log, sqrt, raw), f, |a| * n);
      ExactDivision(f, |a| * n);
      Ok(ReshapeRows(flat, f))
  }

  /** The source's `generate_X(games_results, windows, alphas)`, as written:
      row 1 is `games_results.flatten()`, in time-major order. */
  function GenerateX(a: Matrix, n: nat, windows: seq<nat>, alphas: seq<real>,
                     log: real -> real, sqrt: real -> real): (r: Result<Matrix>)
    requires IsMatrix(a, |a|, n) && ValidWindows(windows)
    ensures r.Ok? <==> (|a| > 0 || |alphas| == 0)
    ensures r.Err? ==> r.error == EmptySeries
    ensures r.Ok? ==> IsMatrix(r.value, FeatureCount(|windows|, |alphas|), |a| * n)
  {
    ConcatLength(a, |a|, n);
    Assemble(a, n, windows, alphas, log, sqrt, Concat(a))
  }

  /** `generate_X` with row 1 transposed like every other row, so that each
      column describes one team at one game. */
  function GenerateXAligned(a: Matrix, n: nat, windows: seq<nat>, alphas: seq<real>,
                            log: real -> real, sqrt: real -> real): (r: Result<Matrix>)
    requires IsMatrix(a, |a|, n) && ValidWindows(windows)
    ensures r.Ok? <==> (|a| > 0 || |alphas| == 0)
    ensures r.Ok? ==> IsMatrix(r.value, FeatureCount(|windows|, |alphas|), |a| * n)
  {
    EntityMajorLength(a, |a|, n);
    Assemble(a, n, windows, alphas, log, sqrt, EntityMajor(a, n))
  }

  /** The reshape hands back exactly the feature rows, in order. */
  lemma AssembleRows(a: Matrix, n: nat, windows: seq<nat>, alphas: seq<real>,
                     log: real -> real, sqrt: real -> real, raw: seq<real>)
    requires IsMatrix(a, |a|, n) && ValidWindows(windows) && |raw| == |a| * n
    requires |a| > 0 || |alphas| == 0
    ensures Assemble(a, n, windows, alphas, log, sqrt, raw).Ok?
    ensures Assemble(a, n, windows, alphas, log, sqrt, raw).value == FeatureRows(a, n, windows, alphas, log, sqrt, raw)
  {
    var f := FeatureCount(|windows|, |alphas|);
    var rows := FeatureRows(a, n, windows, alphas, log, sqrt, raw);
    FeatureRowsShape(a, n, windows, alphas, log, sqrt, raw);
    FlatFeaturesConcat(a, n, windows, alphas, log, sqrt, raw);
    ReshapeConcat(rows, f, |a| * n);
    ExactDivision(f, |a| * n);
  }

  /** The four derived groups sit at offsets `q`, `|windows| + q`,
      `2|windows| + p` and `2|windows| + |alphas| + p`. */
  lemma DerivedRowsGroups(a: Matrix, n: nat, windows: seq<nat>, alphas: seq<real>, sqrt: real -> real, q: nat, p: nat)
    requires IsMatrix(a, |a|, n) && ValidWindows(windows) && (|a| > 0 || |alphas| == 0)
    ensures |DerivedRows(a, n, windows, alphas, sqrt)| == 2 * |windows| + 2 * |alphas|
    ensures q < |windows| ==>
      DerivedRows(a, n, windows, alphas, sqrt)[q] == WindowMeanRows(a, n, windows)[q]
      && DerivedRows(a, n, windows, alphas, sqrt)[|windows| + q] == WindowStdRows(a, n, windows, sqrt)[q]
    ensures p < |alphas| ==>
      DerivedRows(a, n, windows, alphas, sqrt)[2 * |windows| + p] == StepMeanRows(a, n, alphas)[p]
      && DerivedRows(a, n, windows, alphas, sqrt)[2 * |windows| + |alphas| + p] == StepStdRows(a, n, alphas, sqrt)[p]
  {}

  /** The six row groups sit at their offsets: `0`, `1`, `2 + q`,
      `2 + |windows| + q`, `2 + 2|windows| + p`, `2 + 2|windows| + |alphas| + p`. */
  lemma FeatureRowsGroups(a: Matrix, n: nat, windows: seq<nat>, alphas: seq<real>,
                          log: real -> real, sqrt: real -> real, raw: seq<real>, q: nat, p: nat)
    requires IsMatrix(a, |a|, n) && ValidWindows(windows) && (|a| > 0 || |alphas| == 0)
    ensures |FeatureRows(a, n, windows, alphas, log, sqrt, raw)| == FeatureCount(|windows|, |alphas|)
    ensures FeatureRows(a, n, windows, alphas, log, sqrt, raw)[0] == IndexRow(|a|, n, log)
    ensures FeatureRows(a, n, windows, alphas, log, sqrt, raw)[1] == raw
    ensures q < |windows| ==>
      FeatureRows(a, n, windows, alphas, log, sqrt, raw)[2 + q] == WindowMeanRows(a, n, windows)[q]
      && FeatureRows(a, n, windows, alphas, log, sqrt, raw)[2 + |windows| + q] == WindowStdRows(a, n, windows, sqrt)[q]
    ensures p < |alphas| ==>
      FeatureRows(a, n, windows, alphas, log, sqrt, raw)[2 + 2 * |windows| + p] == StepMeanRows(a, n, alphas)[p]
      && FeatureRows(a, n, windows, alphas, log, sqrt, raw)[2 + 2 * |windows| + |alphas| + p] == StepStdRows(a, n, alphas, sqrt)[p]
  {
    DerivedRowsGroups(a, n, windows, alphas, sqrt, q, p);
  }

  /** Row 0 holds `log(1 + t)` at column `e*T + t`, and row 1 is `raw`. */
  lemma AssembleLeadingRows(a: Matrix, n: nat, windows: seq<nat>, alphas: seq<real>,
                            log: real -> real, sqrt: real -> real, raw: seq<real>, t: nat, e: nat)
    requires IsMatrix(a, |a|, n) && ValidWindows(windows) && |raw| == |a| * n
    requires t < |a| && e < n
    ensures Assemble(a, n, windows, alphas, log, sqrt, raw).Ok?
    ensures |Assemble(a, n, windows, alphas, log, sqrt, raw).value| == FeatureCount(|windows|, |alphas|)
    ensures 0 <= e * |a| + t < |Assemble(a, n, windows, alphas, log, sqrt, raw).value[0]|
      && Assemble(a, n, windows, alphas, log, sqrt, raw).value[0][e * |a| + t] == log(1.0 + t as real)
    ensures Assemble(a, n, windows, alphas, log, sqrt, raw).value[1] == raw
  {
    AssembleRows(a, n, windows, alphas, log, sqrt, raw);
    FeatureRowsGroups(a, n, windows, alphas, log, sqrt, raw, 0, 0);
    ConcatIndex(IndexBlocks(|a|, n, log), n, |a|, e, t);
  }

  /** Rows 0 and 1 of the matrix the source returns: column `e*T + t` of the
      index row holds `log(1 + t)`, but the raw outcome of team `e` at game
      `t` sits at column `t*N + e` of row 1. */
  lemma GenerateXLeadingRows(a: Matrix, n: nat, windows: seq<nat>, alphas: seq<real>,
                             log: real -> real, sqrt: real -> real, t: nat, e: nat)
    requires IsMatrix(a, |a|, n) && ValidWindows(windows) && t < |a| && e < n
    ensures GenerateX(a, n, windows, alphas, log, sqrt).Ok?
    ensures |GenerateX(a, n, windows, alphas, log, sqrt).value| >= 2
    ensures 0 <= e * |a| + t < |GenerateX(a, n, windows, alphas, log, sqrt).value[0]|
      && GenerateX(a, n, windows, alphas, log, sqrt).value[0][e * |a| + t] == log(1.0 + t as real)
    ensures 0 <= t * n + e < |GenerateX(a, n, windows, alphas, log, sqrt).value[1]|
      && GenerateX(a, n, windows, alphas, log, sqrt).value[1][t * n + e] == a[t][e]
  {
    var raw := Concat(a);
    assert |raw| == |a| * n by {
      ConcatLength(a, |a|, n);
    }
    var x := GenerateX(a, n, windows, alphas, log, sqrt);
    assert x == Assemble(a, n, windows, alphas, log, sqrt, raw);
    AssembleLeadingRows(a, n, windows, alphas, log, sqrt, raw, t, e);
    assert t * n + e < |raw| && raw[t * n + e] == a[t][e] by {
      ConcatIndex(a, |a|, n, t, e);
    }
    assert x.value[1] == raw;
  }

  /** Rows `2 + q` and `2 + |windows| + q` hold, at column `e*T + t`, the rolling
      mean and the rolling std of team `e` at game `t` over window `windows[q]`. */
  lemma AssembleWindowRows(a: Matrix, n: nat, windows: seq<nat>, alphas: seq<real>,
                           log: real -> real, sqrt: real -> real, raw: seq<real>, q: nat, t: nat, e: nat)
    requires IsMatrix(a, |a|, n) && ValidWindows(windows) && |raw| == |a| * n
    requires q < |windows| && t < |a| && e < n
    ensures Assemble(a, n, windows, alphas, log, sqrt, raw).Ok?
    ensures |Assemble(a, n, windows, alphas, log, sqrt, raw).value| == FeatureCount(|windows|, |alphas|)
    ensures 0 <= e * |a| + t < |Assemble(a, n, windows, alphas, log, sqrt, raw).value[2 + q]|
      && Assemble(a, n, windows, alphas, log, sqrt, raw).value[2 + q][e * |a| + t]
         == ApplyRolling(a, n, windows[q], Mean)[t][e]
    ensures 0 <= e * |a| + t < |Assemble(a, n, windows, alphas, log, sqrt, raw).value[2 + |windows| + q]|
      && Assemble(a, n, windows, alphas, log, sqrt, raw).value[2 + |windows| + q][e * |a| + t]
         == ApplyRolling(a, n, windows[q], StdAgg(sqrt))[t][e]
  {
    AssembleRows(a, n, windows, alphas, log, sqrt, raw);
    FeatureRowsGroups(a, n, windows, alphas, log, sqrt, raw, q, 0);
    EntityMajorIndex(ApplyRolling(a, n, windows[q], Mean), |a|, n, e, t);
    EntityMajorIndex(ApplyRolling(a, n, windows[q], StdAgg(sqrt)), |a|, n, e, t);
  }

  /** Rows `2 + 2|windows| + p` and `2 + 2|windows| + |alphas| + p` hold, at
      column `e*T + t`, the step mean with `alphas[p]` (prior 0.5) and its
      rolling std over half-width 10, for team `e` at game `t`. */
  lemma AssembleStepRows(a: Matrix, n: nat, windows: seq<nat>, alphas: seq<real>,
                         log: real -> real, sqrt: real -> real, raw: seq<real>, p: nat, t: nat, e: nat)
    requires IsMatrix(a, |a|, n) && ValidWindows(windows) && |raw| == |a| * n
    requires p < |alphas| && t < |a| && e < n
    ensures Assemble(a, n, windows, alphas, log, sqrt, raw).Ok?
    ensures |Assemble(a, n, windows, alphas, log, sqrt, raw).value| == FeatureCount(|windows|, |alphas|)
    ensures StepMean(a, n, alphas[p], StepInit).Ok?
    ensures 0 <= e * |a| + t < |Assemble(a, n, windows, alphas, log, sqrt, raw).value[2 + 2 * |windows| + p]|
      && Assemble(a, n, windows, alphas, log, sqrt, raw).value[2 + 2 * |windows| + p][e * |a| + t]
         == StepMean(a, n, alphas[p], StepInit).value[t][e]
    ensures 0 <= e * |a| + t < |Assemble(a, n, windows, alphas, log, sqrt, raw).value[2 + 2 * |windows| + |alphas| + p]|
      && Assemble(a, n, windows, alphas, log, sqrt, raw).value[2 + 2 * |windows| + |alphas| + p][e * |a| + t]
         == ApplyRolling(StepMean(a, n, alphas[p], StepInit).value, n, StepStdWindow, StdAgg(sqrt))[t][e]
  {
    var s := StepMean(a, n, alphas[p], StepInit).value;
    AssembleRows(a, n, windows, alphas, log, sqrt, raw);
    FeatureRowsGroups(a, n, windows, alphas, log, sqrt, raw, 0, p);
    EntityMajorIndex(s, |a|, n, e, t);
    EntityMajorIndex(ApplyRolling(s, n, StepStdWindow, StdAgg(sqrt)), |a|, n, e, t);
  }

  /** In the corrected layout the raw outcome of team `e` at game `t` sits at
      column `e*T + t`, the column every other row uses for that pair. */
  lemma GenerateXAlignedRawRow(a: Matrix, n: nat, windows: seq<nat>, alphas: seq<real>,
                               log: real -> real, sqrt: real -> real, t: nat, e: nat)
    requires IsMatrix(a, |a|, n) && ValidWindows(windows) && t < |a| && e < n
    ensures GenerateXAligned(a, n, windows, alphas, log, sqrt).Ok?
    ensures |GenerateXAligned(a, n, windows, alphas, log, sqrt).value| == FeatureCount(|windows|, |alphas|)
    ensures 0 <= e * |a| + t < |GenerateXAligned(a, n, windows, alphas, log, sqrt).value[0]|
      && GenerateXAligned(a, n, windows, alphas, log, sqrt).value[0][e * |a| + t] == log(1.0 + t as real)
    ensures 0 <= e * |a| + t < |GenerateXAligned(a, n, windows, alphas, log, sqrt).value[1]|
      && GenerateXAligned(a, n, windows, alphas, log, sqrt).value[1][e * |a| + t] == a[t][e]
  {
    EntityMajorLength(a, |a|, n);
    AssembleLeadingRows(a, n, windows, alphas, log, sqrt, EntityMajor(a, n), t, e);
    EntityMajorIndex(a, |a|, n, e, t);
  }

  /** Changing the raw row changes row 1 of the feature rows and nothing else. */
  lemma FeatureRowsRawOnly(a: Matrix, n: nat, windows: seq<nat>, alphas: seq<real>,
                           log: real -> real, sqrt: real -> real, raw: seq<real>, raw': seq<real>, k: nat)
    requires IsMatrix(a, |a|, n) && ValidWindows(windows) && (|a| > 0 || |alphas| == 0)
    requires k < FeatureCount(|windows|, |alphas|) && k != 1
    ensures |FeatureRows(a, n, windows, alphas, log, sqrt, raw)| == FeatureCount(|windows|, |alphas|)
    ensures |FeatureRows(a, n, windows, alphas, log, sqrt, raw')| == FeatureCount(|windows|, |alphas|)
    ensures FeatureRows(a, n, windows, alphas, log, sqrt, raw)[k] == FeatureRows(a, n, windows, alphas, log, sqrt, raw')[k]
  {
    DerivedRowsGroups(a, n, windows, alphas, sqrt, 0, 0);
  }

  /** The corrected layout differs from the as-written one in row 1 only. */
  lemma AlignedDiffersOnlyInRawRow(a: Matrix, n: nat, windows: seq<nat>, alphas: seq<real>,
                                   log: real -> real, sqrt: real -> real, k: nat)
    requires IsMatrix(a, |a|, n) && ValidWindows(windows) && (|a| > 0 || |alphas| == 0)
    requires k < FeatureCount(|windows|, |alphas|) && k != 1
    ensures GenerateX(a, n, windows, alphas, log, sqrt).Ok?
    ensures GenerateXAligned(a, n, windows, alphas, log, sqrt).Ok?
    ensures |GenerateX(a, n, windows, alphas, log, sqrt).value| == FeatureCount(|windows|, |alphas|)
    ensures GenerateXAligned(a, n, windows, alphas, log, sqrt).value[k] == GenerateX(a, n, windows, alphas, log, sqrt).value[k]
  {
    var raw, raw' := Concat(a), EntityMajor(a, n);
    assert |raw| == |a| * n by {
      ConcatLength(a, |a|, n);
    }
    assert |raw'| == |a| * n by {
      EntityMajorLength(a, |a|, n);
    }
    AssembleRows(a, n, windows, alphas, log, sqrt, raw);
    AssembleRows(a, n, windows, alphas, log, sqrt, raw');
    FeatureRowsRawOnly(a, n, windows, alphas, log, sqrt, raw, raw', k);
  }

  /** Whenever team 1's first outcome differs from team 0's second, the
      as-written matrix puts the wrong outcome in column 1: its row 0 says
      team 0 at game 1 (`log 2`), but its row 1 holds team 1 at game 0. With
      the three games `[[1, 0], [0.5, 0.5], [0, 1]]` between two teams,
      column 1 of row 1 holds 0 where 0.5 belongs. */
  lemma RawRowMisaligned(a: Matrix, n: nat, windows: seq<nat>, alphas: seq<real>,
                         log: real -> real, sqrt: real -> real)
    requires IsMatrix(a, |a|, n) && ValidWindows(windows) && |a| >= 2 && n >= 2
    requires a[0][1] != a[1][0]
    ensures GenerateX(a, n, windows, alphas, log, sqrt).Ok?
    ensures |GenerateX(a, n, windows, alphas, log, sqrt).value| >= 2
    ensures 1 < |GenerateX(a, n, windows, alphas, log, sqrt).value[0]|
      && GenerateX(a, n, windows, alphas, log, sqrt).value[0][1] == log(1.0 + 1 as real)
    ensures 1 < |GenerateX(a, n, windows, alphas, log, sqrt).value[1]|
      && GenerateX(a, n, windows, alphas, log, sqrt).value[1][1] != a[1][0]
  {
    GenerateXLeadingRows(a, n, windows, alphas, log, sqrt, 1, 0);
    GenerateXLeadingRows(a, n, windows, alphas, log, sqrt, 0, 1);
  }

  /** The three games `[[1, 0], [0.5, 0.5], [0, 1]]` between two teams: column
      1 of row 1 holds 0, the outcome of team 1 at game 0, where the outcome of
      team 0 at game 1, 0.5, belongs. */
  lemma RawRowMisalignedExample(log: real -> real, sqrt: real -> real)
    ensures GenerateX([[1.0, 0.0], [0.5, 0.5], [0.0, 1.0]], 2, [], [], log, sqrt).Ok?
    ensures |GenerateX([[1.0, 0.0], [0.5, 0.5], [0.0, 1.0]], 2, [], [], log, sqrt).value| >= 2
    ensures 1 < |GenerateX([[1.0, 0.0], [0.5, 0.5], [0.0, 1.0]], 2, [], [], log, sqrt).value[1]|
      && GenerateX([[1.0, 0.0], [0.5, 0.5], [0.0, 1.0]], 2, [], [], log, sqrt).value[1][1] != 0.5
  {
    var a := [[1.0, 0.0], [0.5, 0.5], [0.0, 1.0]];
    assert IsMatrix(a, |a|, 2);
    RawRowMisaligned(a, 2, [], [], log, sqrt);
  }

  /** With the default windows and alphas a non-empty series yields 22 feature rows. */
  lemma DefaultShape(a: Matrix, n: nat, log: real -> real, sqrt: real -> real)
    requires IsMatrix(a, |a|, n) && |a| > 0
    ensures ValidWindows(DefaultWindows)
    ensures GenerateX(a, n, DefaultWindows, DefaultAlphas, log, sqrt).Ok?
    ensures IsMatrix(GenerateX(a, n, DefaultWindows, DefaultAlphas, log, sqrt).value, 22, |a| * n)
  {}
}
