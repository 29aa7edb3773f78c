# rlcs_team_creator: the numeric kernel of `Elo/utils.py`, in Dafny

The repository rates Rocket League teams. `Elo/utils.py` holds the numeric
kernel behind its training data. This project models that kernel and proves
properties of it:

- `bound_array` folds an unbounded value into an interval `[lo, hi]`. It works
  like a ball bouncing between two walls, so the result is a triangle wave.
  Module `Reflect`, file `reflect.dfy`.
- `non_stationary_bounded_random_walk` is a random walk whose per-step
  volatility is itself a bounded random walk. Both walks are folded by
  `bound_array`. Module `Walk`, file `walk.dfy`.
- `apply_rolling_function` applies a centred, look-ahead rolling aggregate
  (`np.mean`, `np.std`) to every column of a `[T, N]` array. Module `Rolling`,
  file `rolling.dfy`.
- `step_mean` is an exponentially weighted moving average down the rows,
  seeded from a prior. Module `Smoothing`, file `stepmean.dfy`.
- `generate_X` assembles the feature matrix: a log-index row, the raw results,
  and the rolling and step statistics. The result has
  `2 + 2|windows| + 2|alphas|` rows and `T*N` columns. Module `Features`,
  file `features.dfy`.

Supporting modules:

- `Matrix` (`matrix.dfy`) models arrays as sequences of rows. It also models
  the numpy shape operations used above: `.T`, `flatten` and
  `reshape([rows, -1])`. It holds the per-column prefix sum `RunningSum`; the
  array-level `cumsum(0)` built on it is `Walk.CumSum`.
- `Errors` (`errors.dfy`) holds the failure the model returns: asking for a
  step mean of an empty series. The kernel can also raise `ValueError` from
  `np.random.normal` for a negative scale. The model does not return that
  error (see "## Left out").

Values are mathematical reals. Where a random draw or a transcendental
function appears, it is a parameter:

- `np.random.normal(loc, scale)` is `loc + scale * z`. The caller supplies `z`
  as a matrix of standard-normal values.
- `np.log` and the square root inside `np.std` are the functions `log` and
  `sqrt`.

## Model

| member | source | states |
|---|---|---|
| Matrix.Concat | Elo/utils.py:128-132 | numpy `flatten`: the rows laid end to end, first row first (row-major) |
| Matrix.Reshape | Elo/utils.py:133 | splits `rows*cols` entries into `rows` consecutive rows of `cols` entries each; the result is a `[rows, cols]` array |
| Matrix.ReshapeRows | Elo/utils.py:133 | `reshape([rows, -1])`: defined when the length is a multiple of `rows` (numpy raises otherwise) and infers `length / rows` columns |
| Matrix.EntityMajor | Elo/utils.py:114-117 | `.T` followed by `flatten`: the transposed `[T, N]` result laid out row by row, so each team's series is contiguous |
| Matrix.RunningSum | Elo/utils.py:69-70 | one `cumsum(0)` entry: the sum of the first `i + 1` entries of a column |
| Matrix.Transpose | Elo/utils.py:115 | `.T` of a `[rows, cols]` array has shape `[cols, rows]`, and entry `(j, i)` is entry `(i, j)` of the input |
| Matrix.ConcatIndex | Elo/utils.py:128 | `flatten` of a `[rows, cols]` array puts entry `(r, c)` at position `r*cols + c` |
| Matrix.EntityMajorIndex | Elo/utils.py:114-115 | flattening a transposed `[T, N]` result puts team `e` at game `t` at position `e*T + t` |
| Matrix.ConcatAppend | Elo/utils.py:126-132 | concatenating flattened pieces equals flattening the stacked rows |
| Matrix.ReshapeConcat | Elo/utils.py:133 | reshaping a row-major flattening back to `[rows, cols]` restores every row |
| Matrix.ConcatLength | Elo/utils.py:128 | a flattened `[rows, cols]` array has `rows*cols` entries |
| Reflect.SignedCrosses | Elo/utils.py:52-53 | `signed_crosses`: `floor((v - lo) / (hi - lo))`, the number of corridor widths `v` lies past `lo`, rounded down |
| Reflect.Crosses | Elo/utils.py:54-55 | `crosses`: the absolute value of the signed count |
| Reflect.Fold | Elo/utils.py:57-62 | the three updates for signed count `k` and `c = |k|`: `v*(-1)^c + k*w*(-1)^(c+1) + (lo+hi)*0^((c+1)%2)` |
| Reflect.IntPow | Elo/utils.py:58-62 | the integer `**` of lines 58, 61 and 62: `base` multiplied by itself `e` times, `1` when `e` is 0 |
| Reflect.NegOnePow | Elo/utils.py:58 | `(-1) ** c` is `1` for even `c` and `-1` for odd `c` |
| Reflect.ZeroPow | Elo/utils.py:62 | `0 ** e` is `1` when `e` is 0 and `0` otherwise |
| Reflect.FloorBracket | Elo/utils.py:52-53 | the floored crossing count `k` places `v` in `[lo + k*w, lo + (k+1)*w)` |
| Reflect.CrossingsInRange | Elo/utils.py:52-55 | a value in `[lo, hi)` has crossing count 0, and `hi` itself has count 1 |
| Reflect.FoldParity | Elo/utils.py:57-62 | the three update steps translate `v` down by `k` widths when the count is even, and mirror it to `lo + hi + k*w - v` when it is odd |
| Reflect.Bound | Elo/utils.py:48-64 | the result lies in `[lo, hi]`; a value already inside is returned unchanged; after an even count the result is `lo` plus the offset within the corridor, after an odd count it is `hi` minus that offset |
| Reflect.BoundArray | Elo/utils.py:48-64 | elementwise: same shape, every entry in `[lo, hi]`, in-range entries unchanged |
| Reflect.BoundIdempotent | Elo/utils.py:48-64 | bounding twice is the same as bounding once |
| Reflect.FoldContinuity | Elo/utils.py:60-62 | at every wall `lo + k*w`, the folds for counts `k` and `k - 1` agree, so the repositioning leaves no jump |
| Reflect.LatticeDistance | Elo/utils.py:48-64 | `Bound(v) - lo` is the distance from `v - lo` to one multiple of `2w` |
| Reflect.LatticeDistanceMinimal | Elo/utils.py:48-64 | no multiple of `2w` is closer to `v - lo` than that one |
| Reflect.BoundLipschitz | Elo/utils.py:48-64 | `|Bound(x) - Bound(y)| <= |x - y|`, so the fold is continuous everywhere |
| Reflect.BoundExamples | Elo/utils.py:48-64 | on `[0, 1]`, the inputs 1.5, -0.5 and 2.5 all map to 0.5 |
| Walk.Normal | Elo/utils.py:69-70 | one `np.random.normal(loc, scale)` draw from the standard value `z`: `loc + scale*z` |
| Walk.VolatilityIncrements | Elo/utils.py:69-70 | the first draw: a `[T, N]` array whose entry `(i, j)` has mean `drift` and scale `std` |
| Walk.CumSum | Elo/utils.py:69-70 | `cumsum(0)` keeps the shape, and entry `(i, j)` is the sum of column `j` over rows `0..i` |
| Walk.Volatility | Elo/utils.py:69-71 | every volatility entry is `bound_array` of the absolute value of the running sum of the first draw plus `std`, and lies in `std_bounds` |
| Walk.WalkIncrements | Elo/utils.py:74-75 | the second draw: a `[T, N]` array whose entry `(i, j)` has mean `drift` and the per-entry scale `std_array[i][j]` |
| Walk.DefaultScalesNonnegative | Elo/utils.py:67-75 | under the defaults, the first draw's scale `std` and every entry of the second draw's scale are non-negative, so `np.random.normal` does not raise; the default walk lies in `[0, 1]` |
| Walk.BoundedRandomWalk | Elo/utils.py:67-78 | the walk has the shape of the draws; every entry lies in `bounds` and equals `bound_array` of the running sum of the second draw (scaled by the volatility) plus `initial` |
| Rolling.Mean | Elo/utils.py:115 | `np.mean`: the sum divided by the count (0 on an empty sequence, see "## Left out") |
| Rolling.Variance | Elo/utils.py:117 | the population variance (`ddof = 0`): the mean squared deviation from the mean |
| Rolling.Std | Elo/utils.py:117 | `np.std`: the caller's `sqrt` of the population variance; also used for the step stds at line 124 |
| Rolling.WindowStart | Elo/utils.py:89 | `max(0, i - window)`, the first row of the slice |
| Rolling.WindowEnd | Elo/utils.py:89 | `min(shape[0], i + window)`, the exclusive end of the slice |
| Rolling.Window | Elo/utils.py:87-89 | for `w >= 1` the slice for row `i` is non-empty, holds row `i`, has at most `2w` rows, starts at row `i - w` clipped to 0, ends at row `i + w - 1` clipped to `T - 1`, and is the whole array when `w >= T` |
| Rolling.ApplyRolling | Elo/utils.py:83-91 | the result has the input's shape `[T, N]` |
| Rolling.RollingColumnLocal | Elo/utils.py:88-89 | column `j` of the result depends on column `j` of the input alone, so columns never mix |
| Rolling.RollingWholeSeries | Elo/utils.py:87-89 | with `w >= T`, every row holds the aggregate of the whole column |
| Rolling.RollingMeanGlobal | Elo/utils.py:83-91 | with `np.mean` and `w >= T`, every row is the column's global mean |
| Rolling.MeanBounds | Elo/utils.py:114-115 | the mean of a non-empty column whose values lie in `[lo, hi]` lies in `[lo, hi]` |
| Rolling.RollingMeanBounds | Elo/utils.py:83-91 | a rolling mean of a column that stays in `[lo, hi]` stays in `[lo, hi]` |
| Rolling.VarianceNonnegative | Elo/utils.py:116-117 | the quantity under the square root of `np.std` is never negative |
| Smoothing.Blend | Elo/utils.py:99 | one smoothing step for every column: `alpha*prev[j] + (1-alpha)*cur[j]` |
| Smoothing.Seed | Elo/utils.py:96 | the seed row: `alpha*init` broadcast over the `N` columns, blended with `array[0]` |
| Smoothing.Smooth | Elo/utils.py:96-99 | rows `0..t-1`: row 0 is `alpha*init + (1-alpha)*a[0]`, and each later row is `alpha` times the row before plus `(1-alpha)` times the observation |
| Smoothing.StepMean | Elo/utils.py:94-101 | fails exactly on an empty series; otherwise it has the input's shape and satisfies the seed equation and the recurrence |
| Smoothing.StepMeanInPlace | Elo/utils.py:94-101 | the in-place loop (seed broadcast to every row, then rows overwritten in order) computes exactly `StepMean` |
| Smoothing.SmoothRecurrence | Elo/utils.py:98-99 | one instance of the recurrence at row `i`, column `j` |
| Smoothing.DiscountedSnoc | Elo/utils.py:98-99 | appending an observation multiplies the weight of every earlier one by `alpha` |
| Smoothing.ClosedFormSeed | Elo/utils.py:96 | the closed form `alpha^(i+1)*init + (1-alpha)*sum alpha^(i-k)*a[k]` satisfies the seed equation |
| Smoothing.ClosedFormStep | Elo/utils.py:98-99 | the closed form satisfies the recurrence |
| Smoothing.SmoothClosedForm | Elo/utils.py:94-101 | every entry of the recurrence equals the closed form |
| Smoothing.StepMeanClosedForm | Elo/utils.py:94-101 | every entry of the step mean equals the closed form |
| Smoothing.SmoothBounds | Elo/utils.py:94-101 | with `0 <= alpha <= 1`, if the prior and the column lie in `[lo, hi]` then every smoothed entry does |
| Smoothing.StepMeanBounds | Elo/utils.py:94-101 | the same bound for the step mean: every step is a convex combination |
| Features.IndexRow | Elo/utils.py:107-108 | `random_walk_ids`: `log(1 + t)` for `t` in `0 .. T-1`, that list repeated `N` times |
| Features.FlatFeatures | Elo/utils.py:126-132 | the long list: the index row, the raw row, then the flattened window means, window stds, step means and step stds |
| Features.FeatureCount | Elo/utils.py:133 | the row count `2 + 2 * len(windows) + 2 * len(alphas)` passed to `reshape` |
| Features.IndexBlocks | Elo/utils.py:107-108 | `list(range(T)) * N` as `N` blocks, each `log(1 + t)` for `t` in `0 .. T-1` |
| Features.StdAgg | Elo/utils.py:117 | `np.std` passed as `func`, as at lines 117 and 124: `Std` of one column of the window |
| Features.WindowMeanRows | Elo/utils.py:111-115 | `window_means`: for each window, the rolling mean transposed and flattened, in the order of `windows` (flattened at line 129) |
| Features.WindowStdRows | Elo/utils.py:111-117 | `window_stds`: for each window, the rolling `np.std` transposed and flattened, in the order of `windows` (flattened at line 130) |
| Features.StepMeanRows | Elo/utils.py:120-125 | `step_means`: for each alpha, the step mean with prior 0.5, transposed and flattened (flattened at line 131) |
| Features.StepStdRows | Elo/utils.py:120-125 | `step_stds`: for each alpha, the half-width-10 rolling `np.std` of the untransposed step mean, transposed and flattened (flattened at line 132) |
| Features.DerivedRows | Elo/utils.py:129-132 | the stacking order: every window mean, every window std, every step mean, every step std |
| Features.FeatureRows | Elo/utils.py:126-132 | all feature rows: the index row, the raw row, then the derived rows |
| Features.FeatureRowsShape | Elo/utils.py:106-133 | there are `2 + 2|windows| + 2|alphas|` feature rows, each with `T*N` entries |
| Features.FlatFeaturesConcat | Elo/utils.py:126-132 | the long list the source concatenates is the row-major flattening of the feature rows |
| Features.ExactDivision | Elo/utils.py:133 | `reshape([f, -1])` of `f*T*N` entries infers exactly `T*N` columns |
| Features.Assemble | Elo/utils.py:104-135 | fails only when there are alphas and the series is empty (the step mean's error); otherwise the shape is `[2 + 2|windows| + 2|alphas|, T*N]` |
| Features.GenerateX | Elo/utils.py:104-135 | the source as written, with the same failure condition and shape |
| Features.GenerateXAligned | Elo/utils.py:104-135 | the corrected layout, with the same failure condition and shape |
| Features.AssembleRows | Elo/utils.py:126-133 | the reshape returns exactly the feature rows, in order |
| Features.DerivedRowsGroups | Elo/utils.py:129-132 | the derived rows are grouped as all window means, then all window stds, then all step means, then all step stds |
| Features.FeatureRowsGroups | Elo/utils.py:126-133 | row 0 is the index row, row 1 the raw row, and the four groups start at `2`, `2 + |windows|`, `2 + 2|windows|` and `2 + 2|windows| + |alphas|` |
| Features.AssembleLeadingRows | Elo/utils.py:107-108 | row 0 holds `log(1 + t)` at column `e*T + t`, and row 1 is the raw row |
| Features.GenerateXLeadingRows | Elo/utils.py:106-128 | in the source as written, row 0 holds `log(1 + t)` at column `e*T + t`, but row 1 holds team `e` at game `t` at column `t*N + e` |
| Features.AssembleWindowRows | Elo/utils.py:113-117 | rows `2 + q` and `2 + |windows| + q` hold, at column `e*T + t`, the rolling mean and the rolling std over `windows[q]` for team `e` at game `t` |
| Features.AssembleStepRows | Elo/utils.py:122-125 | rows `2 + 2|windows| + p` and `2 + 2|windows| + |alphas| + p` hold, at column `e*T + t`, the step mean for `alphas[p]` (prior 0.5) and its rolling std over half-width 10 |
| Features.GenerateXAlignedRawRow | Elo/utils.py:128 | in the corrected layout, row 1 holds team `e` at game `t` at column `e*T + t`, like every other row |
| Features.FeatureRowsRawOnly | Elo/utils.py:126-133 | changing the raw row changes row 1 and no other row |
| Features.AlignedDiffersOnlyInRawRow | Elo/utils.py:128 | the corrected layout agrees with the source as written on every row except row 1 |
| Features.RawRowMisaligned | Elo/utils.py:128 | whenever `a[0][1] != a[1][0]`, column 1 of row 1 in the source as written does not hold team 0 at game 1, although row 0 says it does |
| Features.RawRowMisalignedExample | Elo/utils.py:128 | for the three games `[[1, 0], [0.5, 0.5], [0, 1]]`, column 1 of row 1 does not hold 0.5 |
| Features.DefaultShape | Elo/utils.py:104 | with the default windows `[5, 10, 20, 50, 100]` and alphas `[0.85, 0.9, 0.95, 0.975, 0.99]`, a non-empty series yields 22 rows of `T*N` columns |

## Left out

- The rest of the repository is not part of this model. That covers fetching
  match data, the database upload scripts, the JavaScript writer and plotting
  helpers in `Elo/utils.py`, and the Elo training itself.
- Floating point is not modelled. Values are exact reals, so rounding, NaN and
  infinities do not arise.
- `np.random.normal` is not modelled as a distribution. The standard-normal
  values are inputs, so the model states what the walk is for any draws, not
  how the draws are distributed.
- `np.log` and the square root inside `np.std` are uninterpreted parameters.
  The model proves where their results go, not their values.
- `size` may have any number of dimensions in the source. The walk is modelled
  for a two-dimensional `[T, N]` shape, the form of the default
  `size = [1000, 1]` (Elo/utils.py:67).
- Reflect.SignedCrosses: `astype(int)` stores the count in a fixed-width
  integer. That is 64-bit on most platforms and 32-bit on Windows with
  NumPy 1.x. The model uses an unbounded integer. It does not model the
  overflow for values more than about `9.2e18` widths from `lo` (64-bit), or
  about `2.1e9` widths (32-bit).
- Reflect.Bound: requires `lo < hi`. With `lo == hi` the source divides by
  zero. With `lo > hi` it folds with a negative width; the model does not
  cover that case.
- Rolling.ApplyRolling: requires `window >= 1`. With `window == 0` every
  slice is empty and numpy returns NaN with a warning. With a negative
  `window = -w`, a row `i < w` gets a negative slice stop, which Python
  counts from the end of the array; a row `i >= w` gets a start `i + w` above
  its stop `i - w`, so its slice is empty and numpy returns NaN. None of these
  cases is modelled.
- Rolling.Mean: returns 0 on an empty sequence where `np.mean` returns NaN.
  Windows of at least one row never hand it an empty sequence.
- Walk.BoundedRandomWalk: numpy raises `ValueError` for a negative `scale`.
  That happens in two places. The first draw (Elo/utils.py:69-70) raises
  whenever `std < 0`. The second draw (Elo/utils.py:74-75) raises when a
  volatility entry is below 0, which can happen only when `std_bounds.lo < 0`.
  The defaults `std = 0.001` and `std_bounds = [0, 0.05]` avoid both
  (`Walk.DefaultScalesNonnegative`). For a
  negative `std` or for bounds reaching below 0, the model computes the walk
  anyway and does not return the error.
- `astype(int)` on an array that already holds integers, and the dtype of
  `games_results`, are not modelled. The results are reals throughout.

### Edge behaviour of the code that the model keeps

- With `T == 0`, `apply_rolling_function` loops zero times and returns an
  empty array; it does not fail.
- Rows are grouped as all window means, then all window stds. They are not
  laid out as a (mean, std) pair per window.

## Findings

| source | as written | input that shows it | evidently intended | confidence | as-written member | corrected member |
|---|---|---|---|---|---|---|
| Elo/utils.py:128 | row 1 is `games_results.flatten()`. It is time-major: team `e` at game `t` sits at column `t*N + e`. Row 0 and every derived row are entity-major: column `e*T + t` | `games_results = [[1, 0], [0.5, 0.5], [0, 1]]` (T = 3, N = 2) with empty `windows` and `alphas`. Column 1 of row 0 is `log 2` (team 0, game 1), but row 1 holds 0 (team 1, game 0) there instead of 0.5 | flatten the transpose, as every other row does, so that each column describes one team at one game | medium, not executed | Features.RawRowMisaligned | Features.GenerateXAlignedRawRow |
