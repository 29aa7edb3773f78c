/** `bound_array`: folds an unbounded real into a closed interval with a
    triangle-wave "bounce", as if the value were a ball travelling between two
    walls `w = hi - lo` apart. */
module Reflect {
  import opened Matrix

  /** The interval `[lo, hi]`, passed in the source as the list `[lo, hi]`. */
  datatype Bounds = Bounds(lo: real, hi: real) {
    /** The source never checks this; with `lo == hi` it divides by zero. */
    predicate Valid() { lo < hi }

    function Width(): real { hi - lo }

    predicate Contains(x: real) { lo <= x <= hi }
  }

  /** Integer power, as numpy evaluates `(-1) ** c` and `0 ** e` on integer arrays. */
  function IntPow(base: int, e: nat): int {
    if e == 0 then 1 else base * IntPow(base, e - 1)
  }

  lemma {:induction false} NegOnePow(e: nat)
    ensures IntPow(-1, e) == if e % 2 == 0 then 1 else -1
  {
    if e > 0 {
      NegOnePow(e - 1);
    }
  }

  lemma ZeroPow(e: nat)
    ensures IntPow(0, e) == if e == 0 then 1 else 0
  {}

  /** `signed_crosses`: how many corridor widths `v` lies past `lo`, rounded down. */
  function SignedCrosses(v: real, b: Bounds): int
    requires b.Valid()
  {
    ((v - b.lo) / b.Width()).Floor
  }

  /** `crosses`: the absolute value of the signed count. */
  function Crosses(k: int): nat {
    if k < 0 then -k else k
  }

  /** The three update steps of `bound_array` for a given signed crossing count `k`:
      reorient by `(-1)^c`, shift by `w*k*(-1)^(c+1)`, and add `lo + hi` times
      `0^((c+1) % 2)`, where `c = |k|`. */
  function Fold(v: real, b: Bounds, k: int): real {
    var c := Crosses(k);
    v * (IntPow(-1, c) as real)
    + (k as real) * b.Width() * (IntPow(-1, c + 1) as real)
    + (b.lo + b.hi) * (IntPow(0, (c + 1) % 2) as real)
  }

  /** An even crossing count translates `v` down by `k` widths; an odd one
      mirrors it, so the powers in `Fold` select between two affine maps. */
  lemma FoldParity(v: real, b: Bounds, k: int)
    ensures Crosses(k) % 2 == 0 ==> Fold(v, b, k) == v - (k as real) * b.Width()
    ensures Crosses(k) % 2 == 1 ==> Fold(v, b, k) == b.lo + b.hi + (k as real) * b.Width() - v
  {
    var c := Crosses(k);
    NegOnePow(c);
    NegOnePow(c + 1);
    ZeroPow((c + 1) % 2);
  }

  /** The floor places `v` in the `k`-th corridor: `lo + k*w <= v < lo + (k+1)*w`. */
  lemma FloorBracket(v: real, b: Bounds)
    requires b.Valid()
    ensures var k := SignedCrosses(v, b) as real;
      b.lo + k * b.Width() <= v < b.lo + k * b.Width() + b.Width()
  {
    FloorScale(v - b.lo, b.Width());
  }

  /** `floor(u / w) * w <= u < (floor(u / w) + 1) * w` for a positive `w`. */
  lemma FloorScale(u: real, w: real)
    requires w > 0.0
    ensures var k := (u / w).Floor as real; k * w <= u < k * w + w
  {
    var q := u / w;
    var k := q.Floor as real;
    assert q * w == u;
    MulNonneg(q - k, w);
    MulPos(k + 1.0 - q, w);
  }

  lemma MulPos(x: real, y: real)
    requires x > 0.0 && y > 0.0
    ensures x * y > 0.0
  {}

  /** Position of `v` within its corridor, in `[0, w)`. */
  function Offset(v: real, b: Bounds): (r: real)
    requires b.Valid()
    ensures 0.0 <= r < b.Width()
  {
    FloorBracket(v, b);
    v - b.lo - (SignedCrosses(v, b) as real) * b.Width()
  }

  /** The source's `bound_array` on one element. */
  function Bound(v: real, b: Bounds): (r: real)
    requires b.Valid()
    ensures b.Contains(r)
    ensures b.Contains(v) ==> r == v
    ensures Crosses(SignedCrosses(v, b)) % 2 == 0 ==> r == b.lo + Offset(v, b)
    ensures Crosses(SignedCrosses(v, b)) % 2 == 1 ==> r == b.hi - Offset(v, b)
  {
    var k := SignedCrosses(v, b);
    FoldParity(v, b, k);
    CrossingsInRange(v, b);
    FloorBracket(v, b);
    AffineCases(v, b, (k as real) * b.Width());
    Fold(v, b, k)
  }

  /** Translating `v` down by `s`, or mirroring it about `(lo + hi + s) / 2`,
      lands in the interval when `v - s` lies in `[lo, hi)`. */
  lemma AffineCases(v: real, b: Bounds, s: real)
    requires b.lo + s <= v < b.lo + s + b.Width()
    ensures b.Contains(v - s) && b.Contains(b.lo + b.hi + s - v)
  {}

  /** `bound_array` applied elementwise to an array of any (row) shape. */
  function BoundArray(a: Matrix, b: Bounds): (r: Matrix)
    requires b.Valid()
    ensures |r| == |a|
    ensures forall i :: 0 <= i < |a| ==> |r[i]| == |a[i]|
    ensures forall i, j :: 0 <= i < |a| && 0 <= j < |a[i]| ==> b.Contains(r[i][j])
    ensures forall i, j :: 0 <= i < |a| && 0 <= j < |a[i]| && b.Contains(a[i][j]) ==> r[i][j] == a[i][j]
  {
    seq(|a|, i requires 0 <= i < |a| =>
      seq(|a[i]|, j requires 0 <= j < |a[i]| => Bound(a[i][j], b)))
  }

  lemma ScaleMono(w: real, k: int, m: int)
    requires w > 0.0 && k >= m
    ensures (k as real) * w >= (m as real) * w
  {
    MulNonneg((k - m) as real, w);
  }

  lemma ScaleAtMost(w: real, k: int)
    requires w > 0.0 && k <= -1
    ensures (k as real) * w <= -w
  {
    MulNonneg((-k - 1) as real, w);
    assert (k as real) * w == -(((-k - 1) as real) * w) - w;
  }

  /** Inside the interval there is no crossing, except at `hi` itself, which is
      reached with exactly one crossing (`k = 1`). */
  lemma CrossingsInRange(v: real, b: Bounds)
    requires b.Valid()
    ensures b.lo <= v < b.hi ==> SignedCrosses(v, b) == 0
    ensures v == b.hi ==> SignedCrosses(v, b) == 1
  {
    var k := SignedCrosses(v, b);
    var w := b.Width();
    FloorBracket(v, b);
    if b.Contains(v) {
      if k >= 2 {
        ScaleMono(w, k, 2);
        assert false;
      } else if k <= -1 {
        ScaleAtMost(w, k);
        assert false;
      }
      if v < b.hi && k == 1 {
        assert false;
      }
    }
  }

  /** Bounding is idempotent: a second application changes nothing. */
  lemma BoundIdempotent(v: real, b: Bounds)
    requires b.Valid()
    ensures Bound(Bound(v, b), b) == Bound(v, b)
  {
  }

  /** Continuity at the walls: on the boundary point `lo + k*w` the fold for
      crossing count `k` and the fold for `k - 1` agree, so the piecewise map
      has no jump where the crossing count changes. */
  lemma FoldContinuity(b: Bounds, k: int)
    ensures Fold(b.lo + (k as real) * b.Width(), b, k) == Fold(b.lo + (k as real) * b.Width(), b, k - 1)
  {
    var v := b.lo + (k as real) * b.Width();
    FoldParity(v, b, k);
    FoldParity(v, b, k - 1);
    assert Crosses(k) % 2 != Crosses(k - 1) % 2;
  }

  /** The wall count used by `LatticeDistance`: the nearest multiple of `2w` below or above. */
  function NearestWall(v: real, b: Bounds): int
    requires b.Valid()
  {
    (SignedCrosses(v, b) + 1) / 2
  }

  /** Distance from `v - lo` to the multiple `2*w*m` of the doubled width. */
  function WallDistance(v: real, b: Bounds, m: int): real {
    Abs(v - b.lo - 2.0 * b.Width() * (m as real))
  }

  /** `Bound(v) - lo` is the distance from `v - lo` to one multiple of `2w`. */
  lemma {:induction false} LatticeDistance(v: real, b: Bounds)
    requires b.Valid()
    ensures Bound(v, b) - b.lo == WallDistance(v, b, NearestWall(v, b))
  {
    var k := SignedCrosses(v, b);
    var m := NearestWall(v, b);
    var w := b.Width();
    var r := Offset(v, b);
    if Crosses(k) % 2 == 0 {
      assert k == 2 * m;
      assert v - b.lo - 2.0 * w * (m as real) == r;
    } else {
      assert k == 2 * m - 1;
      assert v - b.lo - 2.0 * w * (m as real) == r - w;
    }
  }

  /** ... and no multiple of `2w` is closer. */
  lemma {:induction false} LatticeDistanceMinimal(v: real, b: Bounds, n: int)
    requires b.Valid()
    ensures Bound(v, b) - b.lo <= WallDistance(v, b, n)
  {
    var k := SignedCrosses(v, b);
    var r := Offset(v, b);
    WallShift(v - b.lo, r, b.Width(), k, n);
  }

  /** The step of `LatticeDistanceMinimal` over plain numbers: an offset
      `r = u - k*w` in `[0, w)` is no further from the nearest wall than `u`
      is from the multiple `2*w*n`, on the side the parity of `k` selects. */
  lemma WallShift(u: real, r: real, w: real, k: int, n: int)
    requires 0.0 <= r < w && r == u - (k as real) * w
    ensures Crosses(k) % 2 == 0 ==> Abs(u - 2.0 * w * (n as real)) >= r
    ensures Crosses(k) % 2 == 1 ==> Abs(u - 2.0 * w * (n as real)) >= w - r
  {
    var e := k - 2 * n;
    assert u - 2.0 * w * (n as real) == r + (e as real) * w;
    if Crosses(k) % 2 == 0 {
      EvenShiftDistance(r, w, e);
    } else {
      OddShiftDistance(r, w, e);
    }
  }

  /** Shifting an offset `r` in `[0, w)` by an even number of widths never brings it closer to 0. */
  lemma EvenShiftDistance(r: real, w: real, e: int)
    requires 0.0 <= r < w && e % 2 == 0
    ensures Abs(r + (e as real) * w) >= r
  {
    if e >= 2 {
      ScaleMono(w, e, 2);
    } else if e <= -2 {
      ScaleMono(w, -2, e);
    }
  }

  /** Shifting by an odd number of widths keeps it at least `w - r` from 0. */
  lemma OddShiftDistance(r: real, w: real, e: int)
    requires 0.0 <= r < w && e % 2 == 1
    ensures Abs(r + (e as real) * w) >= w - r
  {
    if e >= 1 {
      ScaleMono(w, e, 1);
    } else {
      ScaleMono(w, -1, e);
    }
  }

  /** Continuity everywhere: `Bound` never moves two inputs further apart than
      they were (it is 1-Lipschitz), so `|Bound(x + eps) - Bound(x)| <= |eps|`. */
  lemma BoundLipschitz(x: real, y: real, b: Bounds)
    requires b.Valid()
    ensures Abs(Bound(x, b) - Bound(y, b)) <= Abs(x - y)
  {
    LatticeDistance(x, b);
    LatticeDistance(y, b);
    LatticeDistanceMinimal(x, b, NearestWall(y, b));
    LatticeDistanceMinimal(y, b, NearestWall(x, b));
  }

  /** The fixed examples on `[0, 1]`: 1.5, -0.5 and 2.5 all land on 0.5. */
  lemma BoundExamples()
    ensures Bound(1.5, Bounds(0.0, 1.0)) == 0.5
    ensures Bound(-0.5, Bounds(0.0, 1.0)) == 0.5
    ensures Bound(2.5, Bounds(0.0, 1.0)) == 0.5
  {
    var b := Bounds(0.0, 1.0);
    assert SignedCrosses(1.5, b) == 1;
    assert SignedCrosses(-0.5, b) == -1;
    assert SignedCrosses(2.5, b) == 2;
  }
}
