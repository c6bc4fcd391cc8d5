/**
 Dense real vectors and matrices, with the handful of operations the
 scattering pipeline uses: element-wise absolute value and scaling,
 inner products, matrix-vector products, `A·Bᵀ` products, natural powers,
 power sums over a vector and row-major flattening.

 Arithmetic is exact (`real`); floating-point rounding is not modelled.
 */
module LinAlg {

  type Vector = seq<real>
  type Matrix = seq<Vector>

  /** `m` has `rows` rows of `cols` entries each. */
  predicate IsMatrix(m: Matrix, rows: nat, cols: nat) {
    |m| == rows && forall i :: 0 <= i < rows ==> |m[i]| == cols
  }

  /** Every row of `m` has `cols` entries (the row count is free). */
  predicate HasCols(m: Matrix, cols: nat) {
    forall i :: 0 <= i < |m| ==> |m[i]| == cols
  }

  function RAbs(x: real): (r: real)
    ensures r >= 0.0
    ensures r == x || r == -x
  {
    if x < 0.0 then -x else x
  }

  /** Element-wise absolute value (`np.abs`). */
  function Abs(v: Vector): (r: Vector)
    ensures |r| == |v|
    ensures forall i :: 0 <= i < |v| ==> r[i] == RAbs(v[i])
  {
    seq(|v|, i requires 0 <= i < |v| => RAbs(v[i]))
  }

  /** Scalar multiple `c·v`. */
  function Scale(c: real, v: Vector): (r: Vector)
    ensures |r| == |v|
    ensures forall i :: 0 <= i < |v| ==> r[i] == c * v[i]
  {
    seq(|v|, i requires 0 <= i < |v| => c * v[i])
  }

  function VecAdd(u: Vector, v: Vector): (r: Vector)
    requires |u| == |v|
    ensures |r| == |u|
    ensures forall i :: 0 <= i < |u| ==> r[i] == u[i] + v[i]
  {
    seq(|u|, i requires 0 <= i < |u| => u[i] + v[i])
  }

  function VecSub(u: Vector, v: Vector): (r: Vector)
    requires |u| == |v|
    ensures |r| == |u|
    ensures forall i :: 0 <= i < |u| ==> r[i] == u[i] - v[i]
  {
    seq(|u|, i requires 0 <= i < |u| => u[i] - v[i])
  }

  /** Element-wise product; `Hadamard(V[i], r)` is row `i` of numpy's `V * r`. */
  function Hadamard(u: Vector, v: Vector): (r: Vector)
    requires |u| == |v|
    ensures |r| == |u|
    ensures forall i :: 0 <= i < |u| ==> r[i] == u[i] * v[i]
  {
    seq(|u|, i requires 0 <= i < |u| => u[i] * v[i])
  }

  /** Inner product of the first `n` entries of `u` and `v`. */
  function DotTo(u: Vector, v: Vector, n: nat): real
    requires n <= |u| && n <= |v|
  {
    if n == 0 then 0.0 else DotTo(u, v, n - 1) + u[n - 1] * v[n - 1]
  }

  function Dot(u: Vector, v: Vector): real
    requires |u| == |v|
  {
    DotTo(u, v, |u|)
  }

  /** Matrix-vector product `A·x` (`np.matmul(A, x)` for a 1-D `x`). */
  function MatVec(a: Matrix, x: Vector): (r: Vector)
    requires HasCols(a, |x|)
    ensures |r| == |a|
    ensures forall i :: 0 <= i < |a| ==> r[i] == Dot(a[i], x)
  {
    seq(|a|, i requires 0 <= i < |a| => Dot(a[i], x))
  }

  /** `A·Bᵀ`, the contraction `einsum('ik,jk->ij', A, B)`. */
  function MulTransposed(a: Matrix, b: Matrix, k: nat): (r: Matrix)
    requires HasCols(a, k) && HasCols(b, k)
    ensures IsMatrix(r, |a|, |b|)
    ensures forall i, j :: 0 <= i < |a| && 0 <= j < |b| ==> r[i][j] == Dot(a[i], b[j])
  {
    seq(|a|, i requires 0 <= i < |a| =>
      seq(|b|, j requires 0 <= j < |b| => Dot(a[i], b[j])))
  }

  function Identity(n: nat): (r: Matrix)
    ensures IsMatrix(r, n, n)
    ensures forall i, j :: 0 <= i < n && 0 <= j < n ==> r[i][j] == (if i == j then 1.0 else 0.0)
  {
    seq(n, i requires 0 <= i < n => seq(n, j requires 0 <= j < n => if i == j then 1.0 else 0.0))
  }

  function MatSub(a: Matrix, b: Matrix, n: nat): (r: Matrix)
    requires IsMatrix(a, n, n) && IsMatrix(b, n, n)
    ensures IsMatrix(r, n, n)
    ensures forall i :: 0 <= i < n ==> r[i] == VecSub(a[i], b[i])
  {
    seq(n, i requires 0 <= i < n => VecSub(a[i], b[i]))
  }

  /** The weight `1/N` the source applies to every filtered signal. */
  function Recip(n: real): (r: real)
    requires n != 0.0
    ensures r != 0.0
  {
    1.0 / n
  }

  /** Scaling by `N` undoes the weight `1/N`. */
  lemma RecipCancels(n: real, y: real, x: real)
    requires n != 0.0 && y == Recip(n) * x
    ensures n * y == x
  {
    assert n * Recip(n) == 1.0;
    assert n * (Recip(n) * x) == (n * Recip(n)) * x;
  }

  /** `m` equals its transpose. */
  predicate IsSymmetric(m: Matrix, n: nat)
    requires IsMatrix(m, n, n)
  {
    forall i, j :: 0 <= i < n && 0 <= j < n ==> m[i][j] == m[j][i]
  }

  /** Every matrix of `ms` is `n`×`n`. */
  predicate AllSquare(ms: seq<Matrix>, n: nat) {
    forall l :: 0 <= l < |ms| ==> IsMatrix(ms[l], n, n)
  }

  /** `Σ_{l<m} ms[l][a][b]`. */
  function EntrySum(ms: seq<Matrix>, n: nat, a: nat, b: nat, m: nat): real
    requires m <= |ms| && a < n && b < n && AllSquare(ms, n)
  {
    if m == 0 then 0.0 else EntrySum(ms, n, a, b, m - 1) + ms[m - 1][a][b]
  }

  /** Row `a` of the sum of the first `m` matrices of `ms`. */
  function RowSum(ms: seq<Matrix>, n: nat, a: nat, m: nat): (r: Vector)
    requires m <= |ms| && a < n && AllSquare(ms, n)
    ensures |r| == n
    ensures forall b :: 0 <= b < n ==> r[b] == EntrySum(ms, n, a, b, m)
  {
    seq(n, b requires 0 <= b < n => EntrySum(ms, n, a, b, m))
  }

  /** The sum of all matrices of `ms` (the zero matrix when `ms` is empty). */
  function MatSum(ms: seq<Matrix>, n: nat): (s: Matrix)
    requires AllSquare(ms, n)
    ensures IsMatrix(s, n, n)
    ensures forall a :: 0 <= a < n ==> s[a] == RowSum(ms, n, a, |ms|)
  {
    seq(n, a requires 0 <= a < n => RowSum(ms, n, a, |ms|))
  }

  /** `x` to the natural power `e` (`x ** e`). */
  function Pow(x: real, e: nat): real
  {
    if e == 0 then 1.0 else x * Pow(x, e - 1)
  }

  /** `Σ_{i<n} v[i]^p`. */
  function PowerSumTo(v: Vector, p: nat, n: nat): real
    requires n <= |v|
  {
    if n == 0 then 0.0 else PowerSumTo(v, p, n - 1) + Pow(v[n - 1], p)
  }

  /** `np.sum(np.power(v, p))`: the power sum of `v` over all its entries. */
  function PowerSum(v: Vector, p: nat): real
  {
    PowerSumTo(v, p, |v|)
  }

  /**
   Row-major flattening of a matrix whose rows all have `width` entries
   (`np.reshape(m, (-1, 1))`; also `np.vstack` of column vectors).
   `FlattenAt` says where each entry lands.
   */
  function Flatten(m: Matrix, width: nat): (r: Vector)
    requires HasCols(m, width)
    ensures |r| == |m| * width
  {
    if |m| == 0 then []
    else
      var init := Flatten(m[..|m| - 1], width);
      assert |m| * width == (|m| - 1) * width + width;
      init + m[|m| - 1]
  }

  /** Position of entry `(i, c)` in a row-major flattening with rows of `width` entries. */
  function Offset(i: nat, width: nat, c: nat): nat
  {
    i * width + c
  }

  lemma {:induction false} FlattenAt(m: Matrix, width: nat, i: nat, c: nat)
    requires HasCols(m, width) && i < |m| && c < width
    ensures Offset(i, width, c) < |m| * width
    ensures Flatten(m, width)[Offset(i, width, c)] == m[i][c]
  {
    var last := |m| - 1;
    var init := Flatten(m[..last], width);
    assert Flatten(m, width) == init + m[last];
    if i < last {
      IndexBound(i, c, width, last);
      FlattenAt(m[..last], width, i, c);
    } else {
      assert i * width + c == |init| + c;
    }
    IndexBound(i, c, width, |m|);
  }

  /** Every position of a flattened `rows`×`width` matrix is some entry `(i, c)`. */
  lemma {:induction false} FlatCoordinates(rows: nat, width: nat, t: nat) returns (i: nat, c: nat)
    requires t < rows * width
    ensures i < rows && c < width && t == Offset(i, width, c)
  {
    assert rows * width == (rows - 1) * width + width;
    if t < (rows - 1) * width {
      i, c := FlatCoordinates(rows - 1, width, t);
    } else {
      i, c := rows - 1, t - (rows - 1) * width;
    }
  }

  /** Block `i` of `k` blocks of `width` entries lies before block `k`. */
  lemma {:induction false} IndexBound(i: nat, c: nat, width: nat, k: nat)
    requires i < k && c < width
    ensures i * width + c < k * width
  {
    assert k * width == (k - 1) * width + width;
    if i < k - 1 {
      IndexBound(i, c, width, k - 1);
    }
  }

  // ---- Inner-product algebra ------------------------------------------------

  lemma {:induction false} DotToAdd(u: Vector, v: Vector, x: Vector, n: nat)
    requires |u| == |v| && n <= |u| && n <= |x|
    ensures DotTo(VecAdd(u, v), x, n) == DotTo(u, x, n) + DotTo(v, x, n)
  {
    if n > 0 {
      DotToAdd(u, v, x, n - 1);
      assert VecAdd(u, v)[n - 1] * x[n - 1] == u[n - 1] * x[n - 1] + v[n - 1] * x[n - 1];
    }
  }

  /** The inner product is additive in its first argument. */
  lemma DotAdd(u: Vector, v: Vector, x: Vector)
    requires |u| == |v| == |x|
    ensures Dot(VecAdd(u, v), x) == Dot(u, x) + Dot(v, x)
  {
    DotToAdd(u, v, x, |u|);
  }

  lemma {:induction false} DotToSub(u: Vector, v: Vector, x: Vector, n: nat)
    requires |u| == |v| && n <= |u| && n <= |x|
    ensures DotTo(VecSub(u, v), x, n) == DotTo(u, x, n) - DotTo(v, x, n)
  {
    if n > 0 {
      DotToSub(u, v, x, n - 1);
      assert VecSub(u, v)[n - 1] * x[n - 1] == u[n - 1] * x[n - 1] - v[n - 1] * x[n - 1];
    }
  }

  /** The inner product is subtractive in its first argument. */
  lemma DotSub(u: Vector, v: Vector, x: Vector)
    requires |u| == |v| == |x|
    ensures Dot(VecSub(u, v), x) == Dot(u, x) - Dot(v, x)
  {
    DotToSub(u, v, x, |u|);
  }

  lemma {:induction false} DotToIdentityRow(n: nat, i: nat, x: Vector, m: nat)
    requires i < n && m <= n && |x| == n
    ensures DotTo(Identity(n)[i], x, m) == if i < m then x[i] else 0.0
  {
    if m > 0 {
      DotToIdentityRow(n, i, x, m - 1);
    }
  }

  /** Row `i` of the identity picks out entry `i`. */
  lemma DotIdentityRow(n: nat, i: nat, x: Vector)
    requires i < n && |x| == n
    ensures Dot(Identity(n)[i], x) == x[i]
  {
    DotToIdentityRow(n, i, x, n);
  }

  lemma {:induction false} DotToWeightedSymmetric(u: Vector, w: Vector, v: Vector, n: nat)
    requires |u| == |w| == |v| && n <= |u|
    ensures DotTo(Hadamard(u, w), v, n) == DotTo(Hadamard(v, w), u, n)
  {
    if n > 0 {
      DotToWeightedSymmetric(u, w, v, n - 1);
      assert u[n - 1] * w[n - 1] * v[n - 1] == v[n - 1] * w[n - 1] * u[n - 1];
    }
  }

  /** `Σ u[k]·w[k]·v[k]` does not depend on which of `u`, `v` comes first. */
  lemma DotWeightedSymmetric(u: Vector, w: Vector, v: Vector)
    requires |u| == |w| == |v|
    ensures Dot(Hadamard(u, w), v) == Dot(Hadamard(v, w), u)
  {
    DotToWeightedSymmetric(u, w, v, |u|);
  }

  lemma {:induction false} DotToNegate(u: Vector, x: Vector, n: nat)
    requires n <= |u| && n <= |x|
    ensures DotTo(u, Scale(-1.0, x), n) == -DotTo(u, x, n)
  {
    if n > 0 {
      DotToNegate(u, x, n - 1);
      assert u[n - 1] * (-1.0 * x[n - 1]) == -(u[n - 1] * x[n - 1]);
    }
  }

  /** Negating the signal negates every filtered value: `A·(−x) = −(A·x)`. */
  lemma MatVecNegate(a: Matrix, x: Vector)
    requires HasCols(a, |x|)
    ensures MatVec(a, Scale(-1.0, x)) == Scale(-1.0, MatVec(a, x))
  {
    forall i | 0 <= i < |a|
      ensures MatVec(a, Scale(-1.0, x))[i] == Scale(-1.0, MatVec(a, x))[i]
    {
      DotToNegate(a[i], x, |x|);
    }
  }

  /** Scaling commutes with negation: `c·(−v) = −(c·v)`. */
  lemma ScaleNegate(c: real, v: Vector)
    ensures Scale(c, Scale(-1.0, v)) == Scale(-1.0, Scale(c, v))
  {
    forall i | 0 <= i < |v|
      ensures Scale(c, Scale(-1.0, v))[i] == Scale(-1.0, Scale(c, v))[i]
    {
      assert c * (-1.0 * v[i]) == -1.0 * (c * v[i]);
    }
  }

  /** `|−v| = |v|` entry by entry. */
  lemma AbsNegate(v: Vector)
    ensures Abs(Scale(-1.0, v)) == Abs(v)
  {
    forall i | 0 <= i < |v|
      ensures Abs(Scale(-1.0, v))[i] == Abs(v)[i]
    {
    }
  }

  /** `|c·(−v)| = |c·v|` entry by entry. */
  lemma AbsScaleNegate(c: real, v: Vector)
    ensures Abs(Scale(c, Scale(-1.0, v))) == Abs(Scale(c, v))
  {
    forall i | 0 <= i < |v|
      ensures Abs(Scale(c, Scale(-1.0, v)))[i] == Abs(Scale(c, v))[i]
    {
      assert c * (-1.0 * v[i]) == -(c * v[i]);
    }
  }

  lemma {:induction false} DotToZeros(n: nat, x: Vector, m: nat)
    requires m <= n && |x| == n
    ensures DotTo(seq(n, _ => 0.0), x, m) == 0.0
  {
    if m > 0 {
      DotToZeros(n, x, m - 1);
    }
  }

  // ---- Powers ---------------------------------------------------------------

  lemma {:induction false} PowNonNegative(x: real, e: nat)
    requires x >= 0.0
    ensures Pow(x, e) >= 0.0
  {
    if e > 0 {
      PowNonNegative(x, e - 1);
    }
  }

  lemma {:induction false} PowUnitInterval(x: real, e: nat)
    requires 0.0 <= x <= 1.0
    ensures 0.0 <= Pow(x, e) <= 1.0
  {
    if e > 0 {
      PowUnitInterval(x, e - 1);
      ShrinkByUnit(x, Pow(x, e - 1));
    }
  }

  /** Multiplying a non-negative `y` by a factor in `[0, 1]` keeps it in `[0, y]`. */
  lemma ShrinkByUnit(x: real, y: real)
    requires 0.0 <= x <= 1.0 && y >= 0.0
    ensures 0.0 <= x * y <= y
  {
    assert y - x * y == (1.0 - x) * y;
  }

  /** On `[0, 1]`, a higher power is never larger. */
  lemma {:induction false} PowAntitone(x: real, m: nat, e: nat)
    requires 0.0 <= x <= 1.0 && m <= e
    ensures Pow(x, e) <= Pow(x, m)
  {
    if e > m {
      PowAntitone(x, m, e - 1);
      PowUnitInterval(x, e - 1);
      ShrinkByUnit(x, Pow(x, e - 1));
    }
  }

  lemma {:induction false} PowerSumToNonNegative(v: Vector, p: nat, n: nat)
    requires n <= |v|
    requires forall i :: 0 <= i < |v| ==> v[i] >= 0.0
    ensures PowerSumTo(v, p, n) >= 0.0
  {
    if n > 0 {
      PowerSumToNonNegative(v, p, n - 1);
      PowNonNegative(v[n - 1], p);
    }
  }

  /** A power sum of a non-negative vector is non-negative. */
  lemma PowerSumNonNegative(v: Vector, p: nat)
    requires forall i :: 0 <= i < |v| ==> v[i] >= 0.0
    ensures PowerSum(v, p) >= 0.0
  {
    PowerSumToNonNegative(v, p, |v|);
  }
}
