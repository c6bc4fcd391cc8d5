/**
 The scattering features of one signal: zero-order (`zero_order_feature`),
 first-order (`first_order_feature`) and the selected second-order cascade
 (`selected_second_order_feature`) of pcnn/data/scattering_utils.py, and
 their concatenation (`generate_feature`).

 Every feature is either the plain filtered values (`norm_list == "none"`)
 or a list of statistical moments, one power sum per exponent.
 */
module Features {
  import opened LinAlg
  import opened Transform

  /** `norm_list`: the string `"none"`, or the exponents of the moments to take. */
  datatype Norm = NoNorm | Moments(exponents: seq<nat>)

  /** The source reads `norm_list[0]` before looping, so a moment list is never empty. */
  predicate ValidNorm(norm: Norm) {
    norm.Moments? ==> |norm.exponents| > 0
  }

  /** One power sum `Σ_i |v_i|^p`-style entry per exponent, in the order of the exponents. */
  function PowerSums(v: Vector, ps: seq<nat>): (r: Vector)
    ensures |r| == |ps|
    ensures forall k :: 0 <= k < |ps| ==> r[k] == PowerSum(v, ps[k])
  {
    seq(|ps|, k requires 0 <= k < |ps| => PowerSum(v, ps[k]))
  }

  // ---- Pairs of scales ------------------------------------------------------

  /** A second-order path: scale `j1` first, then scale `j2 > j1`. */
  datatype Pair = Pair(j1: nat, j2: nat)

  /** Number of pairs `j1 < j2 < m`. */
  function Tri(m: nat): nat
  {
    if m == 0 then 0 else Tri(m - 1) + (m - 1)
  }

  lemma {:induction false} TriClosedForm(m: nat)
    ensures 2 * Tri(m) == m * (m - 1)
  {
    if m > 0 {
      TriClosedForm(m - 1);
      assert m * (m - 1) == (m - 1) * (m - 2) + 2 * (m - 1);
    }
  }

  /** Position of pair `p` among the pairs ordered by `j2`, then by `j1`. */
  function PairIndex(p: Pair): nat
  {
    Tri(p.j2) + p.j1
  }

  /**
   The pairs `(j1, j2)` with `j1 < j2 < m`, in the order the second-order
   blocks are concatenated: by `j2`, and within a block by `j1`.
   */
  function Pairs(m: nat): (ps: seq<Pair>)
    ensures |ps| == Tri(m)
    ensures forall q :: 0 <= q < |ps| ==> ps[q].j1 < ps[q].j2 < m && PairIndex(ps[q]) == q
  {
    if m == 0 then []
    else Pairs(m - 1) + seq(m - 1, a requires 0 <= a < m - 1 => Pair(a, m - 1))
  }

  /** Every pair `j1 < j2 < m` occurs in `Pairs(m)`, at position `PairIndex`. */
  lemma {:induction false} PairsComplete(m: nat, j1: nat, j2: nat)
    requires j1 < j2 < m
    ensures PairIndex(Pair(j1, j2)) < Tri(m)
    ensures Pairs(m)[PairIndex(Pair(j1, j2))] == Pair(j1, j2)
  {
    if j2 < m - 1 {
      PairsComplete(m - 1, j1, j2);
    }
  }

  /** The order of the pairs is lexicographic in `(j2, j1)`. */
  lemma {:induction false} PairIndexOrdered(p: Pair, p': Pair)
    requires p.j1 < p.j2 && p'.j1 < p'.j2
    requires p.j2 < p'.j2 || (p.j2 == p'.j2 && p.j1 < p'.j1)
    ensures PairIndex(p) < PairIndex(p')
  {
    if p.j2 < p'.j2 {
      TriGrows(p.j2 + 1, p'.j2);
    }
  }

  lemma {:induction false} TriGrows(a: nat, b: nat)
    requires a <= b
    ensures Tri(a) <= Tri(b)
  {
    if a < b {
      TriGrows(a, b - 1);
    }
  }

  // ---- Zero order -----------------------------------------------------------

  /**
   `zero_order_feature`: the low-pass image `(1/N)·A_J·f`, or one moment
   `Σ_i |f_i|^p` per exponent `p`.
   */
  function ZeroOrder(aj: Matrix, f: Vector, n: real, norm: Norm): (r: Vector)
    requires ValidNorm(norm)
    requires norm.NoNorm? ==> n != 0.0 && HasCols(aj, |f|)
    ensures norm.NoNorm? ==> |r| == |aj|
    ensures norm.Moments? ==> |r| == |norm.exponents|
  {
    match norm
    case NoNorm => Scale(Recip(n), MatVec(aj, f))
    case Moments(ps) => PowerSums(Abs(f), ps)
  }

  /** Scaling the plain zero-order feature by `N` gives back `A_J·f`. */
  lemma ZeroOrderIsLowpass(aj: Matrix, f: Vector, n: real, i: nat)
    requires n != 0.0 && HasCols(aj, |f|) && i < |aj|
    ensures n * ZeroOrder(aj, f, n, NoNorm)[i] == Dot(aj[i], f)
  {
    RecipCancels(n, ZeroOrder(aj, f, n, NoNorm)[i], MatVec(aj, f)[i]);
  }

  /** Moment `k` of the zero-order feature is the `p_k`-th power sum of `|f|`, never negative. */
  lemma ZeroOrderMoment(aj: Matrix, f: Vector, n: real, ps: seq<nat>, k: nat)
    requires |ps| > 0 && k < |ps|
    ensures ZeroOrder(aj, f, n, Moments(ps))[k] == PowerSum(Abs(f), ps[k])
    ensures ZeroOrder(aj, f, n, Moments(ps))[k] >= 0.0
  {
    PowerSumNonNegative(Abs(f), ps[k]);
  }

  // ---- First order ----------------------------------------------------------

  /**
   What `first_order_feature` demands of its inputs: the unconditional first
   line applies `A_J` to every `|Wf[l]|`, and the moment branch stacks the
   responses, which needs at least one and equal lengths.
   */
  predicate FirstOrderShapes(wf: seq<Vector>, aj: Matrix, norm: Norm) {
    && (forall l :: 0 <= l < |wf| ==> HasCols(aj, |wf[l]|))
    && (norm.Moments? ==> |wf| > 0 && forall l :: 0 <= l < |wf| ==> |wf[l]| == |wf[0]|)
  }

  /** Block `l` of the plain first-order feature: `(1/N)·A_J·|Wf[l]|`. */
  function FirstOrderBlocks(wf: seq<Vector>, aj: Matrix, n: real): (m: Matrix)
    requires n != 0.0 && forall l :: 0 <= l < |wf| ==> HasCols(aj, |wf[l]|)
    ensures |m| == |wf| && HasCols(m, |aj|)
  {
    seq(|wf|, l requires 0 <= l < |wf| => Scale(Recip(n), MatVec(aj, Abs(wf[l]))))
  }

  /** Row `l` of the moment table: the moments of `(1/N)·|Wf[l]|`. */
  function FirstOrderMoments(wf: seq<Vector>, n: real, ps: seq<nat>): (m: Matrix)
    requires n != 0.0
    ensures |m| == |wf| && HasCols(m, |ps|)
  {
    seq(|wf|, l requires 0 <= l < |wf| => PowerSums(Scale(Recip(n), Abs(wf[l])), ps))
  }

  /**
   `first_order_feature`: the blocks (plain) or the moment table (moments),
   flattened row-major, so wavelet `l` owns a contiguous stretch.
   */
  function FirstOrder(wf: seq<Vector>, aj: Matrix, n: real, norm: Norm): (r: Vector)
    requires n != 0.0 && ValidNorm(norm) && FirstOrderShapes(wf, aj, norm)
    ensures norm.NoNorm? ==> |r| == |wf| * |aj|
    ensures norm.Moments? ==> |r| == |wf| * |norm.exponents|
  {
    match norm
    case NoNorm => Flatten(FirstOrderBlocks(wf, aj, n), |aj|)
    case Moments(ps) => Flatten(FirstOrderMoments(wf, n, ps), |ps|)
  }

  /**
   The plain first-order feature of wavelet `l` at node `i` is the zero-order
   feature of the modulus `|Wf[l]|` at node `i`.
   */
  lemma FirstOrderEntry(wf: seq<Vector>, aj: Matrix, n: real, l: nat, i: nat)
    requires n != 0.0 && FirstOrderShapes(wf, aj, NoNorm) && l < |wf| && i < |aj|
    ensures Offset(l, |aj|, i) < |FirstOrder(wf, aj, n, NoNorm)|
    ensures FirstOrder(wf, aj, n, NoNorm)[Offset(l, |aj|, i)] == ZeroOrder(aj, Abs(wf[l]), n, NoNorm)[i]
  {
    FlattenAt(FirstOrderBlocks(wf, aj, n), |aj|, l, i);
  }

  /** Moment `k` of wavelet `l` sits at `l·K + k` and is the `p_k`-th power sum of `(1/N)·|Wf[l]|`. */
  lemma FirstOrderMoment(wf: seq<Vector>, aj: Matrix, n: real, ps: seq<nat>, l: nat, k: nat)
    requires n != 0.0 && |ps| > 0 && FirstOrderShapes(wf, aj, Moments(ps)) && l < |wf| && k < |ps|
    ensures Offset(l, |ps|, k) < |FirstOrder(wf, aj, n, Moments(ps))|
    ensures FirstOrder(wf, aj, n, Moments(ps))[Offset(l, |ps|, k)] == PowerSum(Scale(Recip(n), Abs(wf[l])), ps[k])
  {
    var table := FirstOrderMoments(wf, n, ps);
    FlattenAt(table, |ps|, l, k);
    assert table[l] == PowerSums(Scale(Recip(n), Abs(wf[l])), ps);
  }

  /**
   With a positive `N` (the source passes the number of nodes), every
   first-order moment is non-negative: it is a power sum of scaled moduli.
   */
  lemma FirstOrderMomentNonNegative(wf: seq<Vector>, aj: Matrix, n: real, ps: seq<nat>, t: nat)
    requires n > 0.0 && |ps| > 0 && FirstOrderShapes(wf, aj, Moments(ps))
    requires t < |FirstOrder(wf, aj, n, Moments(ps))|
    ensures FirstOrder(wf, aj, n, Moments(ps))[t] >= 0.0
  {
    var l, k := FlatCoordinates(|wf|, |ps|, t);
    FirstOrderMoment(wf, aj, n, ps, l, k);
    var x := Scale(Recip(n), Abs(wf[l]));
    assert Recip(n) > 0.0;
    forall i | 0 <= i < |x|
      ensures x[i] >= 0.0
    {
      assert x[i] == Recip(n) * RAbs(wf[l][i]);
    }
    PowerSumNonNegative(x, ps[k]);
  }

  // ---- Second order ---------------------------------------------------------

  /**
   What `selected_second_order_feature` demands: `psi[1]` exists; the slices
   `Wf[0:i]` for `i < |psi|` are full (a shorter `Wf` would be cut silently,
   see README); the responses they take are `d` long; and every `psi[i]`,
   `i ≥ 1`, is `w`×`d`, so the blocks can be concatenated.
   */
  predicate SecondOrderShapes(psi: seq<Matrix>, wf: seq<Vector>) {
    && |psi| >= 2 && |wf| >= |psi| - 1
    && (forall a :: 0 <= a < |psi| - 1 ==> |wf[a]| == |wf[0]|)
    && (forall i :: 1 <= i < |psi| ==> IsMatrix(psi[i], |psi[1]|, |wf[0]|))
  }

  /** The response of path `(j1, j2)`: `(1/N)·psi[j2]·|Wf[j1]|`. */
  function PairRow(psi: seq<Matrix>, wf: seq<Vector>, n: real, p: Pair): Vector
    requires n != 0.0 && p.j1 < |wf| && p.j2 < |psi| && HasCols(psi[p.j2], |wf[p.j1]|)
  {
    Scale(Recip(n), MatVec(psi[p.j2], Abs(wf[p.j1])))
  }

  /** Block `i` of the cascade, `einsum('ij,aj->ai', psi[i], |Wf[0:i]|) / N`: one row per `a < i`. */
  function CascadeBlock(psi: seq<Matrix>, wf: seq<Vector>, n: real, i: nat): (b: seq<Vector>)
    requires n != 0.0 && SecondOrderShapes(psi, wf) && 1 <= i < |psi|
    ensures |b| == i
  {
    seq(i, a requires 0 <= a < i => Scale(Recip(n), MatVec(psi[i], Abs(wf[a]))))
  }

  /**
   The blocks `1 .. m-1` concatenated in order, as the source's loop builds
   them; row `q` is the response of the `q`-th pair of `Pairs(m)`.
   */
  function Cascade(psi: seq<Matrix>, wf: seq<Vector>, n: real, m: nat): (rows: seq<Vector>)
    requires n != 0.0 && SecondOrderShapes(psi, wf) && m <= |psi|
    ensures |rows| == Tri(m) && HasCols(rows, |psi[1]|)
  {
    if m <= 1 then []
    else Cascade(psi, wf, n, m - 1) + CascadeBlock(psi, wf, n, m - 1)
  }

  /** Row `q` of the cascade is the response of the `q`-th path of `Pairs(m)`. */
  lemma {:induction false} CascadeRow(psi: seq<Matrix>, wf: seq<Vector>, n: real, m: nat, q: nat)
    requires n != 0.0 && SecondOrderShapes(psi, wf) && m <= |psi| && q < Tri(m)
    ensures Cascade(psi, wf, n, m)[q] == PairRow(psi, wf, n, Pairs(m)[q])
  {
    if q < Tri(m - 1) {
      CascadeRow(psi, wf, n, m - 1, q);
    }
  }

  /** `|F2|`: the moduli of the cascade rows, each `w = |psi[1]|` long. */
  function SecondOrderRows(psi: seq<Matrix>, wf: seq<Vector>, n: real): (rows: Matrix)
    requires n != 0.0 && SecondOrderShapes(psi, wf)
    ensures |rows| == Tri(|psi|) && HasCols(rows, |psi[1]|)
  {
    var c := Cascade(psi, wf, n, |psi|);
    seq(|c|, q requires 0 <= q < |c| => Abs(c[q]))
  }

  /** Moment `k` of every second-order row: one stretch of `Tri(|psi|)` values per exponent. */
  function SecondOrderMoments(rows: Matrix, ps: seq<nat>): (m: Matrix)
    ensures |m| == |ps| && HasCols(m, |rows|)
  {
    seq(|ps|, k requires 0 <= k < |ps| =>
      seq(|rows|, q requires 0 <= q < |rows| => PowerSum(rows[q], ps[k])))
  }

  /**
   `selected_second_order_feature`: the rows flattened row-major (plain), or
   the moments stacked exponent by exponent (moments).
   */
  function SecondOrder(psi: seq<Matrix>, wf: seq<Vector>, n: real, norm: Norm): (r: Vector)
    requires n != 0.0 && ValidNorm(norm) && SecondOrderShapes(psi, wf)
    ensures norm.NoNorm? ==> |r| == Tri(|psi|) * |psi[1]|
    ensures norm.Moments? ==> |r| == |norm.exponents| * Tri(|psi|)
  {
    var rows := SecondOrderRows(psi, wf, n);
    match norm
    case NoNorm => Flatten(rows, |psi[1]|)
    case Moments(ps) => Flatten(SecondOrderMoments(rows, ps), |rows|)
  }

  /** Row `PairIndex(j1, j2)` of `|F2|` is the modulus of the response of path `(j1, j2)`. */
  lemma {:induction false} SecondOrderRow(psi: seq<Matrix>, wf: seq<Vector>, n: real, j1: nat, j2: nat)
    requires n != 0.0 && SecondOrderShapes(psi, wf) && j1 < j2 < |psi|
    ensures PairIndex(Pair(j1, j2)) < Tri(|psi|)
    ensures SecondOrderRows(psi, wf, n)[PairIndex(Pair(j1, j2))] == Abs(PairRow(psi, wf, n, Pair(j1, j2)))
  {
    PairsComplete(|psi|, j1, j2);
    CascadeRow(psi, wf, n, |psi|, PairIndex(Pair(j1, j2)));
  }

  /**
   The plain second-order feature of path `(j1, j2)` at node `i` is the
   modulus of the wavelet transform, by `psi[j2]`, of the modulus `|Wf[j1]|`.
   */
  lemma {:induction false} SecondOrderEntry(psi: seq<Matrix>, wf: seq<Vector>, n: real, j1: nat, j2: nat, i: nat)
    requires n != 0.0 && SecondOrderShapes(psi, wf) && j1 < j2 < |psi| && i < |psi[1]|
    ensures Offset(PairIndex(Pair(j1, j2)), |psi[1]|, i) < |SecondOrder(psi, wf, n, NoNorm)|
    ensures SecondOrder(psi, wf, n, NoNorm)[Offset(PairIndex(Pair(j1, j2)), |psi[1]|, i)]
         == RAbs(WaveletTransform([psi[j2]], Abs(wf[j1]), n)[0][i])
  {
    var q := PairIndex(Pair(j1, j2));
    var row := PairRow(psi, wf, n, Pair(j1, j2));
    var rows := SecondOrderRows(psi, wf, n);
    assert rows[q][i] == RAbs(row[i]) by {
      SecondOrderRow(psi, wf, n, j1, j2);
    }
    FlattenAt(rows, |psi[1]|, q, i);
    assert row[i] == WaveletTransform([psi[j2]], Abs(wf[j1]), n)[0][i] by {
      TransformEntry([psi[j2]], Abs(wf[j1]), n, 0, i);
    }
  }

  /** Entry `k·P + q` of the moment feature is moment `k` of row `q` of `|F2|`. */
  lemma {:induction false} SecondOrderTableAt(psi: seq<Matrix>, wf: seq<Vector>, n: real, ps: seq<nat>, k: nat, q: nat)
    requires n != 0.0 && |ps| > 0 && SecondOrderShapes(psi, wf) && k < |ps| && q < Tri(|psi|)
    ensures Offset(k, Tri(|psi|), q) < |SecondOrder(psi, wf, n, Moments(ps))|
    ensures SecondOrder(psi, wf, n, Moments(ps))[Offset(k, Tri(|psi|), q)] == PowerSum(SecondOrderRows(psi, wf, n)[q], ps[k])
  {
    var rows := SecondOrderRows(psi, wf, n);
    FlattenAt(SecondOrderMoments(rows, ps), |rows|, k, q);
  }

  /**
   Moment `k` of path `(j1, j2)` sits at `k·P + PairIndex` (`P` the number
   of paths) and is the `p_k`-th power sum of `|(1/N)·psi[j2]·|Wf[j1]||`.
   */
  lemma {:induction false} SecondOrderMoment(psi: seq<Matrix>, wf: seq<Vector>, n: real, ps: seq<nat>, j1: nat, j2: nat, k: nat)
    requires n != 0.0 && |ps| > 0 && SecondOrderShapes(psi, wf) && j1 < j2 < |psi| && k < |ps|
    ensures Offset(k, Tri(|psi|), PairIndex(Pair(j1, j2))) < |SecondOrder(psi, wf, n, Moments(ps))|
    ensures SecondOrder(psi, wf, n, Moments(ps))[Offset(k, Tri(|psi|), PairIndex(Pair(j1, j2)))]
         == PowerSum(Abs(PairRow(psi, wf, n, Pair(j1, j2))), ps[k])
  {
    SecondOrderRow(psi, wf, n, j1, j2);
    SecondOrderTableAt(psi, wf, n, ps, k, PairIndex(Pair(j1, j2)));
  }

  /** Every second-order feature is non-negative, in both modes. */
  lemma SecondOrderNonNegative(psi: seq<Matrix>, wf: seq<Vector>, n: real, norm: Norm)
    requires n != 0.0 && ValidNorm(norm) && SecondOrderShapes(psi, wf)
    ensures forall t :: 0 <= t < |SecondOrder(psi, wf, n, norm)| ==> SecondOrder(psi, wf, n, norm)[t] >= 0.0
  {
    forall t | 0 <= t < |SecondOrder(psi, wf, n, norm)|
      ensures SecondOrder(psi, wf, n, norm)[t] >= 0.0
    {
      match norm
      case NoNorm => PlainSecondOrderNonNegative(psi, wf, n, t);
      case Moments(ps) => MomentSecondOrderNonNegative(psi, wf, n, ps, t);
    }
  }

  /** Plain mode: entry `t` is an entry of some second-order row, a modulus. */
  lemma PlainSecondOrderNonNegative(psi: seq<Matrix>, wf: seq<Vector>, n: real, t: nat)
    requires n != 0.0 && SecondOrderShapes(psi, wf)
    requires t < |SecondOrder(psi, wf, n, NoNorm)|
    ensures SecondOrder(psi, wf, n, NoNorm)[t] >= 0.0
  {
    var rows := SecondOrderRows(psi, wf, n);
    var q, i := FlatCoordinates(|rows|, |psi[1]|, t);
    FlattenAt(rows, |psi[1]|, q, i);
    AbsRowNonNegative(psi, wf, n, q, i);
  }

  /** Moment mode: entry `t` is a power sum of some second-order row. */
  lemma MomentSecondOrderNonNegative(psi: seq<Matrix>, wf: seq<Vector>, n: real, ps: seq<nat>, t: nat)
    requires n != 0.0 && |ps| > 0 && SecondOrderShapes(psi, wf)
    requires t < |SecondOrder(psi, wf, n, Moments(ps))|
    ensures SecondOrder(psi, wf, n, Moments(ps))[t] >= 0.0
  {
    var rows := SecondOrderRows(psi, wf, n);
    var k, q := FlatCoordinates(|ps|, |rows|, t);
    FlattenAt(SecondOrderMoments(rows, ps), |rows|, k, q);
    RowMomentNonNegative(psi, wf, n, q, ps[k]);
  }

  /** Every power sum of a second-order row is non-negative: the row holds moduli. */
  lemma RowMomentNonNegative(psi: seq<Matrix>, wf: seq<Vector>, n: real, q: nat, p: nat)
    requires n != 0.0 && SecondOrderShapes(psi, wf) && q < |SecondOrderRows(psi, wf, n)|
    ensures PowerSum(SecondOrderRows(psi, wf, n)[q], p) >= 0.0
  {
    var row := SecondOrderRows(psi, wf, n)[q];
    forall i | 0 <= i < |row|
      ensures row[i] >= 0.0
    {
      AbsRowNonNegative(psi, wf, n, q, i);
    }
    PowerSumNonNegative(row, p);
  }

  lemma AbsRowNonNegative(psi: seq<Matrix>, wf: seq<Vector>, n: real, q: nat, i: nat)
    requires n != 0.0 && SecondOrderShapes(psi, wf)
    requires q < |SecondOrderRows(psi, wf, n)| && i < |SecondOrderRows(psi, wf, n)[q]|
    ensures SecondOrderRows(psi, wf, n)[q][i] >= 0.0
  {
  }

  // ---- Dependence on the moduli only -----------------------------------------

  /** `wf` and `wf'` have the same moduli, response by response. */
  predicate SameModuli(wf: seq<Vector>, wf': seq<Vector>) {
    |wf| == |wf'| && forall l :: 0 <= l < |wf| ==> Abs(wf[l]) == Abs(wf'[l])
  }

  /** The first-order feature sees the responses only through their moduli. */
  lemma FirstOrderModuliOnly(wf: seq<Vector>, wf': seq<Vector>, aj: Matrix, n: real, norm: Norm)
    requires n != 0.0 && ValidNorm(norm) && FirstOrderShapes(wf, aj, norm) && SameModuli(wf, wf')
    ensures FirstOrderShapes(wf', aj, norm)
    ensures FirstOrder(wf', aj, n, norm) == FirstOrder(wf, aj, n, norm)
  {
    assert forall l :: 0 <= l < |wf| ==> |wf'[l]| == |Abs(wf[l])|;
    match norm
    case NoNorm =>
      assert FirstOrderBlocks(wf', aj, n) == FirstOrderBlocks(wf, aj, n);
    case Moments(ps) =>
      assert FirstOrderMoments(wf', n, ps) == FirstOrderMoments(wf, n, ps) by {
        forall l | 0 <= l < |wf|
          ensures Scale(Recip(n), Abs(wf'[l])) == Scale(Recip(n), Abs(wf[l]))
        {
        }
      }
  }

  lemma {:induction false} CascadeModuliOnly(psi: seq<Matrix>, wf: seq<Vector>, wf': seq<Vector>, n: real, m: nat)
    requires n != 0.0 && SecondOrderShapes(psi, wf) && SecondOrderShapes(psi, wf') && SameModuli(wf, wf')
    requires m <= |psi|
    ensures Cascade(psi, wf', n, m) == Cascade(psi, wf, n, m)
  {
    if m > 1 {
      CascadeModuliOnly(psi, wf, wf', n, m - 1);
      assert CascadeBlock(psi, wf', n, m - 1) == CascadeBlock(psi, wf, n, m - 1);
    }
  }

  /** The second-order feature sees the responses only through their moduli. */
  lemma SecondOrderModuliOnly(psi: seq<Matrix>, wf: seq<Vector>, wf': seq<Vector>, n: real, norm: Norm)
    requires n != 0.0 && ValidNorm(norm) && SecondOrderShapes(psi, wf) && SameModuli(wf, wf')
    ensures SecondOrderShapes(psi, wf')
    ensures SecondOrder(psi, wf', n, norm) == SecondOrder(psi, wf, n, norm)
  {
    assert forall l :: 0 <= l < |wf| ==> |wf'[l]| == |Abs(wf[l])|;
    CascadeModuliOnly(psi, wf, wf', n, |psi|);
    assert SecondOrderRows(psi, wf', n) == SecondOrderRows(psi, wf, n);
  }

  // ---- All orders -----------------------------------------------------------

  /** What `generate_feature` demands: the demands of its three parts. */
  predicate FeatureShapes(psi: seq<Matrix>, wf: seq<Vector>, aj: Matrix, f: Vector, norm: Norm) {
    && ValidNorm(norm)
    && (norm.NoNorm? ==> HasCols(aj, |f|))
    && FirstOrderShapes(wf, aj, norm)
    && SecondOrderShapes(psi, wf)
  }

  /** `generate_feature`: zero-, first- and second-order features, one after the other. */
  function GenerateFeature(psi: seq<Matrix>, wf: seq<Vector>, aj: Matrix, f: Vector, n: real, norm: Norm): (r: Vector)
    requires n != 0.0 && FeatureShapes(psi, wf, aj, f, norm)
    ensures norm.NoNorm? ==> |r| == |aj| + |wf| * |aj| + Tri(|psi|) * |psi[1]|
    ensures norm.Moments? ==> |r| == |norm.exponents| + |wf| * |norm.exponents| + |norm.exponents| * Tri(|psi|)
  {
    ZeroOrder(aj, f, n, norm) + FirstOrder(wf, aj, n, norm) + SecondOrder(psi, wf, n, norm)
  }
}
