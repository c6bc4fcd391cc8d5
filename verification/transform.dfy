/**
 The wavelet transform (`weighted_wavelet_transform` of
 pcnn/data/scattering_utils.py) and the reconstruction identity it
 inherits from the filter bank.
 */
module Transform {
  import opened LinAlg
  import opened Filters

  /** One response `(1/N)·ψ·f` per filter given, in the order of the filters. */
  function WaveletTransform(psi: seq<Matrix>, f: Vector, n: real): (wf: seq<Vector>)
    requires n != 0.0
    requires forall l :: 0 <= l < |psi| ==> HasCols(psi[l], |f|)
    ensures |wf| == |psi|
    ensures forall l :: 0 <= l < |psi| ==> |wf[l]| == |psi[l]|
  {
    seq(|psi|, l requires 0 <= l < |psi| => Scale(Recip(n), MatVec(psi[l], f)))
  }

  /** Response `l` at node `i` is `(1/N)·(ψ_l·f)[i]`. */
  lemma TransformEntry(psi: seq<Matrix>, f: Vector, n: real, l: nat, i: nat)
    requires n != 0.0 && forall k :: 0 <= k < |psi| ==> HasCols(psi[k], |f|)
    requires l < |psi| && i < |psi[l]|
    ensures |psi[l][i]| == |f|
    ensures WaveletTransform(psi, f, n)[l][i] == Recip(n) * Dot(psi[l][i], f)
  {
    assert HasCols(psi[l], |f|);
    assert WaveletTransform(psi, f, n)[l] == Scale(Recip(n), MatVec(psi[l], f));
  }

  /** The modulus of every response is blind to the sign of the signal: `|W(−f)| = |W f|`. */
  lemma TransformNegate(psi: seq<Matrix>, f: Vector, n: real, l: nat)
    requires n != 0.0 && forall k :: 0 <= k < |psi| ==> HasCols(psi[k], |f|)
    requires l < |psi|
    ensures Abs(WaveletTransform(psi, Scale(-1.0, f), n)[l]) == Abs(WaveletTransform(psi, f, n)[l])
  {
    assert HasCols(psi[l], |f|);
    MatVecNegate(psi[l], f);
    AbsScaleNegate(Recip(n), MatVec(psi[l], f));
  }

  /** `Σ_{l<m} ws[l][i]`: entry `i` of the sum of the first `m` vectors. */
  function ColumnSum(ws: seq<Vector>, i: nat, m: nat): real
    requires m <= |ws| && forall l :: 0 <= l < |ws| ==> i < |ws[l]|
  {
    if m == 0 then 0.0 else ColumnSum(ws, i, m - 1) + ws[m - 1][i]
  }

  /** Summing the responses of the first `m` filters is filtering with their sum. */
  lemma {:induction false} TransformSum(psi: seq<Matrix>, f: Vector, n: real, i: nat, m: nat)
    requires n != 0.0 && AllSquare(psi, |f|) && i < |f| && m <= |psi|
    ensures ColumnSum(WaveletTransform(psi, f, n), i, m) == Recip(n) * Dot(RowSum(psi, |f|, i, m), f)
  {
    var d := |f|;
    if m == 0 {
      assert RowSum(psi, d, i, 0) == seq(d, _ => 0.0);
      DotToZeros(d, f, d);
    } else {
      TransformSum(psi, f, n, i, m - 1);
      TransformEntry(psi, f, n, m - 1, i);
      var before := RowSum(psi, d, i, m - 1);
      assert RowSum(psi, d, i, m) == VecAdd(before, psi[m - 1][i]);
      DotAdd(before, psi[m - 1][i], f);
      assert Recip(n) * Dot(before, f) + Recip(n) * Dot(psi[m - 1][i], f)
          == Recip(n) * (Dot(before, f) + Dot(psi[m - 1][i], f));
    }
  }

  /** Row `i` of a bank summing to `I − A` is row `i` of `I − A`. */
  lemma RowOfComplement(psi: seq<Matrix>, lowpass: Matrix, d: nat, i: nat)
    requires AllSquare(psi, d) && IsMatrix(lowpass, d, d) && i < d
    requires MatSum(psi, d) == MatSub(Identity(d), lowpass, d)
    ensures RowSum(psi, d, i, |psi|) == VecSub(Identity(d)[i], lowpass[i])
  {
    assert MatSum(psi, d)[i] == MatSub(Identity(d), lowpass, d)[i];
  }

  /** Applying row `i` of `I − A` to `f` gives `f[i] − (A·f)[i]`. */
  lemma ComplementApplied(lowpass: Matrix, f: Vector, i: nat)
    requires IsMatrix(lowpass, |f|, |f|) && i < |f|
    ensures Dot(VecSub(Identity(|f|)[i], lowpass[i]), f) == f[i] - MatVec(lowpass, f)[i]
  {
    DotSub(Identity(|f|)[i], lowpass[i], f);
    DotIdentityRow(|f|, i, f);
  }

  /**
   Entry `i` of the reconstruction identity, for any bank whose filters add
   up to `I − A`.
   */
  lemma {:induction false} ReconstructionAt(psi: seq<Matrix>, lowpass: Matrix, f: Vector, n: real, i: nat)
    requires n != 0.0 && AllSquare(psi, |f|) && IsMatrix(lowpass, |f|, |f|) && i < |f|
    requires RowSum(psi, |f|, i, |psi|) == VecSub(Identity(|f|)[i], lowpass[i])
    ensures f[i] == n * ColumnSum(WaveletTransform(psi, f, n), i, |psi|) + MatVec(lowpass, f)[i]
  {
    var x := Dot(RowSum(psi, |f|, i, |psi|), f);
    TransformSum(psi, f, n, i, |psi|);
    ComplementApplied(lowpass, f, i);
    Unweigh(n, ColumnSum(WaveletTransform(psi, f, n), i, |psi|), x, f[i], MatVec(lowpass, f)[i]);
  }

  /** The scalar step of the reconstruction: undoing the weight `1/N`. */
  lemma Unweigh(n: real, cs: real, x: real, fi: real, low: real)
    requires n != 0.0 && cs == Recip(n) * x && x == fi - low
    ensures fi == n * cs + low
  {
    RecipCancels(n, cs, x);
  }

  /**
   The synthesis that inverts the transform: `N·Σ_l wf[l] + low`, where `low`
   is the low-pass image `A_J·f`.
   */
  function Synthesis(wf: seq<Vector>, low: Vector, n: real): (r: Vector)
    requires forall l :: 0 <= l < |wf| ==> |wf[l]| == |low|
    ensures |r| == |low|
  {
    seq(|low|, i requires 0 <= i < |low| => n * ColumnSum(wf, i, |wf|) + low[i])
  }

  /**
   Perfect reconstruction for any bank whose filters add up to `I − A`: the
   synthesis of the transform and of the low-pass image `A·f` is `f`.
   */
  lemma {:induction false} SynthesisInverts(psi: seq<Matrix>, lowpass: Matrix, f: Vector, n: real)
    requires n != 0.0 && AllSquare(psi, |f|) && IsMatrix(lowpass, |f|, |f|)
    requires MatSum(psi, |f|) == MatSub(Identity(|f|), lowpass, |f|)
    ensures Synthesis(WaveletTransform(psi, f, n), MatVec(lowpass, f), n) == f
  {
    var r := Synthesis(WaveletTransform(psi, f, n), MatVec(lowpass, f), n);
    forall i | 0 <= i < |f|
      ensures r[i] == f[i]
    {
      RowOfComplement(psi, lowpass, |f|, i);
      ReconstructionAt(psi, lowpass, f, n, i);
    }
  }

  /**
   Perfect reconstruction: under the exp law, a signal is recovered from its
   transform over the whole bank and its low-pass image,
   `f = N·Σ_l Wf[l] + A_J·f`.
   */
  lemma Reconstruction(g: real -> real, lam: Vector, v: Matrix, J: nat, f: Vector, n: real)
    requires n != 0.0 && HasCols(v, |lam|) && |f| == |v| && ExpLaw(g, lam, J)
    ensures var b := CalculateWavelet(g, lam, v, J);
      Synthesis(WaveletTransform(b.psi, f, n), MatVec(b.lowpass, f), n) == f
  {
    var b := CalculateWavelet(g, lam, v, J);
    BankTelescopes(g, lam, v, J);
    SynthesisInverts(b.psi, b.lowpass, f, n);
  }
}
