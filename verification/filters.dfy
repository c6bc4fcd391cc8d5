/**
 The spectral filter bank (`g`, `h`, `calculate_wavelet`,
 `compute_wavelet_filter` of pcnn/data/scattering_utils.py).

 Every filter has the form `V·diag(r)·Vᵀ` for a response vector `r` over the
 eigenvalues `λ`; `V` has one row per node and one column per eigenvalue.
 The heat kernel `g(λ) = exp(−λ)` is a parameter `g` of the model: the
 properties below assume only what they state about its values.
 */
module Filters {
  import opened LinAlg

  /** `2^j` as a natural number. */
  function Pow2(j: nat): (r: nat)
    ensures r >= 1
  {
    if j == 0 then 1 else 2 * Pow2(j - 1)
  }

  /** Band-pass response `h(λ, j) = g(λ)^(2^(j-1)) − g(λ)^(2^j)` of dilation `j ≥ 1`. */
  function H(g: real -> real, lam: real, j: nat): real
    requires j >= 1
  {
    Pow(g(lam), Pow2(j - 1)) - Pow(g(lam), Pow2(j))
  }

  /** `Σ_{j=1..J} h(λ, j)`. */
  function BandSum(g: real -> real, lam: real, J: nat): real
  {
    if J == 0 then 0.0 else BandSum(g, lam, J - 1) + H(g, lam, J)
  }

  /** `g` applied to every eigenvalue (`g(eigenval)`). */
  function Diffusion(g: real -> real, lam: Vector): (r: Vector)
    ensures |r| == |lam|
    ensures forall k :: 0 <= k < |lam| ==> r[k] == g(lam[k])
  {
    seq(|lam|, k requires 0 <= k < |lam| => g(lam[k]))
  }

  /** `h(eigenval, j)`. */
  function BandResponse(g: real -> real, lam: Vector, j: nat): (r: Vector)
    requires j >= 1
    ensures |r| == |lam|
    ensures forall k :: 0 <= k < |lam| ==> r[k] == H(g, lam[k], j)
  {
    seq(|lam|, k requires 0 <= k < |lam| => H(g, lam[k], j))
  }

  /** `g(λ)^e` for every eigenvalue. */
  function Powers(g: real -> real, lam: Vector, e: nat): (r: Vector)
    ensures |r| == |lam|
    ensures forall k :: 0 <= k < |lam| ==> r[k] == Pow(g(lam[k]), e)
  {
    seq(|lam|, k requires 0 <= k < |lam| => Pow(g(lam[k]), e))
  }

  /** Every eigenvalue dilated by `2^J` (`eigenval * 2**J`). */
  function Dilate(lam: Vector, J: nat): (r: Vector)
    ensures |r| == |lam|
  {
    Scale(Pow2(J) as real, lam)
  }

  /**
   The law of `exp` the low-pass operator relies on, at the given eigenvalues:
   `g(2^J·λ) = g(λ)^(2^J)`.
   */
  predicate ExpLaw(g: real -> real, lam: Vector, J: nat) {
    forall k :: 0 <= k < |lam| ==> g((Pow2(J) as real) * lam[k]) == Pow(g(lam[k]), Pow2(J))
  }

  /** Entry `(a, b)` of `V·diag(r)·Vᵀ`: `Σ_k V[a][k]·r[k]·V[b][k]`. */
  function FilterEntry(v: Matrix, r: Vector, a: nat, b: nat): real
    requires HasCols(v, |r|) && a < |v| && b < |v|
  {
    Dot(Hadamard(v[a], r), v[b])
  }

  /** `V·diag(r)·Vᵀ`, written as the source writes it: `einsum('ik,jk->ij', V * r, V)`. */
  function SpectralFilter(v: Matrix, r: Vector): (m: Matrix)
    requires HasCols(v, |r|)
    ensures IsMatrix(m, |v|, |v|)
    ensures forall a, b :: 0 <= a < |v| && 0 <= b < |v| ==> m[a][b] == FilterEntry(v, r, a, b)
  {
    var scaled := seq(|v|, i requires 0 <= i < |v| => Hadamard(v[i], r));
    MulTransposed(scaled, v, |r|)
  }

  /** `compute_wavelet_filter`: the band-pass filter of dilation `j`. */
  function WaveletFilter(g: real -> real, lam: Vector, v: Matrix, j: nat): (m: Matrix)
    requires j >= 1 && HasCols(v, |lam|)
    ensures IsMatrix(m, |v|, |v|)
  {
    SpectralFilter(v, BandResponse(g, lam, j))
  }

  /** A filter bank `ψ = [ψ_0, ψ_1, …, ψ_J]` together with the low-pass operator `A_J`. */
  datatype Bank = Bank(psi: seq<Matrix>, lowpass: Matrix)

  /**
   `calculate_wavelet`: filter 0 is `I − V·diag(g(λ))·Vᵀ`, filter `j` (1 ≤ j ≤ J)
   is the band-pass filter of dilation `j`, and the low-pass operator is
   `V·diag(g(2^J·λ))·Vᵀ`.
   */
  function CalculateWavelet(g: real -> real, lam: Vector, v: Matrix, J: nat): (b: Bank)
    requires HasCols(v, |lam|)
    ensures |b.psi| == J + 1
    ensures AllSquare(b.psi, |v|) && IsMatrix(b.lowpass, |v|, |v|)
    ensures b.psi[0] == MatSub(Identity(|v|), SpectralFilter(v, Diffusion(g, lam)), |v|)
    ensures b.lowpass == SpectralFilter(v, Diffusion(g, Dilate(lam, J)))
  {
    var n := |v|;
    var first := MatSub(Identity(n), SpectralFilter(v, Diffusion(g, lam)), n);
    var bands := seq(J, j requires 0 <= j < J => WaveletFilter(g, lam, v, j + 1));
    Bank([first] + bands, SpectralFilter(v, Diffusion(g, Dilate(lam, J))))
  }

  /** Filter `j` of the bank, for `1 ≤ j ≤ J`, is the band-pass filter of dilation `j`. */
  lemma BankLayout(g: real -> real, lam: Vector, v: Matrix, J: nat, j: nat)
    requires HasCols(v, |lam|) && 1 <= j <= J
    ensures CalculateWavelet(g, lam, v, J).psi[j] == WaveletFilter(g, lam, v, j)
  {
  }

  // ---- Responses ------------------------------------------------------------

  /** While `0 < g(λ) ≤ 1` (true of `exp(−λ)` for `λ ≥ 0`), every band-pass response lies in `[0, 1]`. */
  lemma HNonNegative(g: real -> real, lam: real, j: nat)
    requires j >= 1 && 0.0 < g(lam) <= 1.0
    ensures 0.0 <= H(g, lam, j) <= 1.0
  {
    PowAntitone(g(lam), Pow2(j - 1), Pow2(j));
    PowUnitInterval(g(lam), Pow2(j - 1));
    PowUnitInterval(g(lam), Pow2(j));
  }

  /**
   The band-pass responses telescope: `Σ_{j=1..J} h(λ, j) = g(λ) − g(λ)^(2^J)`,
   so filter 0 and the band-pass filters together respond with
   `1 − g(λ)^(2^J)`, which under the exp law is `1 − g(2^J·λ)`, the complement
   of the low-pass response.
   */
  lemma {:induction false} ResponsesTelescope(g: real -> real, lam: real, J: nat)
    ensures BandSum(g, lam, J) == g(lam) - Pow(g(lam), Pow2(J))
    ensures (1.0 - g(lam)) + BandSum(g, lam, J) == 1.0 - Pow(g(lam), Pow2(J))
  {
    if J == 0 {
      assert Pow2(0) == 1;
      assert Pow(g(lam), 1) == g(lam) * Pow(g(lam), 0);
    } else {
      ResponsesTelescope(g, lam, J - 1);
      assert BandSum(g, lam, J) == BandSum(g, lam, J - 1) + H(g, lam, J);
    }
  }

  /**
   Under the exp law the responses of filter 0, the band-pass filters and
   the low-pass operator add up to one at every eigenvalue.
   */
  lemma PartitionOfUnity(g: real -> real, lam: real, J: nat)
    requires g((Pow2(J) as real) * lam) == Pow(g(lam), Pow2(J))
    ensures (1.0 - g(lam)) + BandSum(g, lam, J) + g((Pow2(J) as real) * lam) == 1.0
  {
    ResponsesTelescope(g, lam, J);
  }

  // ---- Filters --------------------------------------------------------------

  /** `V·diag(r)·Vᵀ` is symmetric. */
  lemma FilterSymmetric(v: Matrix, r: Vector)
    requires HasCols(v, |r|)
    ensures IsSymmetric(SpectralFilter(v, r), |v|)
  {
    forall a, b | 0 <= a < |v| && 0 <= b < |v|
      ensures SpectralFilter(v, r)[a][b] == SpectralFilter(v, r)[b][a]
    {
      DotWeightedSymmetric(v[a], r, v[b]);
    }
  }

  /** `V·diag(r1)·Vᵀ = V·diag(r2)·Vᵀ + V·diag(r1 − r2)·Vᵀ`, entry by entry. */
  lemma FilterLinear(v: Matrix, r1: Vector, r2: Vector, a: nat, b: nat)
    requires |r1| == |r2| && HasCols(v, |r1|) && a < |v| && b < |v|
    ensures FilterEntry(v, r1, a, b) == FilterEntry(v, r2, a, b) + FilterEntry(v, VecSub(r1, r2), a, b)
  {
    var d := VecSub(r1, r2);
    forall k | 0 <= k < |r1|
      ensures Hadamard(v[a], r1)[k] == VecAdd(Hadamard(v[a], r2), Hadamard(v[a], d))[k]
    {
      assert v[a][k] * r1[k] == v[a][k] * r2[k] + v[a][k] * (r1[k] - r2[k]);
    }
    assert Hadamard(v[a], r1) == VecAdd(Hadamard(v[a], r2), Hadamard(v[a], d));
    DotAdd(Hadamard(v[a], r2), Hadamard(v[a], d), v[b]);
  }

  /** Every filter of the bank and the low-pass operator are symmetric matrices. */
  lemma BankSymmetric(g: real -> real, lam: Vector, v: Matrix, J: nat)
    requires HasCols(v, |lam|)
    ensures var b := CalculateWavelet(g, lam, v, J);
      (forall j :: 0 <= j <= J ==> IsSymmetric(b.psi[j], |v|)) && IsSymmetric(b.lowpass, |v|)
  {
    var b := CalculateWavelet(g, lam, v, J);
    FilterSymmetric(v, Diffusion(g, Dilate(lam, J)));
    forall j | 0 <= j <= J
      ensures IsSymmetric(b.psi[j], |v|)
    {
      BankFilterSymmetric(g, lam, v, J, j);
    }
  }

  /** Filter `j` of the bank is symmetric: `I − V·diag(g(λ))·Vᵀ` for `j = 0`, a band-pass filter otherwise. */
  lemma BankFilterSymmetric(g: real -> real, lam: Vector, v: Matrix, J: nat, j: nat)
    requires HasCols(v, |lam|) && j <= J
    ensures IsSymmetric(CalculateWavelet(g, lam, v, J).psi[j], |v|)
  {
    if j == 0 {
      FilterSymmetric(v, Diffusion(g, lam));
    } else {
      BankLayout(g, lam, v, J, j);
      FilterSymmetric(v, BandResponse(g, lam, j));
    }
  }

  /** Entry `(a, b)` of filter `j` of the bank, as `calculate_wavelet` builds it. */
  function BankEntry(g: real -> real, lam: Vector, v: Matrix, j: nat, a: nat, b: nat): real
    requires HasCols(v, |lam|) && a < |v| && b < |v|
  {
    if j == 0 then (if a == b then 1.0 else 0.0) - FilterEntry(v, Diffusion(g, lam), a, b)
    else FilterEntry(v, BandResponse(g, lam, j), a, b)
  }

  /** `Σ_{i=0..j}` of entry `(a, b)` of filter `i`. */
  function BankEntrySum(g: real -> real, lam: Vector, v: Matrix, j: nat, a: nat, b: nat): real
    requires HasCols(v, |lam|) && a < |v| && b < |v|
  {
    BankEntry(g, lam, v, j, a, b) + if j == 0 then 0.0 else BankEntrySum(g, lam, v, j - 1, a, b)
  }

  /** The band-pass response of dilation `j` is the difference of two consecutive dyadic powers. */
  lemma BandIsDifference(g: real -> real, lam: Vector, j: nat)
    requires j >= 1
    ensures BandResponse(g, lam, j) == VecSub(Powers(g, lam, Pow2(j - 1)), Powers(g, lam, Pow2(j)))
  {
    var d := VecSub(Powers(g, lam, Pow2(j - 1)), Powers(g, lam, Pow2(j)));
    forall k | 0 <= k < |lam|
      ensures BandResponse(g, lam, j)[k] == d[k]
    {
    }
  }

  /** `g(λ)^(2^0)` is the one-step diffusion response `g(λ)`. */
  lemma DiffusionIsFirstPower(g: real -> real, lam: Vector)
    ensures Diffusion(g, lam) == Powers(g, lam, Pow2(0))
  {
    forall k | 0 <= k < |lam|
      ensures Pow(g(lam[k]), 1) == g(lam[k])
    {
      assert Pow(g(lam[k]), 1) == g(lam[k]) * Pow(g(lam[k]), 0);
    }
  }

  /**
   The first `j + 1` filters add up to `I − V·diag(g(λ)^(2^j))·Vᵀ`, entry
   by entry.
   */
  lemma {:induction false} BankEntrySumTelescopes(g: real -> real, lam: Vector, v: Matrix, j: nat, a: nat, b: nat)
    requires HasCols(v, |lam|) && a < |v| && b < |v|
    ensures BankEntrySum(g, lam, v, j, a, b)
         == (if a == b then 1.0 else 0.0) - FilterEntry(v, Powers(g, lam, Pow2(j)), a, b)
  {
    if j == 0 {
      DiffusionIsFirstPower(g, lam);
    } else {
      BankEntrySumTelescopes(g, lam, v, j - 1, a, b);
      BandIsDifference(g, lam, j);
      FilterLinear(v, Powers(g, lam, Pow2(j - 1)), Powers(g, lam, Pow2(j)), a, b);
    }
  }

  /** Entry `(a, b)` of filter `j` of the bank is `BankEntry`. */
  lemma BankEntryOf(g: real -> real, lam: Vector, v: Matrix, J: nat, j: nat, a: nat, b: nat)
    requires HasCols(v, |lam|) && j <= J && a < |v| && b < |v|
    ensures CalculateWavelet(g, lam, v, J).psi[j][a][b] == BankEntry(g, lam, v, j, a, b)
  {
  }

  /** Summing, entry by entry, the first `m` filters of a bank laid out as `BankEntry` is `BankEntrySum` up to `m − 1`. */
  lemma {:induction false} BankPrefixSum(g: real -> real, lam: Vector, v: Matrix, psi: seq<Matrix>, m: nat, a: nat, b: nat)
    requires HasCols(v, |lam|) && AllSquare(psi, |v|) && 1 <= m <= |psi| && a < |v| && b < |v|
    requires forall j :: 0 <= j < m ==> psi[j][a][b] == BankEntry(g, lam, v, j, a, b)
    ensures EntrySum(psi, |v|, a, b, m) == BankEntrySum(g, lam, v, m - 1, a, b)
  {
    if m > 1 {
      BankPrefixSum(g, lam, v, psi, m - 1, a, b);
    }
  }

  /** Under the exp law the low-pass response `g(2^J·λ)` is `g(λ)^(2^J)`. */
  lemma LowpassIsPower(g: real -> real, lam: Vector, J: nat)
    requires ExpLaw(g, lam, J)
    ensures Diffusion(g, Dilate(lam, J)) == Powers(g, lam, Pow2(J))
  {
    var d := Diffusion(g, Dilate(lam, J));
    forall k | 0 <= k < |lam|
      ensures d[k] == Powers(g, lam, Pow2(J))[k]
    {
      assert Dilate(lam, J)[k] == (Pow2(J) as real) * lam[k];
    }
  }

  /** Entry `(a, c)` of every filter of the bank and of the low-pass operator, as `BankEntry` and `FilterEntry` give them. */
  lemma BankEntries(g: real -> real, lam: Vector, v: Matrix, J: nat, a: nat, c: nat)
    requires HasCols(v, |lam|) && a < |v| && c < |v|
    ensures var b := CalculateWavelet(g, lam, v, J);
      && (forall j :: 0 <= j < J + 1 ==> b.psi[j][a][c] == BankEntry(g, lam, v, j, a, c))
      && b.lowpass[a][c] == FilterEntry(v, Diffusion(g, Dilate(lam, J)), a, c)
  {
    forall j | 0 <= j < J + 1
      ensures CalculateWavelet(g, lam, v, J).psi[j][a][c] == BankEntry(g, lam, v, j, a, c)
    {
      BankEntryOf(g, lam, v, J, j, a, c);
    }
  }

  /**
   Entry `(a, c)` of the telescoping identity, for any `J + 1` filters and
   low-pass operator laid out as `calculate_wavelet` lays them out.
   */
  lemma TelescopesAt(g: real -> real, lam: Vector, v: Matrix, J: nat, psi: seq<Matrix>, lowpass: Matrix, a: nat, c: nat)
    requires HasCols(v, |lam|) && ExpLaw(g, lam, J) && a < |v| && c < |v|
    requires |psi| == J + 1 && AllSquare(psi, |v|) && IsMatrix(lowpass, |v|, |v|)
    requires forall j :: 0 <= j < J + 1 ==> psi[j][a][c] == BankEntry(g, lam, v, j, a, c)
    requires lowpass[a][c] == FilterEntry(v, Diffusion(g, Dilate(lam, J)), a, c)
    ensures EntrySum(psi, |v|, a, c, J + 1) == Identity(|v|)[a][c] - lowpass[a][c]
  {
    LowpassIsPower(g, lam, J);
    BankPrefixSum(g, lam, v, psi, J + 1, a, c);
    BankEntrySumTelescopes(g, lam, v, J, a, c);
    assert lowpass[a][c] == FilterEntry(v, Powers(g, lam, Pow2(J)), a, c);
    assert Identity(|v|)[a][c] == (if a == c then 1.0 else 0.0);
  }

  /** Entry `(a, c)` of the telescoping identity of the bank. */
  lemma BankTelescopesAt(g: real -> real, lam: Vector, v: Matrix, J: nat, a: nat, c: nat)
    requires HasCols(v, |lam|) && ExpLaw(g, lam, J) && a < |v| && c < |v|
    ensures var b := CalculateWavelet(g, lam, v, J);
      EntrySum(b.psi, |v|, a, c, J + 1) == Identity(|v|)[a][c] - b.lowpass[a][c]
  {
    var b := CalculateWavelet(g, lam, v, J);
    BankEntries(g, lam, v, J, a, c);
    TelescopesAt(g, lam, v, J, b.psi, b.lowpass, a, c);
  }

  /**
   The telescoping identity of the bank: under the exp law,
   `ψ_0 + ψ_1 + … + ψ_J = I − A_J`.
   */
  lemma BankTelescopes(g: real -> real, lam: Vector, v: Matrix, J: nat)
    requires HasCols(v, |lam|) && ExpLaw(g, lam, J)
    ensures var b := CalculateWavelet(g, lam, v, J);
      MatSum(b.psi, |v|) == MatSub(Identity(|v|), b.lowpass, |v|)
  {
    var b := CalculateWavelet(g, lam, v, J);
    var n := |v|;
    var lhs := MatSum(b.psi, n);
    var rhs := MatSub(Identity(n), b.lowpass, n);
    forall a | 0 <= a < n
      ensures lhs[a] == rhs[a]
    {
      forall c | 0 <= c < n
        ensures lhs[a][c] == rhs[a][c]
      {
        BankTelescopesAt(g, lam, v, J, a, c);
      }
    }
  }
}
