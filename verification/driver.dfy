/**
 `compute_all_features` of pcnn/data/scattering_utils.py: the feature
 vector of every channel (column) of a multi-channel graph signal.
 */
module Driver {
  import opened LinAlg
  import opened Filters
  import opened Transform
  import opened Features

  /** `signal[:, c]`: channel `c` of a signal with one row per node. */
  function Column(signal: Matrix, c: nat): (x: Vector)
    requires forall i :: 0 <= i < |signal| ==> c < |signal[i]|
    ensures |x| == |signal|
    ensures forall i :: 0 <= i < |signal| ==> x[i] == signal[i][c]
  {
    seq(|signal|, i requires 0 <= i < |signal| => signal[i][c])
  }

  /** What a bank built for a `d`-node graph looks like, with at least one band-pass filter. */
  predicate BankShapes(b: Bank, d: nat) {
    |b.psi| >= 2 && AllSquare(b.psi, d) && IsMatrix(b.lowpass, d, d)
  }

  /**
   The length of one channel's feature vector for a `d`-node graph and a
   bank of `P` filters: one low-pass block, `P` first-order blocks and one
   second-order block per pair of filters, each of `d` values in the plain
   mode and one value per moment otherwise.
   */
  function FeatureLength(d: nat, P: nat, norm: Norm): nat {
    var width := if norm.NoNorm? then d else |norm.exponents|;
    width + P * width + Tri(P) * width
  }

  /**
   A channel's feature vector is empty exactly for a graph without nodes in
   plain mode: the one case in which `np.concatenate` (line 90 of
   pcnn/data/scattering_utils.py) is given nothing to join and raises.
   */
  lemma EmptyFeatureExactly(d: nat, P: nat, norm: Norm)
    requires ValidNorm(norm)
    ensures FeatureLength(d, P, norm) == 0 <==> norm.NoNorm? && d == 0
  {
    var width := if norm.NoNorm? then d else |norm.exponents|;
    assert FeatureLength(d, P, norm) == width + P * width + Tri(P) * width;
    assert P * width >= 0 && Tri(P) * width >= 0;
  }

  /**
   The body of the source's loop for one channel `f`: transform `f` with the
   bank and generate its features. The length depends only on the graph
   size, the number of filters and the moment list.
   */
  function ChannelFeature(b: Bank, f: Vector, n: real, norm: Norm): (r: Vector)
    requires n != 0.0 && ValidNorm(norm) && BankShapes(b, |f|)
    ensures |r| == FeatureLength(|f|, |b.psi|, norm)
  {
    var wf := WaveletTransform(b.psi, f, n);
    assert forall l :: 0 <= l < |wf| ==> |wf[l]| == |f|;
    GenerateFeature(b.psi, wf, b.lowpass, f, n, norm)
  }

  /** Negating a channel leaves the modulus of every band of its transform unchanged. */
  lemma NegatedModuli(b: Bank, f: Vector, n: real)
    requires n != 0.0 && BankShapes(b, |f|)
    ensures SameModuli(WaveletTransform(b.psi, f, n), WaveletTransform(b.psi, Scale(-1.0, f), n))
  {
    var wf := WaveletTransform(b.psi, f, n);
    var wf' := WaveletTransform(b.psi, Scale(-1.0, f), n);
    forall l | 0 <= l < |wf|
      ensures Abs(wf[l]) == Abs(wf'[l])
    {
      TransformNegate(b.psi, f, n, l);
    }
  }

  /** A channel's features: the zero-order block, then the first- and second-order blocks. */
  lemma ChannelBlocks(b: Bank, f: Vector, n: real, norm: Norm)
    requires n != 0.0 && ValidNorm(norm) && BankShapes(b, |f|)
    ensures var wf := WaveletTransform(b.psi, f, n);
      && FirstOrderShapes(wf, b.lowpass, norm) && SecondOrderShapes(b.psi, wf)
      && ChannelFeature(b, f, n, norm)
         == ZeroOrder(b.lowpass, f, n, norm) + (FirstOrder(wf, b.lowpass, n, norm) + SecondOrder(b.psi, wf, n, norm))
  {
    var wf := WaveletTransform(b.psi, f, n);
    assert forall l :: 0 <= l < |wf| ==> |wf[l]| == |f|;
  }

  /**
   Scattering moments do not see the sign of the signal, and in the plain
   mode only the zero-order (low-pass) block changes sign: every first- and
   second-order entry is taken after a modulus.
   */
  lemma {:induction false} ChannelSignInvariance(b: Bank, f: Vector, n: real, norm: Norm)
    requires n != 0.0 && ValidNorm(norm) && BankShapes(b, |f|)
    ensures norm.Moments? ==> ChannelFeature(b, Scale(-1.0, f), n, norm) == ChannelFeature(b, f, n, norm)
    ensures norm.NoNorm? ==>
      ChannelFeature(b, Scale(-1.0, f), n, norm)[..|f|] == Scale(-1.0, ChannelFeature(b, f, n, norm)[..|f|])
    ensures norm.NoNorm? ==>
      ChannelFeature(b, Scale(-1.0, f), n, norm)[|f|..] == ChannelFeature(b, f, n, norm)[|f|..]
  {
    var f' := Scale(-1.0, f);
    var wf := WaveletTransform(b.psi, f, n);
    var wf' := WaveletTransform(b.psi, f', n);
    ChannelBlocks(b, f, n, norm);
    ChannelBlocks(b, f', n, norm);
    NegatedModuli(b, f, n);
    FirstOrderModuliOnly(wf, wf', b.lowpass, n, norm);
    SecondOrderModuliOnly(b.psi, wf, wf', n, norm);
    var z := ZeroOrder(b.lowpass, f, n, norm);
    var z' := ZeroOrder(b.lowpass, f', n, norm);
    var rest := FirstOrder(wf, b.lowpass, n, norm) + SecondOrder(b.psi, wf, n, norm);
    match norm
    case Moments(ps) =>
      AbsNegate(f);
    case NoNorm =>
      MatVecNegate(b.lowpass, f);
      ScaleNegate(Recip(n), MatVec(b.lowpass, f));
      assert (z + rest)[..|f|] == z;
      assert (z' + rest)[..|f|] == z';
      assert (z + rest)[|f|..] == rest;
      assert (z' + rest)[|f|..] == rest;
  }

  /** A per-channel feature map applied to channels `0 .. m-1`, in channel order. */
  function MapChannels(feature: Vector -> Vector, signal: Matrix, m: nat): (fs: seq<Vector>)
    requires forall i :: 0 <= i < |signal| ==> m <= |signal[i]|
    ensures |fs| == m
  {
    if m == 0 then [] else MapChannels(feature, signal, m - 1) + [feature(Column(signal, m - 1))]
  }

  /** Entry `k` of `MapChannels` is the map applied to channel `k`. */
  lemma {:induction false} MapChannelsAt(feature: Vector -> Vector, signal: Matrix, m: nat, k: nat)
    requires forall i :: 0 <= i < |signal| ==> m <= |signal[i]|
    requires k < m
    ensures MapChannels(feature, signal, m)[k] == feature(Column(signal, k))
  {
    if k < m - 1 {
      MapChannelsAt(feature, signal, m - 1, k);
    }
  }

  /**
   The source's loop over the channels, for any per-channel map: channel
   `c` is mapped and appended, in channel order.
   */
  method MapColumns(feature: Vector -> Vector, signal: Matrix, channels: nat) returns (feats: seq<Vector>)
    requires forall i :: 0 <= i < |signal| ==> channels <= |signal[i]|
    ensures feats == MapChannels(feature, signal, channels)
  {
    feats := [];
    var c := 0;
    while c < channels
      invariant c <= channels
      invariant feats == MapChannels(feature, signal, c)
    {
      feats := feats + [feature(Column(signal, c))];
      c := c + 1;
    }
  }

  /**
   The body of the source's loop as a map on channels: build the bank, then
   take the channel's features under it (empty off the domain the source accepts).
   */
  function ChannelStep(g: real -> real, lam: Vector, v: Matrix, J: nat, n: real, norm: Norm): Vector -> Vector {
    f => if J >= 1 && n != 0.0 && ValidNorm(norm) && HasCols(v, |lam|) && |f| == |v|
         then ChannelFeature(CalculateWavelet(g, lam, v, J), f, n, norm) else []
  }

  /** With `J` scales the bank has `J + 1` filters, which fixes every channel's feature length. */
  lemma ChannelFeatureLength(g: real -> real, lam: Vector, v: Matrix, J: nat, f: Vector, n: real, norm: Norm)
    requires J >= 1 && n != 0.0 && ValidNorm(norm) && HasCols(v, |lam|) && |f| == |v|
    ensures |ChannelFeature(CalculateWavelet(g, lam, v, J), f, n, norm)| == FeatureLength(|v|, J + 1, norm)
  {
  }

  /**
   `compute_all_features`: for every channel in turn, build the bank, take
   the transform of the channel and generate its features. The bank does not
   depend on the channel, so entry `c` is the feature vector of channel `c`
   under the one bank `calculate_wavelet` builds, and all entries have the
   same length.
   */
  method ComputeAllFeatures(g: real -> real, lam: Vector, v: Matrix, signal: Matrix, channels: nat,
                            n: real, norm: Norm, J: nat) returns (feats: seq<Vector>)
    requires J >= 1 && n != 0.0 && ValidNorm(norm) && HasCols(v, |lam|)
    requires IsMatrix(signal, |v|, channels)
    ensures |feats| == channels
    ensures forall c :: 0 <= c < channels ==>
      feats[c] == ChannelFeature(CalculateWavelet(g, lam, v, J), Column(signal, c), n, norm)
    ensures forall c :: 0 <= c < channels ==> |feats[c]| == FeatureLength(|v|, J + 1, norm)
  {
    feats := MapColumns(ChannelStep(g, lam, v, J, n, norm), signal, channels);
    forall c | 0 <= c < channels
      ensures feats[c] == ChannelFeature(CalculateWavelet(g, lam, v, J), Column(signal, c), n, norm)
      ensures |feats[c]| == FeatureLength(|v|, J + 1, norm)
    {
      MapChannelsAt(ChannelStep(g, lam, v, J, n, norm), signal, channels, c);
      ChannelFeatureLength(g, lam, v, J, Column(signal, c), n, norm);
    }
  }
}
