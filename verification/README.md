# Graph wavelet scattering features, in Dafny

This project models the feature-extraction core of
`pcnn/data/scattering_utils.py` over exact `real` arithmetic and proves
properties of it. The core has four stages:

- **The spectral filter bank** (`g`, `h`, `calculate_wavelet`,
  `compute_wavelet_filter`). From eigenvalues `λ` and eigenvectors `V` of a
  graph it builds `J + 1` filters, each of the form `V·diag(r)·Vᵀ`:
  - filter 0 is `I − V·diag(g(λ))·Vᵀ`;
  - filter `j` (for `1 ≤ j ≤ J`) has the band-pass response
    `h(λ, j) = g(λ)^(2^(j−1)) − g(λ)^(2^j)`.

  It also builds the low-pass operator `A_J = V·diag(g(2^J·λ))·Vᵀ`.
  These live in module `Filters`.
- **The wavelet transform** (`weighted_wavelet_transform`). It computes
  `(1/N)·ψ·f` for each filter `ψ`, in filter order. This lives in module
  `Transform`.
- **The aggregators** (`zero_order_feature`, `first_order_feature`,
  `selected_second_order_feature`, `generate_feature`). Each one either keeps
  the per-node values or replaces them by one power sum `Σ_i x_i^p` per
  exponent `p` of the moment list. These live in module `Features`.
- **The driver** (`compute_all_features`). It produces one feature vector per
  channel (column) of a multi-channel signal. This lives in module `Driver`.

Module `LinAlg` holds the vector and matrix vocabulary:
- products;
- sums of matrices;
- natural powers;
- row-major flattening, which models `reshape(-1, 1)`, `np.vstack` of columns and `concatenate(axis=1)`.

The heat kernel `g = exp(−·)` is a parameter `g: real -> real`. A property
that needs a fact about `exp` states that fact as a hypothesis:
- `0 < g(λ) ≤ 1` at an eigenvalue `λ ≥ 0`;
- or the exp law `g(2^J·λ) = g(λ)^(2^J)` at every eigenvalue (`Filters.ExpLaw`).

Shapes that numpy would reject are preconditions. The same goes for `J ≥ 1`
(the source reads `psi[1]`), `N ≠ 0` (the source divides by `N`) and a
non-empty moment list (the source reads `norm_list[0]`).

The model follows the code on the following points.
- The driver transforms the channel with the **whole** bank, filter 0
  included (lines 87-88). So `Wf` has `J + 1` responses and the first-order
  block has `J + 1` stretches.
- The second-order cascade runs over every pair `0 ≤ j1 < j2 ≤ J`
  (lines 53-58). That is `J(J+1)/2` rows, ordered by `j2` and then by `j1`.
  It is not limited to pairs of band-pass filters.
- One channel's feature length is `w + (J+1)·w + J(J+1)/2·w`, where `w` is
  the node count in plain mode and the number of exponents in moment mode
  (`Driver.FeatureLength`, `Features.TriClosedForm`).
- The second-order rows are not passed through `A_J`. The plain zero- and
  first-order blocks are scaled by `1/N`; the zero-order moments are not.
- First-order moments are laid out wavelet-major (entry `l·K + k`).
  Second-order moments are laid out exponent-major (entry `k·P + q`).

## Model

| member | source | states |
|---|---|---|
| `Filters.HNonNegative` | pcnn/data/scattering_utils.py:6-12 | while `0 < g(λ) ≤ 1`, the band-pass response `h(λ, j)` lies in `[0, 1]` for every `j ≥ 1` |
| `Filters.ResponsesTelescope` | pcnn/data/scattering_utils.py:6-12 | `Σ_{j=1..J} h(λ, j) = g(λ) − g(λ)^(2^J)`, so filter 0 and the band-pass filters together respond with `1 − g(λ)^(2^J)` |
| `Filters.PartitionOfUnity` | pcnn/data/scattering_utils.py:14-21 | under the exp law, the responses of filter 0, the `J` band-pass filters and the low-pass operator add up to 1 at every eigenvalue |
| `Filters.BandIsDifference` | pcnn/data/scattering_utils.py:6-9 | the response of `compute_wavelet_filter` at dilation `j` is the difference of the dyadic powers `2^(j−1)` and `2^j` of `g(λ)` |
| `Filters.FilterSymmetric` | pcnn/data/scattering_utils.py:23-25 | every `einsum('ik,jk->ij', V * r, V)` is a symmetric matrix |
| `Filters.FilterLinear` | pcnn/data/scattering_utils.py:23-25 | the filter is linear in its response: `V·diag(r1)·Vᵀ = V·diag(r2)·Vᵀ + V·diag(r1 − r2)·Vᵀ` entry by entry |
| `Filters.CalculateWavelet` | pcnn/data/scattering_utils.py:14-21 | the bank has exactly `J + 1` filters, every filter and the low-pass operator are `n×n` for `n` nodes, filter 0 is `I − V·diag(g(λ))·Vᵀ` and the low-pass operator is `V·diag(g(2^J·λ))·Vᵀ` |
| `Filters.BankLayout` | pcnn/data/scattering_utils.py:19-20 | filter `j`, for `1 ≤ j ≤ J`, is the `compute_wavelet_filter` of dilation `j` |
| `Filters.BankSymmetric` | pcnn/data/scattering_utils.py:14-21 | every filter of the bank and the low-pass operator are symmetric |
| `Filters.LowpassIsPower` | pcnn/data/scattering_utils.py:21 | under the exp law the low-pass response `g(2^J·λ)` is the `2^J`-th power of `g(λ)` |
| `Filters.BankTelescopes` | pcnn/data/scattering_utils.py:14-21 | under the exp law the filters add up to the complement of the low-pass operator: `ψ_0 + … + ψ_J = I − A_J` |
| `Transform.WaveletTransform` | pcnn/data/scattering_utils.py:27-29 | one response per filter given, in the order given, each as long as its filter has rows |
| `Transform.TransformEntry` | pcnn/data/scattering_utils.py:27-29 | response `l` at node `i` is `(1/N)` times row `i` of `ψ_l` applied to `f` |
| `Transform.TransformNegate` | pcnn/data/scattering_utils.py:27-29 | the modulus of every response is the same for `−f` as for `f` |
| `Transform.TransformSum` | pcnn/data/scattering_utils.py:27-29 | summing the responses of the first `m` filters equals filtering with the sum of those filters |
| `Transform.SynthesisInverts` | pcnn/data/scattering_utils.py:27-29 | for any bank whose filters add up to `I − A`, `N·Σ_l Wf[l] + A·f` gives back `f` |
| `Transform.Reconstruction` | pcnn/data/scattering_utils.py:14-29 | for the bank `calculate_wavelet` builds, under the exp law, a signal is recovered exactly from its transform and its low-pass image: `f = N·Σ_l Wf[l] + A_J·f` |
| `Features.ZeroOrder` | pcnn/data/scattering_utils.py:31-39 | the zero-order block has one entry per node in plain mode and one entry per exponent in moment mode |
| `Features.ZeroOrderIsLowpass` | pcnn/data/scattering_utils.py:31-33 | `N` times the plain zero-order feature at node `i` is row `i` of `A_J` applied to `f` |
| `Features.ZeroOrderMoment` | pcnn/data/scattering_utils.py:34-38 | moment `k` is `Σ_i abs(f_i)^(p_k)` regardless of `A_J` and `N`, and it is non-negative |
| `Features.FirstOrder` | pcnn/data/scattering_utils.py:41-50 | the first-order block has `len(Wf)·n` entries in plain mode and `len(Wf)·K` entries for `K` exponents in moment mode |
| `Features.FirstOrderEntry` | pcnn/data/scattering_utils.py:42-44 | plain entry `l·n + i` is the zero-order feature of the modulus `abs(Wf[l])` at node `i` |
| `Features.FirstOrderMoment` | pcnn/data/scattering_utils.py:45-50 | moment entry `l·K + k` (wavelet-major) is the `p_k`-th power sum of `(1/N)·abs(Wf[l])` |
| `Features.FirstOrderMomentNonNegative` | pcnn/data/scattering_utils.py:45-50 | with a positive `N`, every first-order moment is non-negative |
| `Features.FirstOrderModuliOnly` | pcnn/data/scattering_utils.py:41-50 | the first-order block depends on the responses only through their moduli |
| `Features.TriClosedForm` | pcnn/data/scattering_utils.py:53-58 | `m` filters give `m(m−1)/2` second-order pairs |
| `Features.Pairs` | pcnn/data/scattering_utils.py:53-58 | every listed pair has `j1 < j2 < m`, and the pair at position `q` has `PairIndex` equal to `q` |
| `Features.PairsComplete` | pcnn/data/scattering_utils.py:53-58 | every pair `j1 < j2 < m` is listed, at position `j2(j2−1)/2 + j1` |
| `Features.PairIndexOrdered` | pcnn/data/scattering_utils.py:53-58 | pairs are ordered by `j2` first and by `j1` within the same `j2` |
| `Features.CascadeRow` | pcnn/data/scattering_utils.py:53-58 | row `q` of the concatenated `einsum` blocks is `(1/N)·psi[j2]·abs(Wf[j1])` for the `q`-th pair `(j1, j2)` |
| `Features.SecondOrderRow` | pcnn/data/scattering_utils.py:53-59 | row `PairIndex(j1, j2)` of `abs(F2)` is the modulus of the response of path `(j1, j2)` |
| `Features.SecondOrder` | pcnn/data/scattering_utils.py:52-67 | the second-order block has `P·w` entries in plain mode and `K·P` entries in moment mode, where `P` is the number of pairs and `w` the row length of `psi[1]` |
| `Features.SecondOrderEntry` | pcnn/data/scattering_utils.py:59-61 | plain entry `PairIndex(j1, j2)·w + i` is the modulus of `psi[j2]` applied, with weight `1/N`, to `abs(Wf[j1])`, at node `i` |
| `Features.SecondOrderMoment` | pcnn/data/scattering_utils.py:62-67 | moment entry `k·P + PairIndex(j1, j2)` (exponent-major) is the `p_k`-th power sum of the modulus of path `(j1, j2)` |
| `Features.SecondOrderNonNegative` | pcnn/data/scattering_utils.py:59-67 | every second-order entry is non-negative, in both modes |
| `Features.SecondOrderModuliOnly` | pcnn/data/scattering_utils.py:52-67 | the second-order block depends on the responses only through their moduli |
| `Features.GenerateFeature` | pcnn/data/scattering_utils.py:69-76 | the concatenated length is the sum of the three blocks' lengths, determined by the shapes and the mode |
| `Driver.ChannelFeature` | pcnn/data/scattering_utils.py:86-89 | one channel's feature length depends only on the node count, the number of filters and the mode |
| `Driver.ChannelBlocks` | pcnn/data/scattering_utils.py:69-76 | a channel's features are the zero-order block followed by the first- and second-order blocks of its transform |
| `Driver.ChannelSignInvariance` | pcnn/data/scattering_utils.py:69-76 | negating a channel leaves its moment features unchanged; in plain mode it negates the zero-order block and leaves everything after it unchanged |
| `Driver.ChannelFeatureLength` | pcnn/data/scattering_utils.py:85-89 | with `J` scales, each channel's feature has length `w + (J+1)·w + J(J+1)/2·w` |
| `Driver.MapChannelsAt` | pcnn/data/scattering_utils.py:84-90 | entry `k` of the per-channel list is the feature map applied to column `k` |
| `Driver.MapColumns` | pcnn/data/scattering_utils.py:84-91 | the loop appends the features of columns `0 … channels−1`, in column order |
| `Driver.EmptyFeatureExactly` | pcnn/data/scattering_utils.py:85-90 | a channel's feature is empty exactly for a graph without nodes in plain mode, the one input on which the concatenation at line 90 has nothing to join |
| `Driver.ComputeAllFeatures` | pcnn/data/scattering_utils.py:78-91 | one vector per column; entry `c` is column `c`'s features under the one bank `calculate_wavelet` builds, so rebuilding it per channel changes nothing; every entry has the same length |
| `LinAlg.FlattenAt` | pcnn/data/scattering_utils.py:50 | `reshape(-1, 1)` puts entry `(i, c)` of a matrix with rows of `w` entries at position `i·w + c` |

## Left out

- Floating point: all arithmetic is exact `real`. Rounding, overflow and NaN are not modelled.
- `np.exp`: the kernel is an arbitrary `g: real -> real`. The facts about `exp` that a property needs are its hypotheses: positivity and the bound at a point, or the exp law at every eigenvalue.
- Orthonormality of `V`: the source neither checks it nor uses it. The model needs only matrix products.
- `compute_scattering_features` (lines 93-105) unpacks a torch_geometric data object. It is library glue and is not part of this model. In particular, it is where `N` is set to the node count. The model keeps `N` as a separate non-zero real and asks for `N > 0` only in `Features.FirstOrderMomentNonNegative`.
- The `__main__` block (lines 109-154): dataset download, k-NN transforms and loaders are I/O and third-party code.
- The unused parameters are dropped:
  - `eps` (lines 14, 78);
  - `psi` of `first_order_feature`;
  - `Aj` of `selected_second_order_feature`.
- The dead duplicate at line 42 only matters through the shapes it demands. `Features.FirstOrderShapes` asks for them in both modes.
- Moment exponents are natural numbers. `np.power` with a negative or fractional exponent is not modelled.
- `J = 0` is excluded by a precondition rather than modelled as the `IndexError` that reading `psi[1]` raises.
- `Features.SecondOrder` requires at least `|psi| − 1` responses. With fewer, the slice `Wf[0:i]` would silently cut the cascade. The driver always passes `J + 1` responses.
- numpy shape errors and broadcasting are preconditions, not error results. Every call the driver makes meets them.
- `Driver.ComputeAllFeatures` rebuilds the bank once per channel, as the source does. Its contract states each entry against the single bank that `calculate_wavelet` returns.
- `Driver.ComputeAllFeatures` does not model the `ValueError` that `np.concatenate` (line 90) raises for a graph with no nodes in plain mode. There the model returns `channels` empty vectors. `Driver.EmptyFeatureExactly` shows this is the only input whose features are empty, so every other result is the source's.
