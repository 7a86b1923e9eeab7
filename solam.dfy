/** The SOLAM family of stochastic online AUC optimisers of the C extension:
    `algo_solam` (dense rows), `algo_solam_sparse` (packed sparse rows),
    `algo_stoht_am` (SOLAM with hard thresholding of the weights) and
    `algo_da_solam_func` (dual averaging with hard thresholding).

    The primal iterate v has nDim + 2 entries: the weights w, then the offsets
    a and b; alpha is the dual scalar. A step on one row updates the running
    positive rate, takes a gradient step from v (or, for dual averaging, jumps
    to the scaled negative sum of all gradients so far), rescales w into the
    Euclidean ball of radius sr, caps each offset from above at sr, keeps the
    s largest weights for the thresholding variants, clips alpha to
    [-2 sr, 2 sr] and folds the pre-step iterate into a step-size-weighted
    running average, whose first nDim entries and two offsets are the output. */
module Solam {
  import opened Vectors
  import opened Wrappers
  import opened SparseKernels
  import opened L1Ball
  import opened Select
  import opened HardThreshold
  import FsAuc

  // ---------------------------------------------------------------------------
  // Rows.

  /** A training row: a dense feature vector, or the positions and values of
      its listed features. */
  datatype Row = Dense(x: seq<real>) | Sparse(indices: seq<int>, values: seq<real>)

  predicate RowOk(row: Row, nDim: nat) {
    match row
    case Dense(x) => |x| == nDim
    case Sparse(indices, values) => |indices| == |values| && Positions(indices, nDim)
  }

  /** The dense feature vector a row stands for. */
  function Features(row: Row, nDim: nat): (r: seq<real>)
    requires RowOk(row, nDim)
    ensures |r| == nDim
  {
    match row
    case Dense(x) => x
    case Sparse(indices, values) => Densify(indices, values, nDim)
  }

  /** vt_dot: `cblas_ddot` of the weights with a dense row, `_sparse_dot`
      with a sparse one; either way the score of the row's features. */
  method RowScore(row: Row, v: seq<real>, nDim: nat) returns (vtDot: real)
    requires RowOk(row, nDim) && |v| == nDim + 2
    ensures vtDot == FsAuc.Score(Features(row, nDim), v)
  {
    var w := v[..nDim];
    match row
    case Dense(x) =>
      vtDot := Dot(w, x);
      DotSymmetric(w, x);
    case Sparse(indices, values) =>
      assert indices[..|indices|] == indices && values[..|values|] == values;
      vtDot := SparseDot(indices, values, |indices|, w);
      SparseDotIsDot(indices, values, w);
      DotSymmetric(w, Densify(indices, values, nDim));
  }

  /** The gradient buffer v_p_dv: zeroed, the row times weight added into its
      first nDim entries (`cblas_daxpy` or `_sparse_cblas_daxpy`), then the
      two offset entries written. */
  method GradientBuffer(row: Row, nDim: nat, weight: real, da: real, db: real) returns (g: seq<real>)
    requires RowOk(row, nDim)
    ensures g == Scale(Features(row, nDim), weight) + [da, db]
  {
    var buf := ScaledRow(row, nDim, weight);
    ghost var f := Features(row, nDim);
    assert buf[..nDim] == Scale(f, weight) by {
      assert forall i :: 0 <= i < nDim ==> buf[..nDim][i] == Scale(f, weight)[i];
    }
    buf[nDim] := da;
    buf[nDim + 1] := db;
    g := buf[..];
    assert g == g[..nDim] + [g[nDim], g[nDim + 1]];
  }

  /** A zeroed buffer of nDim + 2 entries with the row times weight added
      into its first nDim. */
  method ScaledRow(row: Row, nDim: nat, weight: real) returns (buf: array<real>)
    requires RowOk(row, nDim)
    ensures fresh(buf) && buf.Length == nDim + 2
    ensures forall i :: 0 <= i < nDim ==> buf[i] == weight * Features(row, nDim)[i]
  {
    buf := new real[nDim + 2](_ => 0.0);
    match row {
      case Dense(x) =>
        forall i | 0 <= i < nDim {
          buf[i] := buf[i] + weight * x[i];
        }
      case Sparse(indices, values) =>
        assert indices[..|indices|] == indices && values[..|values|] == values;
        SparseDaxpy(indices, values, |indices|, weight, buf);
        DensifyPadded(indices, values, nDim);
    }
  }

  /** Densifying into two extra slots changes nothing in the first nDim. */
  lemma DensifyPadded(indices: seq<int>, values: seq<real>, nDim: nat)
    requires |indices| == |values| && Positions(indices, nDim)
    ensures forall j :: 0 <= j < nDim ==> Densify(indices, values, nDim + 2)[j] == Densify(indices, values, nDim)[j]
  {
    forall j | 0 <= j < nDim
      ensures Densify(indices, values, nDim + 2)[j] == Densify(indices, values, nDim)[j]
    {
      DensifyEntry(indices, values, nDim + 2, j);
      DensifyEntry(indices, values, nDim, j);
    }
  }

  // ---------------------------------------------------------------------------
  // The state and the variants.

  /** The loop variables of the drivers: v = n_v0, alpha = n_a_p0, the
      averages vBar = n_v0_ and alphaBar = n_a_p0_, the step-size total
      gammaBar = n_g_a0_, the positive rate p = n_p0_, the number t of steps
      taken (n_t = t + 1) and the dual average of `algo_da_solam_func`. */
  datatype State = State(v: seq<real>, alpha: real, vBar: seq<real>, alphaBar: real,
                         gammaBar: real, p: real, t: nat, dualAver: seq<real>)

  predicate Wellformed(st: State, nDim: nat) {
    |st.v| == nDim + 2 && |st.vBar| == nDim + 2 && |st.dualAver| == nDim + 2 && st.gammaBar >= 0.0
  }

  /** Which driver: plain SOLAM, or one of the two that hard-threshold the
      weights to the given sparsity (`para_s`). */
  datatype Variant = Solam | StohtAm(sparsity: int) | DaSolam(sparsity: int)

  /** `_hard_thresholding` selects index sparsity - 1 of nDim magnitudes. */
  predicate VariantOk(variant: Variant, nDim: nat) {
    variant.Solam? || 1 <= variant.sparsity <= nDim
  }

  /** The feasible region: weights in the Euclidean ball of radius sr, both
      offsets at most sr (there is no lower bound on them). */
  predicate InRegion(v: seq<real>, nDim: nat, sr: real) {
    |v| == nDim + 2 && NormSq(v[..nDim]) <= sr * sr && v[nDim] <= sr && v[nDim + 1] <= sr
  }

  /** The start of every driver: each weight sqrt(sr^2 / nDim), both offsets
      sr, alpha 2 sr; averages, totals, rate and dual average zero. */
  function Initial(nDim: nat, sr: real, sqrt: real -> real): State {
    var c := if nDim == 0 then 0.0 else sqrt(sr * sr / nDim as real);
    State(seq(nDim, _ => c) + [sr, sr], 2.0 * sr, Zeros(nDim + 2), 0.0, 0.0, 0.0, 0, Zeros(nDim + 2))
  }

  /** The initial weights lie on the sphere of radius sr. */
  lemma InitialOnSphere(nDim: nat, sr: real, sqrt: real -> real)
    requires nDim >= 1 && IsSqrt(sqrt)
    ensures NormSq(Initial(nDim, sr, sqrt).v[..nDim]) == sr * sr
  {
    var n := nDim as real;
    var c := sqrt(sr * sr / n);
    assert sr * sr / n >= 0.0;
    assert c * c == sr * sr / n;
    assert Initial(nDim, sr, sqrt).v[..nDim] == seq(nDim, _ => c);
    NormSqConstant(nDim, c);
    DivMul(sr * sr, n);
  }

  // ---------------------------------------------------------------------------
  // The pieces of one step.

  /** n_ga = sc / sqrt(n_t), the step size at n_t = t + 1. */
  function StepSize(sc: real, t: nat, sqrt: real -> real): (r: real)
    requires sc > 0.0 && IsSqrt(sqrt)
    ensures r > 0.0
  {
    FsAuc.SqrtPositive((t + 1) as real, sqrt);
    sc / sqrt((t + 1) as real)
  }

  /** n_p1_: the positive rate after one more row, from the rate p0 over the
      t rows before it. */
  function PositiveRate(p0: real, t: nat, positive: bool): real {
    if positive then ((t as real) * p0 + 1.0) / ((t + 1) as real)
    else ((t as real) * p0) / ((t + 1) as real)
  }

  /** The rate stays the fraction of positive rows: p1 (t + 1) counts one
      more than p0 t exactly when the new row is positive. */
  lemma RateStep(p0: real, t: nat, positive: bool, p1: real, t1: nat)
    requires p1 == PositiveRate(p0, t, positive) && t1 == t + 1
    ensures p1 * (t1 as real) == p0 * (t as real) + (if positive then 1.0 else 0.0)
  {
    var n := t1 as real;
    var top := if positive then (t as real) * p0 + 1.0 else (t as real) * p0;
    DivMul(top, n);
    assert p1 * n == n * (top / n);
  }

  /** A fraction of count <= t rows lies in [0, 1]. */
  lemma RateInUnit(p: real, t: nat, count: nat)
    requires t >= 1 && count <= t && p * (t as real) == count as real
    ensures 0.0 <= p <= 1.0
  {
    var n := t as real;
    if p < 0.0 {
      MulPositive(-p, n);
    }
    if p > 1.0 {
      MulAbove(p, n);
    }
  }

  lemma MulAbove(x: real, n: real)
    requires x > 1.0 && n > 0.0
    ensures x * n > n
  {
    MulPositive(x - 1.0, n);
    assert x * n - n == (x - 1.0) * n;
  }

  /** The gradient at the score vtDot and the updated rate p, in the form the
      drivers write it: the weight part, the two offset entries and the dual
      part. */
  function SolamGradient(x: seq<real>, v: seq<real>, alpha: real, p: real, positive: bool, vtDot: real): (g: FsAuc.Iterate)
    requires |v| == |x| + 2
  {
    var a, b := v[|x|], v[|x| + 1];
    var offsets := if positive then [OffsetFactor(vtDot, a, p, true), 0.0] else [0.0, OffsetFactor(vtDot, b, p, false)];
    FsAuc.Iterate(Scale(x, WeightFactor(vtDot, a, b, alpha, p, positive)) + offsets, DualFactor(vtDot, alpha, p, positive))
  }

  /** The factor of the row in the weight part of the gradient. */
  function WeightFactor(vtDot: real, a: real, b: real, alpha: real, p: real, positive: bool): real {
    if positive then 2.0 * (1.0 - p) * (vtDot - a) - 2.0 * (1.0 + alpha) * (1.0 - p)
    else 2.0 * p * (vtDot - b) + 2.0 * (1.0 + alpha) * p
  }

  /** The entry of the gradient at the offset of the row's own class. */
  function OffsetFactor(vtDot: real, c: real, p: real, positive: bool): real {
    if positive then -2.0 * (1.0 - p) * (vtDot - c) else -2.0 * p * (vtDot - c)
  }

  /** The dual part of the gradient. */
  function DualFactor(vtDot: real, alpha: real, p: real, positive: bool): real {
    if positive then -2.0 * (1.0 - p) * vtDot - 2.0 * p * (1.0 - p) * alpha
    else 2.0 * p * vtDot - 2.0 * p * (1.0 - p) * alpha
  }

  /** The SOLAM gradient is exactly twice the FSAUC gradient of the same
      square-loss saddle objective at the same point and rate. */
  lemma GradientIsTwiceFsAuc(x: seq<real>, v: seq<real>, alpha: real, p: real, positive: bool)
    requires |v| == |x| + 2
    ensures var g := SolamGradient(x, v, alpha, p, positive, FsAuc.Score(x, v));
      var h := FsAuc.Gradient(x, v, alpha, p, positive);
      g.v == Scale(h.v, 2.0) && g.alpha == 2.0 * h.alpha
  {
    var wx := FsAuc.Score(x, v);
    var a, b := v[|x|], v[|x| + 1];
    FactorsDouble(wx, a, b, alpha, p, positive);
    var c := FsAuc.WeightCoefficient(wx, a, b, alpha, p, positive);
    if positive {
      ScaleConcatTwice(x, c, FsAuc.PositiveOffsetCoefficient(wx, a, p), 0.0);
    } else {
      ScaleConcatTwice(x, c, 0.0, FsAuc.NegativeOffsetCoefficient(wx, b, p));
    }
  }

  /** Each factor the drivers write is twice the FSAUC one. */
  lemma FactorsDouble(wx: real, a: real, b: real, alpha: real, p: real, positive: bool)
    ensures WeightFactor(wx, a, b, alpha, p, positive) == 2.0 * FsAuc.WeightCoefficient(wx, a, b, alpha, p, positive)
    ensures DualFactor(wx, alpha, p, positive) == 2.0 * FsAuc.DualCoefficient(wx, alpha, p, positive)
    ensures OffsetFactor(wx, a, p, true) == 2.0 * FsAuc.PositiveOffsetCoefficient(wx, a, p)
    ensures OffsetFactor(wx, b, p, false) == 2.0 * FsAuc.NegativeOffsetCoefficient(wx, b, p)
  {
  }

  lemma ScaleConcatTwice(x: seq<real>, c: real, o1: real, o2: real)
    ensures Scale(x, 2.0 * c) + [2.0 * o1, 2.0 * o2] == Scale(Scale(x, c) + [o1, o2], 2.0)
  {
    var l := Scale(x, 2.0 * c) + [2.0 * o1, 2.0 * o2];
    var r := Scale(Scale(x, c) + [o1, o2], 2.0);
    forall i | 0 <= i < |x|
      ensures l[i] == r[i]
    {
      assert l[i] == (2.0 * c) * x[i];
      assert r[i] == 2.0 * (c * x[i]);
    }
  }

  /** `n_v1` before thresholding: w rescaled onto the sphere of radius sr
      when its norm exceeds sr, each offset lowered to sr when above it. */
  function Project(u: seq<real>, nDim: nat, sr: real, sqrt: real -> real): (r: seq<real>)
    requires |u| == nDim + 2 && sr > 0.0
    ensures |r| == nDim + 2
    ensures r[nDim] <= sr && (u[nDim] <= sr ==> r[nDim] == u[nDim])
    ensures r[nDim + 1] <= sr && (u[nDim + 1] <= sr ==> r[nDim + 1] == u[nDim + 1])
  {
    var w := u[..nDim];
    var nrv := sqrt(NormSq(w));
    var w' := if nrv > sr then Scale(w, 1.0 / nrv * sr) else w;
    w' + [if u[nDim] > sr then sr else u[nDim], if u[nDim + 1] > sr then sr else u[nDim + 1]]
  }

  /** The projection lands in the region. */
  lemma ProjectInRegion(u: seq<real>, nDim: nat, sr: real, sqrt: real -> real)
    requires |u| == nDim + 2 && sr > 0.0 && IsSqrt(sqrt)
    ensures InRegion(Project(u, nDim, sr, sqrt), nDim, sr)
  {
    var c := ProjectRescales(u, nDim, sr, sqrt);
  }

  /** The projection scales the weights by a factor in (0, 1], the factor
      sr / ||w|| that puts them on the sphere when they lie outside it. */
  lemma ProjectRescales(u: seq<real>, nDim: nat, sr: real, sqrt: real -> real) returns (c: real)
    requires |u| == nDim + 2 && sr > 0.0 && IsSqrt(sqrt)
    ensures 0.0 < c <= 1.0 && Project(u, nDim, sr, sqrt)[..nDim] == Scale(u[..nDim], c)
    ensures NormSq(Project(u, nDim, sr, sqrt)[..nDim]) <= sr * sr
    ensures c < 1.0 ==> NormSq(Project(u, nDim, sr, sqrt)[..nDim]) == sr * sr
  {
    var w := u[..nDim];
    NormSqNonNegative(w);
    var nrv := sqrt(NormSq(w));
    assert nrv >= 0.0 && nrv * nrv == NormSq(w);
    c := ProjectFactor(u, nDim, sr, sqrt);
    RescaledNorm(w, nrv, sr, c);
  }

  /** The norm of the rescaled weights, from the norm nrv of w. */
  lemma RescaledNorm(w: seq<real>, nrv: real, sr: real, c: real)
    requires nrv >= 0.0 && nrv * nrv == NormSq(w) && sr > 0.0
    requires c == if nrv > sr then 1.0 / nrv * sr else 1.0
    ensures NormSq(Scale(w, c)) <= sr * sr && (c < 1.0 ==> NormSq(Scale(w, c)) == sr * sr)
  {
    if nrv > sr {
      RescaleOntoSphere(w, nrv, sr);
    } else {
      FsAuc.SquareMonotone(nrv, sr);
      ScaleOne(w);
    }
  }

  /** The factor the projection scales the weights by: 1 inside the ball,
      sr / ||w|| outside it. */
  lemma ProjectFactor(u: seq<real>, nDim: nat, sr: real, sqrt: real -> real) returns (c: real)
    requires |u| == nDim + 2 && sr > 0.0
    ensures var nrv := sqrt(NormSq(u[..nDim]));
      c == (if nrv > sr then 1.0 / nrv * sr else 1.0) && 0.0 < c <= 1.0 &&
      Project(u, nDim, sr, sqrt)[..nDim] == Scale(u[..nDim], c)
  {
    var w := u[..nDim];
    var nrv := sqrt(NormSq(w));
    if nrv > sr {
      c := 1.0 / nrv * sr;
      DivMonotone(sr, nrv, nrv);
      DivMul(nrv, nrv);
    } else {
      c := 1.0;
    }
    ProjectPrefix(u, nDim, sr, sqrt, c);
  }

  lemma ProjectPrefix(u: seq<real>, nDim: nat, sr: real, sqrt: real -> real, c: real)
    requires |u| == nDim + 2 && sr > 0.0
    requires var nrv := sqrt(NormSq(u[..nDim])); c == if nrv > sr then 1.0 / nrv * sr else 1.0
    ensures Project(u, nDim, sr, sqrt)[..nDim] == Scale(u[..nDim], c)
  {
    var r := Project(u, nDim, sr, sqrt);
    assert forall i :: 0 <= i < nDim ==> r[..nDim][i] == Scale(u[..nDim], c)[i];
  }

  lemma ScaleOne(w: seq<real>)
    ensures Scale(w, 1.0) == w
  {
    assert forall i :: 0 <= i < |w| ==> Scale(w, 1.0)[i] == w[i];
  }

  /** Scaling by sr / ||w|| puts w on the sphere of radius sr. */
  lemma RescaleOntoSphere(w: seq<real>, nrv: real, sr: real)
    requires nrv > sr > 0.0 && nrv * nrv == NormSq(w)
    ensures 0.0 < 1.0 / nrv * sr < 1.0 && NormSq(Scale(w, 1.0 / nrv * sr)) == sr * sr
  {
    var c := 1.0 / nrv * sr;
    assert c == sr / nrv;
    NormSqScale(w, c);
    FsAuc.ScaledToRadius(NormSq(w), nrv, sr);
    DivMul(sr, nrv);
    assert nrv * c == sr;
  }

  /** Inside the region the projection changes nothing, so projecting twice
      is projecting once. */
  lemma ProjectFixesRegion(u: seq<real>, nDim: nat, sr: real, sqrt: real -> real)
    requires InRegion(u, nDim, sr) && sr > 0.0 && IsSqrt(sqrt)
    ensures Project(u, nDim, sr, sqrt) == u
  {
    var w := u[..nDim];
    NormSqNonNegative(w);
    FsAuc.SqrtMonotone(NormSq(w), sr, sqrt);
    assert u == w + [u[nDim], u[nDim + 1]];
  }

  lemma ProjectIdempotent(u: seq<real>, nDim: nat, sr: real, sqrt: real -> real)
    requires |u| == nDim + 2 && sr > 0.0 && IsSqrt(sqrt)
    ensures Project(Project(u, nDim, sr, sqrt), nDim, sr, sqrt) == Project(u, nDim, sr, sqrt)
  {
    ProjectInRegion(u, nDim, sr, sqrt);
    ProjectFixesRegion(Project(u, nDim, sr, sqrt), nDim, sr, sqrt);
  }

  /** n_a_p1: alpha scaled back onto [-2 sr, 2 sr] when outside it, keeping
      its sign. */
  function ClipDual(alpha: real, sr: real): (r: real)
    requires sr > 0.0
    ensures Abs(r) <= 2.0 * sr
    ensures Abs(alpha) <= 2.0 * sr ==> r == alpha
    ensures Abs(alpha) > 2.0 * sr ==> r == Sign(alpha) * (2.0 * sr)
  {
    var nra := Abs(alpha);
    if nra > 2.0 * sr then ClipDualEdge(alpha, 2.0 * sr); alpha / nra * (2.0 * sr) else alpha
  }

  lemma ClipDualEdge(alpha: real, c: real)
    requires c > 0.0 && Abs(alpha) > c
    ensures alpha / Abs(alpha) * c == Sign(alpha) * c
  {
    if alpha > 0.0 {
      assert alpha / alpha == 1.0;
    } else {
      assert alpha / -alpha == -1.0;
    }
  }

  /** The k-th largest magnitude among the entries of w. */
  function KthMagnitude(w: seq<real>, k: int): real
    requires 1 <= k <= |w|
  {
    SortDesc(AbsAll(w))[k - 1]
  }

  /** `_hard_thresholding(v_p_dv, n_dim, para_s)` for the thresholding
      variants: the weights thresholded at their k-th largest magnitude, the
      two offsets past position nDim left out of it. */
  function Sparsify(u: seq<real>, nDim: nat, variant: Variant): (r: seq<real>)
    requires |u| == nDim + 2 && VariantOk(variant, nDim)
    ensures |r| == nDim + 2
  {
    if variant.Solam? then u else ThresholdWeights(u, nDim, KthMagnitude(u[..nDim], variant.sparsity))
  }

  /** The weights of u thresholded at tau, the offsets left as they are. */
  function ThresholdWeights(u: seq<real>, nDim: nat, tau: real): (r: seq<real>)
    requires |u| == nDim + 2
    ensures |r| == nDim + 2
  {
    Thresholded(u[..nDim], tau) + u[nDim..]
  }

  /** Thresholding keeps the region, never touches the offsets and leaves at
      most `sparsity` non-zero weights. */
  lemma SparsifyKeeps(u: seq<real>, nDim: nat, variant: Variant, sr: real)
    requires |u| == nDim + 2 && VariantOk(variant, nDim) && !variant.Solam?
    ensures Sparsify(u, nDim, variant)[nDim..] == u[nDim..]
    ensures CountNonzero(Sparsify(u, nDim, variant)[..nDim]) <= variant.sparsity
    ensures InRegion(u, nDim, sr) ==> InRegion(Sparsify(u, nDim, variant), nDim, sr)
  {
    var tau := KthMagnitude(u[..nDim], variant.sparsity);
    KthIsSorted(AbsAll(u[..nDim]), variant.sparsity, tau);
    ThresholdKeeps(u, nDim, variant.sparsity, tau, sr);
  }

  /** The same for any threshold tau that is the k-th largest magnitude. */
  lemma ThresholdKeeps(u: seq<real>, nDim: nat, k: nat, tau: real, sr: real)
    requires |u| == nDim + 2 && IsKthLargest(AbsAll(u[..nDim]), k, tau)
    ensures ThresholdWeights(u, nDim, tau)[nDim..] == u[nDim..]
    ensures CountNonzero(ThresholdWeights(u, nDim, tau)[..nDim]) <= k
    ensures InRegion(u, nDim, sr) ==> InRegion(ThresholdWeights(u, nDim, tau), nDim, sr)
  {
    var w := u[..nDim];
    var r := ThresholdWeights(u, nDim, tau);
    assert r[..nDim] == Thresholded(w, tau);
    AtMostK(w, k, tau);
    ThresholdedNormSq(w, tau, nDim);
    assert w[..nDim] == w && Thresholded(w, tau)[..nDim] == Thresholded(w, tau);
  }

  /** The point before projection, and the dual step: the gradient step
      v - n_ga g for SOLAM and STOHT-AM, the new dual average scaled by
      -sqrt(n_t) / sc for DA-SOLAM; alpha + n_ga g_alpha for all three. */
  function Candidate(st: State, g: FsAuc.Iterate, ga: real, variant: Variant, sc: real, sqrt: real -> real): (c: FsAuc.Iterate)
    requires |g.v| == |st.v| == |st.dualAver| && sc > 0.0
  {
    var u := if variant.DaSolam? then Scale(Add(st.dualAver, g.v), -sqrt((st.t + 1) as real) / sc)
             else Add(Scale(g.v, -ga), st.v);
    FsAuc.Iterate(u, st.alpha + ga * g.alpha)
  }

  /** n_v1_ = (n_ga n_v0 + n_g_a0_ n_v0_) / n_g_a1_: the pre-step iterate
      folded into the running average with weight n_ga. */
  function Average(vBar: seq<real>, gammaBar: real, v: seq<real>, ga: real): (r: seq<real>)
    requires |vBar| == |v| && gammaBar >= 0.0 && ga > 0.0
    ensures |r| == |v|
  {
    Add(Scale(v, ga / (gammaBar + ga)), Scale(vBar, gammaBar / (gammaBar + ga)))
  }

  /** One step of a driver on the features x of a row with label y. */
  function Next(st: State, x: seq<real>, y: real, variant: Variant, nDim: nat, sr: real, sc: real,
                sqrt: real -> real): (r: State)
    requires Wellformed(st, nDim) && |x| == nDim && VariantOk(variant, nDim)
    requires sr > 0.0 && sc > 0.0 && IsSqrt(sqrt)
    ensures Wellformed(r, nDim) && r.t == st.t + 1
  {
    var positive := y > 0.0;
    var p := PositiveRate(st.p, st.t, positive);
    Update(st, SolamGradient(x, st.v, st.alpha, p, positive, FsAuc.Score(x, st.v)), StepSize(sc, st.t, sqrt), p,
           variant, nDim, sr, sc, sqrt)
  }

  /** The rest of a step once the gradient g, the step size ga and the new
      rate p are known. */
  function Update(st: State, g: FsAuc.Iterate, ga: real, p: real, variant: Variant, nDim: nat, sr: real, sc: real,
                  sqrt: real -> real): (r: State)
    requires Wellformed(st, nDim) && |g.v| == nDim + 2 && VariantOk(variant, nDim)
    requires sr > 0.0 && sc > 0.0 && ga > 0.0
    ensures Wellformed(r, nDim) && r.t == st.t + 1
  {
    var c := Candidate(st, g, ga, variant, sc, sqrt);
    Advance(st, Sparsify(Project(c.v, nDim, sr, sqrt), nDim, variant), ClipDual(c.alpha, sr), ga, p,
            if variant.DaSolam? then Add(st.dualAver, g.v) else st.dualAver)
  }

  /** The new state from the new iterate (v, alpha): the pre-step iterate
      folded into both running averages with weight ga, the clock advanced. */
  function Advance(st: State, v: seq<real>, alpha: real, ga: real, p: real, dualAver: seq<real>): (r: State)
    requires |st.vBar| == |st.v| && st.gammaBar >= 0.0 && ga > 0.0
  {
    State(v, alpha, Average(st.vBar, st.gammaBar, st.v, ga), DualMean(st.alphaBar, st.gammaBar, st.alpha, ga),
          st.gammaBar + ga, p, st.t + 1, dualAver)
  }

  /** n_a1_ = (n_ga n_a0 + n_g_a0_ n_a0_) / n_g_a1_. */
  function DualMean(aBar: real, g0: real, alpha: real, ga: real): real
    requires g0 >= 0.0 && ga > 0.0
  {
    (g0 * aBar + ga * alpha) / (g0 + ga)
  }

  // ---------------------------------------------------------------------------
  // What one step preserves.

  /** After every step the iterate is in the region and |alpha| <= 2 sr,
      whatever the state before. */
  lemma NextInRegion(st: State, x: seq<real>, y: real, variant: Variant, nDim: nat, sr: real, sc: real,
                     sqrt: real -> real)
    requires Wellformed(st, nDim) && |x| == nDim && VariantOk(variant, nDim)
    requires sr > 0.0 && sc > 0.0 && IsSqrt(sqrt)
    ensures var r := Next(st, x, y, variant, nDim, sr, sc, sqrt);
      InRegion(r.v, nDim, sr) && Abs(r.alpha) <= 2.0 * sr
  {
    var p := PositiveRate(st.p, st.t, y > 0.0);
    UpdateInRegion(st, SolamGradient(x, st.v, st.alpha, p, y > 0.0, FsAuc.Score(x, st.v)), StepSize(sc, st.t, sqrt),
                   p, variant, nDim, sr, sc, sqrt);
  }

  lemma UpdateInRegion(st: State, g: FsAuc.Iterate, ga: real, p: real, variant: Variant, nDim: nat, sr: real, sc: real,
                       sqrt: real -> real)
    requires Wellformed(st, nDim) && |g.v| == nDim + 2 && VariantOk(variant, nDim)
    requires sr > 0.0 && sc > 0.0 && ga > 0.0 && IsSqrt(sqrt)
    ensures var r := Update(st, g, ga, p, variant, nDim, sr, sc, sqrt);
      InRegion(r.v, nDim, sr) && Abs(r.alpha) <= 2.0 * sr
  {
    var c := Candidate(st, g, ga, variant, sc, sqrt);
    var u := Project(c.v, nDim, sr, sqrt);
    ProjectInRegion(c.v, nDim, sr, sqrt);
    if !variant.Solam? {
      SparsifyKeeps(u, nDim, variant, sr);
    }
  }

  /** What one step does to the state, free of the divisions that compute
      it: the positive count and the clock, the total weight, both running
      averages scaled back by it, and the bounds each of them keeps. */
  ghost predicate StepFacts(st: State, r: State, ga: real, positive: bool, nDim: nat, sr: real) {
    Wellformed(st, nDim) && Wellformed(r, nDim) && r.t == st.t + 1 && ga > 0.0 &&
    r.p * (r.t as real) == st.p * (st.t as real) + (if positive then 1.0 else 0.0) &&
    r.gammaBar == st.gammaBar + ga &&
    Scale(r.vBar, r.gammaBar) == Add(Scale(st.vBar, st.gammaBar), Scale(st.v, ga)) &&
    r.alphaBar * r.gammaBar == st.alphaBar * st.gammaBar + ga * st.alpha &&
    (InRegion(st.v, nDim, sr) && (st.gammaBar > 0.0 ==> InRegion(st.vBar, nDim, sr)) ==> InRegion(r.vBar, nDim, sr)) &&
    (Abs(st.alpha) <= 2.0 * sr && (st.gammaBar > 0.0 ==> Abs(st.alphaBar) <= 2.0 * sr) ==>
       Abs(r.alphaBar) <= 2.0 * sr) &&
    InRegion(r.v, nDim, sr) && Abs(r.alpha) <= 2.0 * sr
  }

  lemma NextFacts(st: State, x: seq<real>, y: real, variant: Variant, nDim: nat, sr: real, sc: real,
                  sqrt: real -> real)
    requires Wellformed(st, nDim) && |x| == nDim && VariantOk(variant, nDim)
    requires sr > 0.0 && sc > 0.0 && IsSqrt(sqrt)
    ensures StepFacts(st, Next(st, x, y, variant, nDim, sr, sc, sqrt), StepSize(sc, st.t, sqrt), y > 0.0, nDim, sr)
  {
    var p := PositiveRate(st.p, st.t, y > 0.0);
    UpdateFacts(st, SolamGradient(x, st.v, st.alpha, p, y > 0.0, FsAuc.Score(x, st.v)), StepSize(sc, st.t, sqrt),
                y > 0.0, variant, nDim, sr, sc, sqrt);
  }

  lemma UpdateFacts(st: State, g: FsAuc.Iterate, ga: real, positive: bool, variant: Variant, nDim: nat, sr: real,
                    sc: real, sqrt: real -> real)
    requires Wellformed(st, nDim) && |g.v| == nDim + 2 && VariantOk(variant, nDim)
    requires sr > 0.0 && sc > 0.0 && ga > 0.0 && IsSqrt(sqrt)
    ensures StepFacts(st, Update(st, g, ga, PositiveRate(st.p, st.t, positive), variant, nDim, sr, sc, sqrt),
                      ga, positive, nDim, sr)
  {
    var r := Update(st, g, ga, PositiveRate(st.p, st.t, positive), variant, nDim, sr, sc, sqrt);
    UpdateInRegion(st, g, ga, PositiveRate(st.p, st.t, positive), variant, nDim, sr, sc, sqrt);
    StepAverages(st, r, ga, nDim, sr);
    StepScalars(st, r, ga, positive, sr);
    StepFactsJoin(st, r, ga, positive, nDim, sr);
  }

  /** The running average of one step, from the formula that computes it:
      scaled back by the new total weight it is the old weighted sum plus n_ga
      times the pre-step iterate, and it stays in the region. */
  lemma StepAverages(st: State, r: State, ga: real, nDim: nat, sr: real)
    requires |st.v| == nDim + 2 && |st.vBar| == nDim + 2 && st.gammaBar >= 0.0 && ga > 0.0
    requires r.gammaBar == st.gammaBar + ga && r.vBar == Average(st.vBar, st.gammaBar, st.v, ga)
    ensures Scale(r.vBar, r.gammaBar) == Add(Scale(st.vBar, st.gammaBar), Scale(st.v, ga))
    ensures InRegion(st.v, nDim, sr) && (st.gammaBar > 0.0 ==> InRegion(st.vBar, nDim, sr)) ==>
              InRegion(r.vBar, nDim, sr)
  {
    AverageWeights(st.vBar, st.gammaBar, st.v, ga, r.vBar, r.gammaBar);
    if InRegion(st.v, nDim, sr) && (st.gammaBar > 0.0 ==> InRegion(st.vBar, nDim, sr)) {
      AverageInRegion(st.vBar, st.gammaBar, st.v, ga, nDim, sr);
    }
  }

  /** The rate and the dual average of one step, from the formulas that
      compute them: p t counts the positive rows, alphaBar gammaBar is the
      weighted sum of the duals, and the dual average stays within 2 sr. */
  lemma StepScalars(st: State, r: State, ga: real, positive: bool, sr: real)
    requires st.gammaBar >= 0.0 && ga > 0.0 && r.t == st.t + 1
    requires r.p == PositiveRate(st.p, st.t, positive) && r.gammaBar == st.gammaBar + ga
    requires r.alphaBar == DualMean(st.alphaBar, st.gammaBar, st.alpha, ga)
    ensures r.p * (r.t as real) == st.p * (st.t as real) + (if positive then 1.0 else 0.0)
    ensures r.alphaBar * r.gammaBar == st.alphaBar * st.gammaBar + ga * st.alpha
    ensures Abs(st.alpha) <= 2.0 * sr && (st.gammaBar > 0.0 ==> Abs(st.alphaBar) <= 2.0 * sr) ==>
              Abs(r.alphaBar) <= 2.0 * sr
  {
    RateStep(st.p, st.t, positive, r.p, r.t);
    AverageDual(st.alphaBar, st.gammaBar, st.alpha, ga, sr, r.alphaBar, r.gammaBar);
  }

  lemma StepFactsJoin(st: State, r: State, ga: real, positive: bool, nDim: nat, sr: real)
    requires Wellformed(st, nDim) && Wellformed(r, nDim) && r.t == st.t + 1 && ga > 0.0
    requires r.p * (r.t as real) == st.p * (st.t as real) + (if positive then 1.0 else 0.0)
    requires r.gammaBar == st.gammaBar + ga
    requires Scale(r.vBar, r.gammaBar) == Add(Scale(st.vBar, st.gammaBar), Scale(st.v, ga))
    requires r.alphaBar * r.gammaBar == st.alphaBar * st.gammaBar + ga * st.alpha
    requires InRegion(st.v, nDim, sr) && (st.gammaBar > 0.0 ==> InRegion(st.vBar, nDim, sr)) ==>
               InRegion(r.vBar, nDim, sr)
    requires Abs(st.alpha) <= 2.0 * sr && (st.gammaBar > 0.0 ==> Abs(st.alphaBar) <= 2.0 * sr) ==>
               Abs(r.alphaBar) <= 2.0 * sr
    requires InRegion(r.v, nDim, sr) && Abs(r.alpha) <= 2.0 * sr
    ensures StepFacts(st, r, ga, positive, nDim, sr)
  {
  }

  /** The weighted mean, scaled back by its total weight, is the old weighted
      sum plus n_ga times the pre-step iterate. */
  lemma AverageWeights(vBar: seq<real>, g0: real, v: seq<real>, ga: real, r: seq<real>, g1: real)
    requires |vBar| == |v| && g0 >= 0.0 && ga > 0.0
    requires r == Average(vBar, g0, v, ga) && g1 == g0 + ga
    ensures Scale(r, g1) == Add(Scale(vBar, g0), Scale(v, ga))
  {
    forall i | 0 <= i < |v|
      ensures g1 * r[i] == g0 * vBar[i] + ga * v[i]
    {
      AverageEntry(vBar, g0, v, ga, r, g1, i);
    }
    var lhs := Scale(r, g1);
    var rhs := Add(Scale(vBar, g0), Scale(v, ga));
    assert forall i :: 0 <= i < |v| ==> lhs[i] == rhs[i];
  }

  lemma AverageEntry(vBar: seq<real>, g0: real, v: seq<real>, ga: real, r: seq<real>, g1: real, i: nat)
    requires |vBar| == |v| && g0 >= 0.0 && ga > 0.0 && i < |v|
    requires r == Average(vBar, g0, v, ga) && g1 == g0 + ga
    ensures g1 * r[i] == g0 * vBar[i] + ga * v[i]
  {
    assert r[i] == (ga / (g0 + ga)) * v[i] + (g0 / (g0 + ga)) * vBar[i];
    MeanScalar(vBar[i], g0, v[i], ga);
  }

  lemma MeanScalar(y: real, g0: real, x: real, ga: real)
    requires g0 >= 0.0 && ga > 0.0
    ensures (g0 + ga) * ((ga / (g0 + ga)) * x + (g0 / (g0 + ga)) * y) == g0 * y + ga * x
  {
    var g1 := g0 + ga;
    var l, m := ga / g1, g0 / g1;
    DivMul(ga, g1);
    DivMul(g0, g1);
    assert g1 * (l * x + m * y) == (g1 * l) * x + (g1 * m) * y;
  }

  /** The weights of the running average are non-negative and sum to 1. */
  lemma AverageIsConvex(g0: real, ga: real)
    requires g0 >= 0.0 && ga > 0.0
    ensures var g1 := g0 + ga; ga / g1 > 0.0 && g0 / g1 >= 0.0 && ga / g1 + g0 / g1 == 1.0
    ensures g0 == 0.0 ==> ga / (g0 + ga) == 1.0
  {
    var g1 := g0 + ga;
    DivAdd(ga, g0, g1);
  }

  /** A convex combination of two values at most c is at most c; the second
      may be anything when its weight is 0. */
  lemma ConvexBelow(x: real, y: real, c: real, l: real, m: real)
    requires l >= 0.0 && m >= 0.0 && l + m == 1.0 && x <= c && (m > 0.0 ==> y <= c)
    ensures l * x + m * y <= c
  {
    assert l * x + m * y - c == l * (x - c) + m * (y - c);
    NonPositiveProduct(l, x - c);
    if m > 0.0 {
      NonPositiveProduct(m, y - c);
    } else {
      assert m == 0.0;
      assert m * (y - c) == 0.0 * (y - c);
    }
  }

  lemma NonPositiveProduct(l: real, d: real)
    requires l >= 0.0 && d <= 0.0
    ensures l * d <= 0.0
  {
  }

  /** The average of two points of the region is in the region; before the
      first step (total weight 0) only the new point counts. */
  lemma AverageInRegion(vBar: seq<real>, g0: real, v: seq<real>, ga: real, nDim: nat, sr: real)
    requires |vBar| == |v| && g0 >= 0.0 && ga > 0.0
    requires InRegion(v, nDim, sr) && (g0 > 0.0 ==> InRegion(vBar, nDim, sr))
    ensures InRegion(Average(vBar, g0, v, ga), nDim, sr)
  {
    AverageIsConvex(g0, ga);
    MixInRegion(v, vBar, ga / (g0 + ga), g0 / (g0 + ga), nDim, sr);
  }

  /** A convex combination of a point of the region with a point of the
      region, or with anything at weight 0, is in the region. */
  lemma MixInRegion(v: seq<real>, vBar: seq<real>, l: real, m: real, nDim: nat, sr: real)
    requires |vBar| == |v| && l >= 0.0 && m >= 0.0 && l + m == 1.0
    requires InRegion(v, nDim, sr) && (m > 0.0 ==> InRegion(vBar, nDim, sr))
    ensures InRegion(Add(Scale(v, l), Scale(vBar, m)), nDim, sr)
  {
    MixPrefix(v, vBar, l, m, nDim);
    MixNormBelow(v[..nDim], vBar[..nDim], l, m, sr * sr);
    MixEntryBelow(v, vBar, l, m, nDim, sr);
    MixEntryBelow(v, vBar, l, m, nDim + 1, sr);
  }

  lemma MixEntryBelow(v: seq<real>, vBar: seq<real>, l: real, m: real, i: nat, c: real)
    requires |vBar| == |v| && i < |v| && l >= 0.0 && m >= 0.0 && l + m == 1.0
    requires v[i] <= c && (m > 0.0 ==> vBar[i] <= c)
    ensures Add(Scale(v, l), Scale(vBar, m))[i] <= c
  {
    ConvexBelow(v[i], vBar[i], c, l, m);
  }

  lemma MixNormBelow(a: seq<real>, b: seq<real>, l: real, m: real, bound: real)
    requires |a| == |b| && l >= 0.0 && m >= 0.0 && l + m == 1.0
    requires NormSq(a) <= bound && (m > 0.0 ==> NormSq(b) <= bound)
    ensures NormSq(Add(Scale(a, l), Scale(b, m))) <= bound
  {
    ConvexNorms(a, b, l, m, bound);
    NormSqMix(a, b, l, m);
  }

  lemma ConvexNorms(a: seq<real>, b: seq<real>, l: real, m: real, bound: real)
    requires l >= 0.0 && m >= 0.0 && l + m == 1.0
    requires NormSq(a) <= bound && (m > 0.0 ==> NormSq(b) <= bound)
    ensures l * NormSq(a) + m * NormSq(b) <= bound
  {
    ConvexBelow(NormSq(a), NormSq(b), bound, l, m);
  }

  lemma MixPrefix(v: seq<real>, vBar: seq<real>, l: real, m: real, n: nat)
    requires |vBar| == |v| && n <= |v|
    ensures Add(Scale(v, l), Scale(vBar, m))[..n] == Add(Scale(v[..n], l), Scale(vBar[..n], m))
  {
    var r := Add(Scale(v, l), Scale(vBar, m))[..n];
    var w := Add(Scale(v[..n], l), Scale(vBar[..n], m));
    assert forall i :: 0 <= i < n ==> r[i] == w[i];
  }

  /** The averaged alpha, scaled back by the total weight, is the old sum plus
      n_ga times the pre-step alpha, and stays in [-2 sr, 2 sr]. */
  lemma AverageDual(aBar: real, g0: real, alpha: real, ga: real, sr: real, r: real, g1: real)
    requires g0 >= 0.0 && ga > 0.0 && g1 == g0 + ga && r == DualMean(aBar, g0, alpha, ga)
    ensures r * g1 == aBar * g0 + ga * alpha
    ensures Abs(alpha) <= 2.0 * sr && (g0 > 0.0 ==> Abs(aBar) <= 2.0 * sr) ==> Abs(r) <= 2.0 * sr
  {
    DivMul(g0 * aBar + ga * alpha, g1);
    DualBound(aBar, g0, alpha, ga, sr, r, g1);
  }

  lemma DualBound(aBar: real, g0: real, alpha: real, ga: real, sr: real, r: real, g1: real)
    requires g0 >= 0.0 && ga > 0.0 && g1 == g0 + ga && r * g1 == aBar * g0 + ga * alpha
    ensures Abs(alpha) <= 2.0 * sr && (g0 > 0.0 ==> Abs(aBar) <= 2.0 * sr) ==> Abs(r) <= 2.0 * sr
  {
    if Abs(alpha) <= 2.0 * sr && (g0 > 0.0 ==> Abs(aBar) <= 2.0 * sr) {
      DualBelow(aBar, g0, alpha, ga, 2.0 * sr, r, g1);
      assert (-r) * g1 == (-aBar) * g0 + ga * (-alpha);
      DualBelow(-aBar, g0, -alpha, ga, 2.0 * sr, -r, g1);
    }
  }

  /** A weighted mean of values at most c is at most c. */
  lemma DualBelow(aBar: real, g0: real, alpha: real, ga: real, c: real, r: real, g1: real)
    requires g0 >= 0.0 && ga > 0.0 && g1 == g0 + ga && r * g1 == aBar * g0 + ga * alpha
    requires alpha <= c && (g0 > 0.0 ==> aBar <= c)
    ensures r <= c
  {
    MulBelow(ga, alpha, c);
    if g0 > 0.0 {
      MulBelow(g0, aBar, c);
    } else {
      assert aBar * g0 == aBar * 0.0;
    }
    assert g1 * r <= g1 * c;
    CancelBelow(g1, r, c);
  }

  lemma MulBelow(g: real, a: real, b: real)
    requires g >= 0.0 && a <= b
    ensures g * a <= g * b
  {
    NonPositiveProduct(g, a - b);
  }

  lemma CancelBelow(g: real, a: real, b: real)
    requires g > 0.0 && g * a <= g * b
    ensures a <= b
  {
    if a > b {
      MulPositive(g, a - b);
    }
  }

  /** For SOLAM and STOHT-AM the point before projection is the FSAUC
      descent step of size 2 n_ga along the FSAUC gradient at the same point
      and rate, primal and dual alike. */
  lemma StepIsFsAucDescent(st: State, x: seq<real>, y: real, variant: Variant, nDim: nat, sc: real,
                           sqrt: real -> real)
    requires Wellformed(st, nDim) && |x| == nDim && !variant.DaSolam? && sc > 0.0 && IsSqrt(sqrt)
    ensures var ga := StepSize(sc, st.t, sqrt);
      var p := PositiveRate(st.p, st.t, y > 0.0);
      var g := SolamGradient(x, st.v, st.alpha, p, y > 0.0, FsAuc.Score(x, st.v));
      Candidate(st, g, ga, variant, sc, sqrt) ==
        FsAuc.Descend(st.v, st.alpha, FsAuc.Gradient(x, st.v, st.alpha, p, y > 0.0), 2.0 * ga)
  {
    var p := PositiveRate(st.p, st.t, y > 0.0);
    GradientIsTwiceFsAuc(x, st.v, st.alpha, p, y > 0.0);
    DescentMatches(st, SolamGradient(x, st.v, st.alpha, p, y > 0.0, FsAuc.Score(x, st.v)),
                   FsAuc.Gradient(x, st.v, st.alpha, p, y > 0.0), StepSize(sc, st.t, sqrt), variant, sc, sqrt);
  }

  lemma DescentMatches(st: State, g: FsAuc.Iterate, h: FsAuc.Iterate, ga: real, variant: Variant, sc: real,
                       sqrt: real -> real)
    requires |g.v| == |st.v| == |st.dualAver| && |h.v| == |st.v| && sc > 0.0 && !variant.DaSolam?
    requires g.v == Scale(h.v, 2.0) && g.alpha == 2.0 * h.alpha
    ensures Candidate(st, g, ga, variant, sc, sqrt) == FsAuc.Descend(st.v, st.alpha, h, 2.0 * ga)
  {
    var u := Add(Scale(g.v, -ga), st.v);
    var d := FsAuc.Descend(st.v, st.alpha, h, 2.0 * ga);
    assert Candidate(st, g, ga, variant, sc, sqrt) == FsAuc.Iterate(u, st.alpha + ga * g.alpha);
    forall i | 0 <= i < |st.v|
      ensures u[i] == d.v[i]
    {
      assert u[i] == -ga * (2.0 * h.v[i]) + st.v[i];
    }
    assert u == d.v;
    assert ga * g.alpha == 2.0 * ga * h.alpha;
  }

  // ---------------------------------------------------------------------------
  // One step as the drivers compute it.

  /** The gradient the drivers form on a row: the score, the weight, the
      offset entries and the dual part, the first by `GradientBuffer`. */
  method GradientAt(row: Row, st: State, p: real, positive: bool, nDim: nat) returns (g: FsAuc.Iterate)
    requires RowOk(row, nDim) && |st.v| == nDim + 2
    ensures g == SolamGradient(Features(row, nDim), st.v, st.alpha, p, positive,
                               FsAuc.Score(Features(row, nDim), st.v))
  {
    var vtDot := RowScore(row, st.v, nDim);
    var a, b := st.v[nDim], st.v[nDim + 1];
    var weight := WeightFactor(vtDot, a, b, st.alpha, p, positive);
    var w;
    if positive {
      w := GradientBuffer(row, nDim, weight, OffsetFactor(vtDot, a, p, true), 0.0);
    } else {
      w := GradientBuffer(row, nDim, weight, 0.0, OffsetFactor(vtDot, b, p, false));
    }
    g := FsAuc.Iterate(w, DualFactor(vtDot, st.alpha, p, positive));
  }

  /** The loop body of the drivers on one row. */
  method Step(st: State, row: Row, y: real, variant: Variant, nDim: nat, sr: real, sc: real,
              sqrt: real -> real, sample: (int, int, int) -> (int, int)) returns (r: State)
    requires Wellformed(st, nDim) && RowOk(row, nDim) && VariantOk(variant, nDim)
    requires sr > 0.0 && sc > 0.0 && IsSqrt(sqrt) && (variant.Solam? || SampleInside(sample))
    ensures r == Next(st, Features(row, nDim), y, variant, nDim, sr, sc, sqrt)
  {
    var positive := y > 0.0;
    var ga := StepSize(sc, st.t, sqrt);
    var p := PositiveRate(st.p, st.t, positive);
    var g := GradientAt(row, st, p, positive, nDim);
    r := Finish(st, g, ga, p, variant, nDim, sr, sc, sqrt, sample);
  }

  /** The step after the gradient: the candidate, its projection and, for the
      thresholding variants, `_hard_thresholding` on it; the dual clip and the
      running averages. */
  method Finish(st: State, g: FsAuc.Iterate, ga: real, p: real, variant: Variant, nDim: nat, sr: real, sc: real,
                sqrt: real -> real, sample: (int, int, int) -> (int, int)) returns (r: State)
    requires Wellformed(st, nDim) && |g.v| == nDim + 2 && VariantOk(variant, nDim)
    requires sr > 0.0 && sc > 0.0 && ga > 0.0 && (variant.Solam? || SampleInside(sample))
    ensures r == Update(st, g, ga, p, variant, nDim, sr, sc, sqrt)
  {
    var c := Candidate(st, g, ga, variant, sc, sqrt);
    var u := Constrain(c.v, nDim, variant, sr, sqrt, sample);
    r := Advance(st, u, ClipDual(c.alpha, sr), ga, p, if variant.DaSolam? then Add(st.dualAver, g.v) else st.dualAver);
  }

  /** The projection of the candidate onto the region and, for the
      thresholding variants, `_hard_thresholding` on the result. */
  method Constrain(u: seq<real>, nDim: nat, variant: Variant, sr: real, sqrt: real -> real,
                   sample: (int, int, int) -> (int, int)) returns (r: seq<real>)
    requires |u| == nDim + 2 && VariantOk(variant, nDim) && sr > 0.0 && (variant.Solam? || SampleInside(sample))
    ensures r == Sparsify(Project(u, nDim, sr, sqrt), nDim, variant)
  {
    r := Project(u, nDim, sr, sqrt);
    if !variant.Solam? {
      r := Threshold(r, nDim, variant, sample);
    }
  }

  /** `_hard_thresholding(v_p_dv, n_dim, para_s)` on a buffer holding u. */
  method Threshold(u: seq<real>, nDim: nat, variant: Variant, sample: (int, int, int) -> (int, int))
      returns (r: seq<real>)
    requires |u| == nDim + 2 && VariantOk(variant, nDim) && !variant.Solam? && SampleInside(sample)
    ensures r == Sparsify(u, nDim, variant)
  {
    var buf := new real[nDim + 2](i requires 0 <= i < nDim + 2 => u[i]);
    assert buf[..] == u;
    assert buf[..nDim] == u[..nDim] && buf[nDim..] == u[nDim..];
    var status, tau := HardThresholding(buf, nDim, variant.sparsity, sample);
    r := buf[..];
    ThresholdParts(u, nDim, r, tau);
  }

  /** A vector whose weights are those of u thresholded at tau and whose
      offsets are those of u is ThresholdWeights(u, nDim, tau). */
  lemma ThresholdParts(u: seq<real>, nDim: nat, r: seq<real>, tau: real)
    requires |u| == nDim + 2 && |r| == nDim + 2
    requires r[..nDim] == Thresholded(u[..nDim], tau) && r[nDim..] == u[nDim..]
    ensures r == ThresholdWeights(u, nDim, tau)
  {
    assert r == r[..nDim] + r[nDim..];
  }

  // ---------------------------------------------------------------------------
  // The drivers.

  /** The results a driver writes: the weights and both offsets of the
      averaged iterate. */
  datatype Model = Model(wt: seq<real>, a: real, b: real)

  /** The passes over the data: `order` once per pass. */
  function Repeat(order: seq<int>, n: nat): seq<int>
  {
    if n == 0 then [] else Repeat(order, n - 1) + order
  }

  /** Passes over the data leave nothing seen only when there are no
      passes or no rows. */
  lemma {:induction false} RepeatEmpty(order: seq<int>, n: nat)
    ensures |Repeat(order, n)| == 0 <==> n == 0 || |order| == 0
  {
    if n > 0 {
      RepeatEmpty(order, n - 1);
    }
  }

  lemma RepeatNext(order: seq<int>, n: nat)
    ensures Repeat(order, n + 1) == Repeat(order, n) + order
  {
  }

  /** How many of the rows seen have a positive y. */
  function PositiveCount(labels: seq<real>, seen: seq<int>): (r: nat)
    requires forall i :: 0 <= i < |seen| ==> 0 <= seen[i] < |labels|
    ensures r <= |seen|
  {
    if |seen| == 0 then 0
    else PositiveCount(labels, seen[..|seen| - 1]) + (if labels[seen[|seen| - 1]] > 0.0 then 1 else 0)
  }

  /** The sum of the vectors vs, each weighted by its entry of ws. */
  function WeightedSum(vs: seq<seq<real>>, ws: seq<real>, n: nat): (r: seq<real>)
    requires |vs| == |ws| && forall i :: 0 <= i < |vs| ==> |vs[i]| == n
    ensures |r| == n
  {
    if |vs| == 0 then Zeros(n)
    else Add(WeightedSum(vs[..|vs| - 1], ws[..|ws| - 1], n), Scale(vs[|vs| - 1], ws[|ws| - 1]))
  }

  /** What the drivers keep true between steps, about the state st reached
      after the rows `seen`, whose pre-step iterates, duals and step sizes are
      `iterates`, `duals` and `steps`. */
  ghost predicate Tracked(st: State, seen: seq<int>, iterates: seq<seq<real>>, duals: seq<real>, steps: seq<real>,
                          labels: seq<real>, nDim: nat, sr: real)
  {
    Wellformed(st, nDim) &&
    st.t == |seen| && |iterates| == |seen| && |duals| == |seen| && |steps| == |seen| &&
    (forall i :: 0 <= i < |seen| ==> 0 <= seen[i] < |labels|) &&
    InRegion(st.v, nDim, sr) && Abs(st.alpha) <= 2.0 * sr &&
    (forall i :: 0 <= i < |iterates| ==> InRegion(iterates[i], nDim, sr)) &&
    (forall i :: 0 <= i < |duals| ==> Abs(duals[i]) <= 2.0 * sr) &&
    (forall i :: 0 <= i < |steps| ==> steps[i] > 0.0) &&
    st.gammaBar == Sum(steps) &&
    Scale(st.vBar, st.gammaBar) == WeightedSum(iterates, steps, nDim + 2) &&
    st.alphaBar * st.gammaBar == Dot(steps, duals) &&
    (|seen| > 0 ==> st.gammaBar > 0.0 && InRegion(st.vBar, nDim, sr) && Abs(st.alphaBar) <= 2.0 * sr) &&
    st.p * (st.t as real) == PositiveCount(labels, seen) as real
  }

  lemma InitialTracked(labels: seq<real>, nDim: nat, sr: real, sqrt: real -> real)
    requires sr > 0.0 && IsSqrt(sqrt)
    ensures Tracked(Initial(nDim, sr, sqrt), [], [], [], [], labels, nDim, sr)
  {
    var st := Initial(nDim, sr, sqrt);
    if nDim >= 1 {
      InitialOnSphere(nDim, sr, sqrt);
    } else {
      assert st.v[..nDim] == [];
    }
    assert Scale(st.vBar, 0.0) == Zeros(nDim + 2);
  }

  /** One step keeps everything Tracked records. */
  lemma TrackedStep(st: State, r: State, ga: real, seen: seq<int>, iterates: seq<seq<real>>, duals: seq<real>,
                    steps: seq<real>, labels: seq<real>, id: int, nDim: nat, sr: real)
    requires Tracked(st, seen, iterates, duals, steps, labels, nDim, sr)
    requires 0 <= id < |labels| && StepFacts(st, r, ga, labels[id] > 0.0, nDim, sr)
    ensures Tracked(r, seen + [id], iterates + [st.v], duals + [st.alpha], steps + [ga], labels, nDim, sr)
  {
    TrackedRate(st, r, seen, labels, id);
    TrackedTotal(st, r, ga, steps);
    TrackedWeights(st, r, ga, iterates, steps, nDim);
    TrackedDuals(st, r, ga, duals, steps);
    TrackedBounds(st, seen + [id], iterates + [st.v], duals + [st.alpha], steps + [ga], labels, nDim, sr);
  }

  lemma TrackedRate(st: State, r: State, seen: seq<int>, labels: seq<real>, id: int)
    requires forall i :: 0 <= i < |seen| ==> 0 <= seen[i] < |labels|
    requires 0 <= id < |labels| && st.p * (st.t as real) == PositiveCount(labels, seen) as real
    requires r.p * (r.t as real) == st.p * (st.t as real) + (if labels[id] > 0.0 then 1.0 else 0.0)
    ensures forall i :: 0 <= i < |seen + [id]| ==> 0 <= (seen + [id])[i] < |labels|
    ensures r.p * (r.t as real) == PositiveCount(labels, seen + [id]) as real
  {
    assert (seen + [id])[..|seen|] == seen;
  }

  lemma TrackedTotal(st: State, r: State, ga: real, steps: seq<real>)
    requires st.gammaBar == Sum(steps) && r.gammaBar == st.gammaBar + ga
    ensures r.gammaBar == Sum(steps + [ga])
  {
    assert (steps + [ga])[..|steps|] == steps;
  }

  lemma TrackedWeights(st: State, r: State, ga: real, iterates: seq<seq<real>>, steps: seq<real>, nDim: nat)
    requires |st.v| == nDim + 2 && |iterates| == |steps|
    requires forall i :: 0 <= i < |iterates| ==> |iterates[i]| == nDim + 2
    requires Scale(st.vBar, st.gammaBar) == WeightedSum(iterates, steps, nDim + 2)
    requires Scale(r.vBar, r.gammaBar) == Add(Scale(st.vBar, st.gammaBar), Scale(st.v, ga))
    ensures Scale(r.vBar, r.gammaBar) == WeightedSum(iterates + [st.v], steps + [ga], nDim + 2)
  {
    var iterates', steps' := iterates + [st.v], steps + [ga];
    assert iterates'[..|iterates|] == iterates && steps'[..|steps|] == steps;
  }

  lemma TrackedDuals(st: State, r: State, ga: real, duals: seq<real>, steps: seq<real>)
    requires |duals| == |steps| && st.alphaBar * st.gammaBar == Dot(steps, duals)
    requires r.alphaBar * r.gammaBar == st.alphaBar * st.gammaBar + ga * st.alpha
    ensures r.alphaBar * r.gammaBar == Dot(steps + [ga], duals + [st.alpha])
  {
    var duals', steps' := duals + [st.alpha], steps + [ga];
    assert duals'[..|duals|] == duals && steps'[..|steps|] == steps;
  }

  /** The bounds Tracked keeps on the recorded iterates, duals and steps. */
  lemma TrackedBounds(st: State, seen: seq<int>, iterates: seq<seq<real>>, duals: seq<real>, steps: seq<real>,
                      labels: seq<real>, nDim: nat, sr: real)
    requires |iterates| > 0 && |duals| == |iterates| && |steps| == |iterates|
    requires forall i :: 0 <= i < |iterates| - 1 ==> InRegion(iterates[i], nDim, sr)
    requires forall i :: 0 <= i < |duals| - 1 ==> Abs(duals[i]) <= 2.0 * sr
    requires forall i :: 0 <= i < |steps| - 1 ==> steps[i] > 0.0
    requires InRegion(iterates[|iterates| - 1], nDim, sr) && Abs(duals[|duals| - 1]) <= 2.0 * sr
    requires steps[|steps| - 1] > 0.0
    ensures forall i :: 0 <= i < |iterates| ==> InRegion(iterates[i], nDim, sr)
    ensures forall i :: 0 <= i < |duals| ==> Abs(duals[i]) <= 2.0 * sr
    ensures forall i :: 0 <= i < |steps| ==> steps[i] > 0.0
  {
  }

  /** A Step on row id, seen through what the drivers' invariant records:
      it is Next on the row, and it extends the run from init by row id. */
  method TrainStep(st: State, row: Row, y: real, variant: Variant, nDim: nat, sr: real, sc: real,
                   sqrt: real -> real, sample: (int, int, int) -> (int, int),
                   ghost seen: seq<int>, ghost iterates: seq<seq<real>>, ghost duals: seq<real>,
                   ghost steps: seq<real>, ghost labels: seq<real>, ghost id: int, ghost init: State,
                   ghost rows: seq<Row>) returns (r: State, ghost ga: real)
    requires Tracked(st, seen, iterates, duals, steps, labels, nDim, sr) && 0 <= id < |labels| && y == labels[id]
    requires 0 <= id < |rows| && row == rows[id] && Wellformed(init, nDim) && Data(rows, labels, seen, nDim)
    requires RowOk(row, nDim) && VariantOk(variant, nDim)
    requires sr > 0.0 && sc > 0.0 && IsSqrt(sqrt) && (variant.Solam? || SampleInside(sample))
    requires OnRun(st, init, rows, labels, seen, iterates, steps, variant, nDim, sr, sc, sqrt)
    ensures r == Next(st, Features(row, nDim), y, variant, nDim, sr, sc, sqrt) && ga == StepSize(sc, st.t, sqrt)
    ensures Tracked(r, seen + [id], iterates + [st.v], duals + [st.alpha], steps + [ga], labels, nDim, sr)
    ensures Data(rows, labels, seen + [id], nDim)
    ensures OnRun(r, init, rows, labels, seen + [id], iterates + [st.v], steps + [ga], variant, nDim, sr, sc, sqrt)
  {
    r := Step(st, row, y, variant, nDim, sr, sc, sqrt, sample);
    ga := StepSize(sc, st.t, sqrt);
    NextFacts(st, Features(row, nDim), y, variant, nDim, sr, sc, sqrt);
    TrackedStep(st, r, ga, seen, iterates, duals, steps, labels, id, nDim, sr);
    RunExtend(init, rows, labels, seen, id, variant, nDim, sr, sc, sqrt);
    OnRunStep(st, init, rows, labels, seen, iterates, steps, id, variant, nDim, sr, sc, sqrt);
  }

  /** What the drivers report, read off the invariant once the loops end. */
  lemma TrackedOutput(st: State, seen: seq<int>, iterates: seq<seq<real>>, duals: seq<real>, steps: seq<real>,
                      labels: seq<real>, nDim: nat, sr: real)
    requires Tracked(st, seen, iterates, duals, steps, labels, nDim, sr)
    ensures |iterates| == |steps| == |seen| == st.t && Wellformed(st, nDim)
    ensures forall i :: 0 <= i < |iterates| ==> InRegion(iterates[i], nDim, sr) && |iterates[i]| == nDim + 2
    ensures forall i :: 0 <= i < |steps| ==> steps[i] > 0.0
    ensures forall i :: 0 <= i < |seen| ==> 0 <= seen[i] < |labels|
    ensures st.p * (st.t as real) == PositiveCount(labels, seen) as real
    ensures st.t > 0 ==>
      NormSq(st.vBar[..nDim]) <= sr * sr && st.vBar[nDim] <= sr && st.vBar[nDim + 1] <= sr &&
      Sum(steps) > 0.0 && Scale(st.vBar, Sum(steps)) == WeightedSum(iterates, steps, nDim + 2)
  {
  }

  /** Every row the order names is valid, and so is its y. */
  predicate Data(rows: seq<Row>, labels: seq<real>, order: seq<int>, nDim: nat) {
    (forall i :: 0 <= i < |rows| ==> RowOk(rows[i], nDim)) &&
    (forall j :: 0 <= j < |order| ==> 0 <= order[j] < |rows| && order[j] < |labels|)
  }

  /** The state a driver reaches from st by one Step on each row of `seen`,
      in turn, with that row's label. */
  function Run(st: State, rows: seq<Row>, labels: seq<real>, seen: seq<int>, variant: Variant, nDim: nat,
               sr: real, sc: real, sqrt: real -> real): (r: State)
    requires Wellformed(st, nDim) && Data(rows, labels, seen, nDim) && VariantOk(variant, nDim)
    requires sr > 0.0 && sc > 0.0 && IsSqrt(sqrt)
    ensures Wellformed(r, nDim) && r.t == st.t + |seen|
    decreases |seen|, 2
  {
    if |seen| == 0 then st else RunSome(st, rows, labels, seen, variant, nDim, sr, sc, sqrt)
  }

  /** Run over a non-empty `seen`. It stands between Run and RunLast so that
      a proof about runs meets Next only when it unfolds a run three times. */
  function RunSome(st: State, rows: seq<Row>, labels: seq<real>, seen: seq<int>, variant: Variant, nDim: nat,
                   sr: real, sc: real, sqrt: real -> real): (r: State)
    requires Wellformed(st, nDim) && Data(rows, labels, seen, nDim) && VariantOk(variant, nDim)
    requires sr > 0.0 && sc > 0.0 && IsSqrt(sqrt) && |seen| > 0
    ensures Wellformed(r, nDim) && r.t == st.t + |seen|
    decreases |seen|, 1
  {
    RunLast(st, rows, labels, seen, variant, nDim, sr, sc, sqrt)
  }

  /** The last step of a run over a non-empty `seen`: Next on its last row
      from the run over the rows before it. */
  function RunLast(st: State, rows: seq<Row>, labels: seq<real>, seen: seq<int>, variant: Variant, nDim: nat,
                   sr: real, sc: real, sqrt: real -> real): (r: State)
    requires Wellformed(st, nDim) && Data(rows, labels, seen, nDim) && VariantOk(variant, nDim)
    requires sr > 0.0 && sc > 0.0 && IsSqrt(sqrt) && |seen| > 0
    ensures Wellformed(r, nDim) && r.t == st.t + |seen|
    decreases |seen|, 0
  {
    var id := seen[|seen| - 1];
    Next(Run(st, rows, labels, seen[..|seen| - 1], variant, nDim, sr, sc, sqrt), Features(rows[id], nDim),
         labels[id], variant, nDim, sr, sc, sqrt)
  }

  /** The rows a prefix of `seen` names are valid too. */
  lemma DataPrefix(rows: seq<Row>, labels: seq<real>, seen: seq<int>, k: nat, nDim: nat)
    requires Data(rows, labels, seen, nDim) && k <= |seen|
    ensures Data(rows, labels, seen[..k], nDim)
  {
  }

  /** So are those of `seen` followed by one more valid row. */
  lemma DataAppend(rows: seq<Row>, labels: seq<real>, seen: seq<int>, id: int, nDim: nat)
    requires Data(rows, labels, seen, nDim) && 0 <= id < |rows| && id < |labels|
    ensures Data(rows, labels, seen + [id], nDim)
  {
  }

  /** The iterates the run from st over `seen` starts its steps from, in
      order: the state's v before each row. */
  function Iterates(st: State, rows: seq<Row>, labels: seq<real>, seen: seq<int>, variant: Variant, nDim: nat,
                    sr: real, sc: real, sqrt: real -> real): (r: seq<seq<real>>)
    requires Wellformed(st, nDim) && Data(rows, labels, seen, nDim) && VariantOk(variant, nDim)
    requires sr > 0.0 && sc > 0.0 && IsSqrt(sqrt)
    ensures |r| == |seen|
    decreases |seen|
  {
    if |seen| == 0 then []
    else
      var prior := seen[..|seen| - 1];
      Iterates(st, rows, labels, prior, variant, nDim, sr, sc, sqrt) +
        [Run(st, rows, labels, prior, variant, nDim, sr, sc, sqrt).v]
  }

  /** Entry i of Iterates is the iterate the run reaches after the first i
      rows. */
  lemma {:induction false} IteratesAt(st: State, rows: seq<Row>, labels: seq<real>, seen: seq<int>,
                                      variant: Variant, nDim: nat, sr: real, sc: real, sqrt: real -> real, i: nat)
    requires Wellformed(st, nDim) && Data(rows, labels, seen, nDim) && VariantOk(variant, nDim)
    requires sr > 0.0 && sc > 0.0 && IsSqrt(sqrt) && i < |seen|
    ensures Iterates(st, rows, labels, seen, variant, nDim, sr, sc, sqrt)[i] ==
            Run(st, rows, labels, seen[..i], variant, nDim, sr, sc, sqrt).v
  {
    var prior := seen[..|seen| - 1];
    DataPrefix(rows, labels, seen, |seen| - 1, nDim);
    if i < |prior| {
      IteratesAt(st, rows, labels, prior, variant, nDim, sr, sc, sqrt, i);
      assert prior[..i] == seen[..i];
    } else {
      assert prior == seen[..i];
    }
  }

  /** The run from init over `seen` has reached st, and the recorded
      iterates and step sizes are those it started each step from and used. */
  ghost predicate OnRun(st: State, init: State, rows: seq<Row>, labels: seq<real>, seen: seq<int>,
                        iterates: seq<seq<real>>, steps: seq<real>, variant: Variant, nDim: nat,
                        sr: real, sc: real, sqrt: real -> real)
    requires Wellformed(init, nDim) && Data(rows, labels, seen, nDim) && VariantOk(variant, nDim)
    requires sr > 0.0 && sc > 0.0 && IsSqrt(sqrt)
  {
    st == Run(init, rows, labels, seen, variant, nDim, sr, sc, sqrt) &&
    Recorded(init, rows, labels, seen, iterates, steps, variant, nDim, sr, sc, sqrt)
  }

  /** The iterates and step sizes of the run from init over `seen`. */
  ghost predicate Recorded(init: State, rows: seq<Row>, labels: seq<real>, seen: seq<int>,
                           iterates: seq<seq<real>>, steps: seq<real>, variant: Variant, nDim: nat,
                           sr: real, sc: real, sqrt: real -> real)
    requires Wellformed(init, nDim) && Data(rows, labels, seen, nDim) && VariantOk(variant, nDim)
    requires sr > 0.0 && sc > 0.0 && IsSqrt(sqrt)
  {
    iterates == Iterates(init, rows, labels, seen, variant, nDim, sr, sc, sqrt) &&
    steps == StepSizes(sc, init.t, |seen|, sqrt)
  }

  /** The step sizes of n steps from clock t0 on: n_ga at n_t = t0 + 1,
      t0 + 2, and so on. */
  function StepSizes(sc: real, t0: nat, n: nat, sqrt: real -> real): (r: seq<real>)
    requires sc > 0.0 && IsSqrt(sqrt)
    ensures |r| == n
  {
    if n == 0 then [] else StepSizes(sc, t0, n - 1, sqrt) + [StepSize(sc, t0 + n - 1, sqrt)]
  }

  /** Entry i of StepSizes is the step size at clock t0 + i. */
  lemma {:induction false} StepSizesAt(sc: real, t0: nat, n: nat, sqrt: real -> real, i: nat)
    requires sc > 0.0 && IsSqrt(sqrt) && i < n
    ensures StepSizes(sc, t0, n, sqrt)[i] == StepSize(sc, t0 + i, sqrt)
  {
    if i < n - 1 {
      StepSizesAt(sc, t0, n - 1, sqrt, i);
    }
  }

  /** The run before any row is its start. */
  lemma OnRunStart(init: State, rows: seq<Row>, labels: seq<real>, variant: Variant, nDim: nat,
                   sr: real, sc: real, sqrt: real -> real)
    requires Wellformed(init, nDim) && Data(rows, labels, [], nDim) && VariantOk(variant, nDim)
    requires sr > 0.0 && sc > 0.0 && IsSqrt(sqrt)
    ensures OnRun(init, init, rows, labels, [], [], [], variant, nDim, sr, sc, sqrt)
  {
  }

  /** A Step on row id extends the run by that row, recording the iterate it
      started from and the step size it used. */
  lemma OnRunStep(st: State, init: State, rows: seq<Row>, labels: seq<real>, seen: seq<int>,
                  iterates: seq<seq<real>>, steps: seq<real>, id: int, variant: Variant, nDim: nat,
                  sr: real, sc: real, sqrt: real -> real)
    requires 0 <= id < |rows| && id < |labels|
    requires Wellformed(init, nDim) && Data(rows, labels, seen, nDim) && VariantOk(variant, nDim)
    requires sr > 0.0 && sc > 0.0 && IsSqrt(sqrt)
    requires OnRun(st, init, rows, labels, seen, iterates, steps, variant, nDim, sr, sc, sqrt)
    requires Data(rows, labels, seen + [id], nDim)
    ensures Recorded(init, rows, labels, seen + [id], iterates + [st.v], steps + [StepSize(sc, st.t, sqrt)],
                     variant, nDim, sr, sc, sqrt)
  {
    IteratesExtend(init, rows, labels, seen, id, variant, nDim, sr, sc, sqrt);
  }

  /** The iterates of a run over `seen` and then row id are those over
      `seen` followed by the state's v that row's step starts from. */
  lemma IteratesExtend(st: State, rows: seq<Row>, labels: seq<real>, seen: seq<int>, id: int, variant: Variant,
                       nDim: nat, sr: real, sc: real, sqrt: real -> real)
    requires Wellformed(st, nDim) && Data(rows, labels, seen, nDim) && Data(rows, labels, seen + [id], nDim)
    requires VariantOk(variant, nDim) && sr > 0.0 && sc > 0.0 && IsSqrt(sqrt)
    ensures Iterates(st, rows, labels, seen + [id], variant, nDim, sr, sc, sqrt) ==
            Iterates(st, rows, labels, seen, variant, nDim, sr, sc, sqrt) +
              [Run(st, rows, labels, seen, variant, nDim, sr, sc, sqrt).v]
  {
    assert (seen + [id])[..|seen|] == seen;
  }

  /** The run over `seen` and then row id is Next on row id from the run
      over `seen`. */
  lemma RunExtend(st: State, rows: seq<Row>, labels: seq<real>, seen: seq<int>, id: int, variant: Variant,
                  nDim: nat, sr: real, sc: real, sqrt: real -> real)
    requires 0 <= id < |rows| && id < |labels|
    requires Wellformed(st, nDim) && Data(rows, labels, seen, nDim) && VariantOk(variant, nDim)
    requires sr > 0.0 && sc > 0.0 && IsSqrt(sqrt)
    ensures Data(rows, labels, seen + [id], nDim)
    ensures Run(st, rows, labels, seen + [id], variant, nDim, sr, sc, sqrt) ==
            Next(Run(st, rows, labels, seen, variant, nDim, sr, sc, sqrt), Features(rows[id], nDim), labels[id],
                 variant, nDim, sr, sc, sqrt)
  {
    var seen' := seen + [id];
    DataAppend(rows, labels, seen, id, nDim);
    assert seen'[..|seen|] == seen;
    assert Run(st, rows, labels, seen', variant, nDim, sr, sc, sqrt) ==
           RunSome(st, rows, labels, seen', variant, nDim, sr, sc, sqrt) ==
           RunLast(st, rows, labels, seen', variant, nDim, sr, sc, sqrt);
  }

  /** The shared driver: `order` is visited once per pass for nPass passes,
      one Step per row, from the initial state; the result is the averaged
      iterate of that run, or None when no step ran (the C drivers then copy
      out an uninitialised buffer). */
  method Train(rows: seq<Row>, labels: seq<real>, order: seq<int>, variant: Variant, nDim: nat, nPass: int,
               sr: real, sc: real, sqrt: real -> real, sample: (int, int, int) -> (int, int))
      returns (result: Option<Model>, ghost seen: seq<int>, ghost iterates: seq<seq<real>>,
               ghost steps: seq<real>, ghost last: State)
    requires Data(rows, labels, order, nDim) && VariantOk(variant, nDim)
    requires sr > 0.0 && sc > 0.0 && IsSqrt(sqrt) && (variant.Solam? || SampleInside(sample))
    ensures seen == Repeat(order, if nPass < 1 then 0 else nPass) && Data(rows, labels, seen, nDim)
    ensures last == Run(Initial(nDim, sr, sqrt), rows, labels, seen, variant, nDim, sr, sc, sqrt)
    ensures result == if nPass < 1 || |order| == 0 then None else Some(Output(last, nDim))
    ensures |iterates| == |steps| == |seen| == last.t && Wellformed(last, nDim)
    ensures iterates == Iterates(Initial(nDim, sr, sqrt), rows, labels, seen, variant, nDim, sr, sc, sqrt)
    ensures steps == StepSizes(sc, 0, |seen|, sqrt) && forall i :: 0 <= i < |steps| ==> steps[i] > 0.0
    ensures forall i :: 0 <= i < |iterates| ==> InRegion(iterates[i], nDim, sr) && |iterates[i]| == nDim + 2
    ensures forall i :: 0 <= i < |seen| ==> 0 <= seen[i] < |labels|
    ensures PositiveCount(labels, seen) as real == last.p * (last.t as real)
    ensures result.Some? ==>
      |result.value.wt| == nDim && NormSq(result.value.wt) <= sr * sr && result.value.a <= sr && result.value.b <= sr && Sum(steps) > 0.0 &&
      Scale(result.value.wt + [result.value.a, result.value.b], Sum(steps)) ==
        WeightedSum(iterates, steps, nDim + 2)
  {
    var st := Initial(nDim, sr, sqrt);
    ghost var duals;
    InitialTracked(labels, nDim, sr, sqrt);
    st, seen, iterates, duals, steps := Passes(st, rows, labels, order, variant, nDim, nPass, sr, sc, sqrt, sample);
    if st.t == 0 {
      result := None;
    } else {
      result := Some(Output(st, nDim));
    }
    last := st;
    RepeatEmpty(order, if nPass < 1 then 0 else nPass);
    TrackedOutput(last, seen, iterates, duals, steps, labels, nDim, sr);
  }

  /** The results a driver copies out of the state: `n_v1_` split into the
      weights and the two offsets. */
  function Output(st: State, nDim: nat): (m: Model)
    requires Wellformed(st, nDim)
    ensures |m.wt| == nDim && m.wt + [m.a, m.b] == st.vBar
  {
    SplitOffsets(st.vBar, nDim);
    Model(st.vBar[..nDim], st.vBar[nDim], st.vBar[nDim + 1])
  }

  /** A vector of nDim + 2 entries is its first nDim entries followed by the
      two offsets. */
  lemma SplitOffsets(v: seq<real>, nDim: nat)
    requires |v| == nDim + 2
    ensures v == v[..nDim] + [v[nDim], v[nDim + 1]]
  {
  }

  /** The drivers' invariant between passes: n passes of `order` seen. */
  ghost predicate Seen(st: State, seen: seq<int>, order: seq<int>, n: nat, iterates: seq<seq<real>>, duals: seq<real>,
                       steps: seq<real>, labels: seq<real>, nDim: nat, sr: real)
  {
    seen == Repeat(order, n) && Tracked(st, seen, iterates, duals, steps, labels, nDim, sr)
  }

  /** The loops of the drivers: for each of nPass passes, one Step per row
      of `order`, from the state st0. */
  method Passes(st0: State, rows: seq<Row>, labels: seq<real>, order: seq<int>, variant: Variant, nDim: nat,
                nPass: int, sr: real, sc: real, sqrt: real -> real, sample: (int, int, int) -> (int, int))
      returns (st: State, ghost seen: seq<int>, ghost iterates: seq<seq<real>>, ghost duals: seq<real>,
               ghost steps: seq<real>)
    requires Data(rows, labels, order, nDim) && VariantOk(variant, nDim)
    requires sr > 0.0 && sc > 0.0 && IsSqrt(sqrt) && (variant.Solam? || SampleInside(sample))
    requires Tracked(st0, [], [], [], [], labels, nDim, sr)
    ensures seen == Repeat(order, if nPass < 1 then 0 else nPass) && Data(rows, labels, seen, nDim)
    ensures OnRun(st, st0, rows, labels, seen, iterates, steps, variant, nDim, sr, sc, sqrt)
    ensures Tracked(st, seen, iterates, duals, steps, labels, nDim, sr)
  {
    st, seen, iterates, duals, steps := st0, [], [], [], [];
    OnRunStart(st0, rows, labels, variant, nDim, sr, sc, sqrt);
    var cnt := 1;
    ghost var done: nat := 0;
    while cnt <= nPass
      invariant 1 <= cnt && (cnt <= nPass + 1 || cnt == 1) && done == cnt - 1
      invariant Seen(st, seen, order, done, iterates, duals, steps, labels, nDim, sr)
      invariant Data(rows, labels, seen, nDim)
      invariant OnRun(st, st0, rows, labels, seen, iterates, steps, variant, nDim, sr, sc, sqrt)
      decreases nPass - cnt
    {
      st, iterates, duals, steps := Pass(st, rows, labels, order, variant, nDim, sr, sc, sqrt, sample,
                                         st0, done, seen, iterates, duals, steps);
      seen, done := seen + order, done + 1;
      cnt := cnt + 1;
    }
  }

  /** One pass: a Step on each row of `order` in turn, continuing the run
      from init. */
  method Pass(st0: State, rows: seq<Row>, labels: seq<real>, order: seq<int>, variant: Variant, nDim: nat,
              sr: real, sc: real, sqrt: real -> real, sample: (int, int, int) -> (int, int),
              ghost init: State, ghost n: nat, ghost seen0: seq<int>, ghost iterates0: seq<seq<real>>,
              ghost duals0: seq<real>, ghost steps0: seq<real>)
      returns (st: State, ghost iterates: seq<seq<real>>, ghost duals: seq<real>, ghost steps: seq<real>)
    requires Data(rows, labels, order, nDim) && VariantOk(variant, nDim)
    requires sr > 0.0 && sc > 0.0 && IsSqrt(sqrt) && (variant.Solam? || SampleInside(sample))
    requires Seen(st0, seen0, order, n, iterates0, duals0, steps0, labels, nDim, sr)
    requires Wellformed(init, nDim) && Data(rows, labels, seen0, nDim)
    requires OnRun(st0, init, rows, labels, seen0, iterates0, steps0, variant, nDim, sr, sc, sqrt)
    ensures Seen(st, seen0 + order, order, n + 1, iterates, duals, steps, labels, nDim, sr)
    ensures Data(rows, labels, seen0 + order, nDim)
    ensures OnRun(st, init, rows, labels, seen0 + order, iterates, steps, variant, nDim, sr, sc, sqrt)
  {
    RepeatNext(order, n);
    st, iterates, duals, steps := st0, iterates0, duals0, steps0;
    assert seen0 + order[..0] == seen0;
    var j := 0;
    while j < |order|
      invariant 0 <= j <= |order| && Data(rows, labels, seen0 + order[..j], nDim)
      invariant Tracked(st, seen0 + order[..j], iterates, duals, steps, labels, nDim, sr)
      invariant OnRun(st, init, rows, labels, seen0 + order[..j], iterates, steps, variant, nDim, sr, sc, sqrt)
    {
      var id := order[j];
      var r, ga := TrainStep(st, rows[id], labels[id], variant, nDim, sr, sc, sqrt, sample,
                             seen0 + order[..j], iterates, duals, steps, labels, id, init, rows);
      NextSeen(seen0, order, j);
      iterates, duals, steps := iterates + [st.v], duals + [st.alpha], steps + [ga];
      st := r;
      j := j + 1;
    }
    assert order[..|order|] == order;
  }

  lemma NextSeen(seen0: seq<int>, order: seq<int>, j: nat)
    requires j < |order|
    ensures seen0 + order[..j] + [order[j]] == seen0 + order[..j + 1]
  {
    assert order[..j + 1] == order[..j] + [order[j]];
  }
}
