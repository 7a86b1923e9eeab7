/** FSAUC (`auc_fs` in auc_fs.py): the stage-wise stochastic primal-dual AUC
    maximiser. The primal iterate v has dim + 2 entries: the weights w, then
    the positive-class offset a and the negative-class offset b. Each step takes
    a label-dependent gradient step on v and on the dual scalar alpha, then
    projects w onto the L1 ball of radius R, clips the offsets to [-R, R] and
    alpha to [-2R, 2R], pulls v back into the Euclidean ball of radius paraR
    around the stage checkpoint v1 and alpha into [alpha1 - D, alpha1 + D].
    Each stage ends by halving paraR and retuning D, beta and eta from the
    running prevalence estimate. The caller's `beta` option is the radius R;
    the internal confidence parameter is `beta` here. */
module FsAuc {
  import opened Vectors
  import opened Wrappers
  import opened L1Ball

  const Delta: real := 0.1
  /** Substituted for D and beta when their statistical bound is vacuous. */
  const Sentinel: real := 10000000.0

  // ---------------------------------------------------------------------------
  // The feasible region.

  /** w lies in the L1 ball of radius c and both offsets in [-c, c]. */
  predicate InBox(v: seq<real>, dim: nat, c: real)
    requires |v| == dim + 2
  {
    L1(v[..dim]) <= c && Abs(v[dim]) <= c && Abs(v[dim + 1]) <= c
  }

  /** Rescales x onto [-c, c] when it is longer, as the offset, dual and
      interval clips do. */
  function Clip(x: real, c: real): (r: real)
    requires c >= 0.0
    ensures Abs(r) <= c
    ensures Abs(x) <= c ==> r == x
    ensures Abs(x) > c ==> r == Sign(x) * c
  {
    if Abs(x) > c then RescaleToMagnitude(x, c); x * (c / Abs(x)) else x
  }

  lemma RescaleToMagnitude(x: real, c: real)
    requires c >= 0.0 && Abs(x) > c
    ensures x * (c / Abs(x)) == Sign(x) * c
  {
    if x > 0.0 {
      DivMul(c, x);
    } else {
      DivMul(c, -x);
      assert x * (c / -x) == -((-x) * (c / -x));
    }
  }

  /** Pulls v back along the segment towards v1 until it is within paraR of
      v1. `norm` is the Euclidean norm, the square root of the squared norm. */
  function BallProject(v: seq<real>, v1: seq<real>, paraR: real, sqrt: real -> real): (r: seq<real>)
    requires |v| == |v1| && paraR >= 0.0
    ensures |r| == |v|
  {
    var vd := Sub(v, v1);
    var tnm := sqrt(NormSq(vd));
    var vd' := if tnm > paraR then Scale(vd, paraR / tnm) else vd;
    Add(v1, vd')
  }

  /** The ball projection moves v to a point of the segment from v1 to v;
      inside the ball it leaves v where it is. */
  lemma BallProjectIsLerp(v: seq<real>, v1: seq<real>, paraR: real, sqrt: real -> real) returns (s: real)
    requires |v| == |v1| && paraR >= 0.0 && IsSqrt(sqrt)
    ensures 0.0 <= s <= 1.0 && BallProject(v, v1, paraR, sqrt) == Lerp(v1, v, s)
    ensures NormSq(Sub(v, v1)) <= paraR * paraR ==> BallProject(v, v1, paraR, sqrt) == v
  {
    var vd := Sub(v, v1);
    var q := NormSq(vd);
    NormSqNonNegative(vd);
    var tnm := sqrt(q);
    LerpIsShift(v1, v, 1.0);
    ShiftByOne(v1, v);
    if tnm > paraR {
      s := paraR / tnm;
      assert s <= 1.0 by { DivMonotone(paraR, tnm, tnm); }
      LerpIsShift(v1, v, s);
      if q <= paraR * paraR {
        SqrtMonotone(q, paraR, sqrt);
      }
    } else {
      s := 1.0;
      assert Scale(vd, 1.0) == vd;
    }
  }

  /** Moving all the way from a to b lands on b. */
  lemma ShiftByOne(a: seq<real>, b: seq<real>)
    requires |a| == |b|
    ensures Lerp(a, b, 1.0) == b
  {
  }

  /** A square root of q is at most r >= 0 when q <= r * r. */
  lemma SqrtMonotone(q: real, r: real, sqrt: real -> real)
    requires IsSqrt(sqrt) && 0.0 <= q <= r * r && r >= 0.0
    ensures sqrt(q) <= r
  {
    var t := sqrt(q);
    assert t >= 0.0 && t * t == q;
    if t > r {
      SquareStrict(r, t);
    }
  }

  lemma SquareMonotone(a: real, b: real)
    requires 0.0 <= a <= b
    ensures a * a <= b * b
  {
    assert a * a <= a * b;
  }

  lemma SquareStrict(a: real, b: real)
    requires 0.0 <= a < b
    ensures a * a < b * b
  {
    MulPositive(b - a, b + a);
    assert b * b - a * a == (b - a) * (b + a);
  }

  /** After the ball projection v is within paraR of v1. */
  lemma BallProjectRadius(v: seq<real>, v1: seq<real>, paraR: real, sqrt: real -> real)
    requires |v| == |v1| && paraR >= 0.0 && IsSqrt(sqrt)
    ensures NormSq(Sub(BallProject(v, v1, paraR, sqrt), v1)) <= paraR * paraR
  {
    var vd := Sub(v, v1);
    var q := NormSq(vd);
    NormSqNonNegative(vd);
    var tnm := sqrt(q);
    var vd' := if tnm > paraR then Scale(vd, paraR / tnm) else vd;
    var r := BallProject(v, v1, paraR, sqrt);
    assert Sub(r, v1) == vd';
    if tnm > paraR {
      NormSqScale(vd, paraR / tnm);
      ScaledToRadius(q, tnm, paraR);
    } else {
      SquareMonotone(tnm, paraR);
    }
  }

  lemma ScaledToRadius(q: real, tnm: real, paraR: real)
    requires tnm > paraR >= 0.0 && tnm * tnm == q
    ensures (paraR / tnm) * (paraR / tnm) * q == paraR * paraR
  {
    var s := paraR / tnm;
    DivMul(paraR, tnm);
    assert s * tnm == paraR;
    assert s * s * (tnm * tnm) == (s * tnm) * (s * tnm);
  }

  /** The dual part of the projection chain: clip to [-2R, 2R], then into the
      interval of half-width D around alpha1. */
  function ProjectDual(alpha: real, alpha1: real, R: real, D: real): (r: real)
    requires R >= 0.0 && D >= 0.0
    ensures Abs(r - alpha1) <= D
  {
    var a := Clip(alpha, 2.0 * R);
    alpha1 + Clip(a - alpha1, D)
  }

  /** The |alpha| <= 2R clip does not survive the interval projection that
      follows it: with alpha1 = 10, R = 1 and D = 1 the result is 9. */
  lemma DualBoundNotKept()
    ensures Abs(ProjectDual(0.0, 10.0, 1.0, 1.0)) > 2.0 * 1.0
  {
    assert Clip(0.0, 2.0) == 0.0;
    assert Clip(-10.0, 1.0) == -1.0 by { RescaleToMagnitude(-10.0, 1.0); }
  }

  datatype Iterate = Iterate(v: seq<real>, alpha: real)

  /** The region the last two projections enforce: v within paraR of the
      checkpoint v1 in the Euclidean norm, alpha within D of alpha1. */
  predicate NearCheckpoint(it: Iterate, v1: seq<real>, alpha1: real, paraR: real, D: real)
    requires |it.v| == |v1|
  {
    NormSq(Sub(it.v, v1)) <= paraR * paraR && Abs(it.alpha - alpha1) <= D
  }

  /** The projection chain applied after each gradient step. */
  function ProjectIterate(v: seq<real>, alpha: real, v1: seq<real>, alpha1: real, dim: nat,
                          R: real, paraR: real, D: real, sqrt: real -> real): (r: Iterate)
    requires |v| == dim + 2 && |v1| == dim + 2 && R > 0.0 && paraR >= 0.0 && D >= 0.0
    ensures |r.v| == dim + 2
  {
    ProjectShrinks(v[..dim], R);
    var w := ProjectOntoL1Ball(v[..dim], R).w;
    var box := w + [Clip(v[dim], R), Clip(v[dim + 1], R)];
    Iterate(BallProject(box, v1, paraR, sqrt), ProjectDual(alpha, alpha1, R, D))
  }

  /** After the chain the iterate is within paraR of v1 and alpha within D of
      alpha1; and when the checkpoint v1 lies in the box of radius R, so does
      the iterate (the box is convex and the ball step moves along a segment
      from v1). */
  lemma ProjectIterateRegion(v: seq<real>, alpha: real, v1: seq<real>, alpha1: real, dim: nat,
                             R: real, paraR: real, D: real, sqrt: real -> real)
    requires |v| == dim + 2 && |v1| == dim + 2 && R > 0.0 && paraR >= 0.0 && D >= 0.0
    requires IsSqrt(sqrt)
    ensures var r := ProjectIterate(v, alpha, v1, alpha1, dim, R, paraR, D, sqrt);
      NormSq(Sub(r.v, v1)) <= paraR * paraR && Abs(r.alpha - alpha1) <= D &&
      (InBox(v1, dim, R) ==> InBox(r.v, dim, R))
  {
    ProjectShrinks(v[..dim], R);
    var w := ProjectOntoL1Ball(v[..dim], R).w;
    var box := w + [Clip(v[dim], R), Clip(v[dim + 1], R)];
    assert box[..dim] == w;
    assert InBox(box, dim, R);
    BallProjectRadius(box, v1, paraR, sqrt);
    if InBox(v1, dim, R) {
      var s := BallProjectIsLerp(box, v1, paraR, sqrt);
      BoxConvex(v1, box, dim, R, s);
    }
  }

  /** The box is convex. */
  lemma BoxConvex(a: seq<real>, b: seq<real>, dim: nat, c: real, s: real)
    requires |a| == dim + 2 && |b| == dim + 2 && 0.0 <= s <= 1.0
    requires InBox(a, dim, c) && InBox(b, dim, c)
    ensures InBox(Lerp(a, b, s), dim, c)
  {
    var r := Lerp(a, b, s);
    LerpPrefix(a, b, s, dim);
    L1Lerp(a[..dim], b[..dim], s);
    MixBounded(L1(a[..dim]), L1(b[..dim]), s, c);
    AbsLerp(a[dim], b[dim], s);
    MixBounded(Abs(a[dim]), Abs(b[dim]), s, c);
    AbsLerp(a[dim + 1], b[dim + 1], s);
    MixBounded(Abs(a[dim + 1]), Abs(b[dim + 1]), s, c);
  }

  // ---------------------------------------------------------------------------
  // The per-example gradient.

  /** The per-example saddle objective of the square-loss AUC formulation for
      a positive example, as a function of the score wx = <w, x>, the positive
      offset a, the dual scalar alpha and the prevalence p. */
  function PositiveObjective(wx: real, a: real, alpha: real, p: real): real {
    (1.0 - p) * (wx - a) * (wx - a) - 2.0 * (1.0 + alpha) * (1.0 - p) * wx - p * (1.0 - p) * alpha * alpha
  }

  /** The same for a negative example, with the negative offset b. */
  function NegativeObjective(wx: real, b: real, alpha: real, p: real): real {
    p * (wx - b) * (wx - b) + 2.0 * (1.0 + alpha) * p * wx - p * (1.0 - p) * alpha * alpha
  }

  /** The score <w, x> of the example x under the weights of v. */
  function Score(x: seq<real>, v: seq<real>): real
    requires |v| >= |x|
  {
    Dot(x, v[..|x|])
  }

  /** The objective at the iterate v = (w, a, b) for the example x. */
  function Objective(x: seq<real>, v: seq<real>, alpha: real, p: real, positive: bool): real
    requires |v| == |x| + 2
  {
    var wx := Score(x, v);
    if positive then PositiveObjective(wx, v[|x|], alpha, p) else NegativeObjective(wx, v[|x| + 1], alpha, p)
  }

  /** The gradient the source steps along for the example x: primal part g.v
      and dual part g.alpha. Only the offset of the example's own class gets a
      non-zero entry. */
  function Gradient(x: seq<real>, v: seq<real>, alpha: real, p: real, positive: bool): (g: Iterate)
    requires |v| == |x| + 2
    ensures |g.v| == |v|
    ensures positive ==> g.v[|x| + 1] == 0.0
    ensures !positive ==> g.v[|x|] == 0.0
  {
    var dim := |x|;
    var wx := Score(x, v);
    var gw := Scale(x, WeightCoefficient(wx, v[dim], v[dim + 1], alpha, p, positive));
    var ga := DualCoefficient(wx, alpha, p, positive);
    if positive then Iterate(gw + [PositiveOffsetCoefficient(wx, v[dim], p), 0.0], ga)
    else Iterate(gw + [0.0, NegativeOffsetCoefficient(wx, v[dim + 1], p)], ga)
  }

  /** The offset entry of the gradient for a positive example. */
  function PositiveOffsetCoefficient(wx: real, a: real, p: real): real {
    (p - 1.0) * (wx - a)
  }

  /** The offset entry of the gradient for a negative example. */
  function NegativeOffsetCoefficient(wx: real, b: real, p: real): real {
    p * (b - wx)
  }

  /** The factor of the example in the weight part of the gradient. */
  function WeightCoefficient(wx: real, a: real, b: real, alpha: real, p: real, positive: bool): real {
    if positive then (1.0 - p) * (wx - a - 1.0 - alpha) else p * (wx - b + 1.0 + alpha)
  }

  /** The dual part of the gradient. */
  function DualCoefficient(wx: real, alpha: real, p: real, positive: bool): real {
    if positive then (p - 1.0) * (wx + p * alpha) else p * (wx + (p - 1.0) * alpha)
  }

  /** The gradient's entries: the weight part is the example scaled by
      WeightCoefficient at the current score, the offset of the example's own
      class gets its offset coefficient and the other offset 0, and the dual
      part is DualCoefficient. Together with the class lemmas below, each
      entry is half the partial derivative of the objective (chain rule through
      the score, by ScoreAfterStep). */
  lemma GradientEntries(x: seq<real>, v: seq<real>, alpha: real, p: real, positive: bool)
    requires |v| == |x| + 2
    ensures var g := Gradient(x, v, alpha, p, positive);
      var wx := Score(x, v);
      (forall i :: 0 <= i < |x| ==> g.v[i] == WeightCoefficient(wx, v[|x|], v[|x| + 1], alpha, p, positive) * x[i]) &&
      g.v[|x|] == (if positive then PositiveOffsetCoefficient(wx, v[|x|], p) else 0.0) &&
      g.v[|x| + 1] == (if positive then 0.0 else NegativeOffsetCoefficient(wx, v[|x| + 1], p)) &&
      g.alpha == DualCoefficient(wx, alpha, p, positive)
  {
    var wx := Score(x, v);
    var gw := Scale(x, WeightCoefficient(wx, v[|x|], v[|x| + 1], alpha, p, positive));
    var tail := if positive then [PositiveOffsetCoefficient(wx, v[|x|], p), 0.0]
                else [0.0, NegativeOffsetCoefficient(wx, v[|x| + 1], p)];
    assert Gradient(x, v, alpha, p, positive) == Iterate(gw + tail, DualCoefficient(wx, alpha, p, positive));
  }

  /** Moving weight i by h moves the score by x[i] h. */
  lemma ScoreAfterStep(x: seq<real>, v: seq<real>, i: nat, h: real)
    requires |v| == |x| + 2 && i < |x|
    ensures Score(x, v[i := v[i] + h]) == Score(x, v) + x[i] * h
  {
    var dim := |x|;
    assert v[i := v[i] + h][..dim] == v[..dim][i := v[i] + h];
    DotUpdate(x, v[..dim], i, h);
  }

  // For each class, each gradient coefficient is half the derivative of the
  // objective along its variable: the objective is quadratic, so a move by d
  // changes it by exactly 2 d times the coefficient plus a curvature term. The
  // dual coefficient carries the ascent direction (negative curvature).

  lemma PositiveScoreStep(wx: real, a: real, b: real, alpha: real, p: real, d: real)
    ensures PositiveObjective(wx + d, a, alpha, p)
         == PositiveObjective(wx, a, alpha, p) + 2.0 * d * WeightCoefficient(wx, a, b, alpha, p, true) + (1.0 - p) * (d * d)
  {
  }

  lemma PositiveOffsetStep(wx: real, a: real, alpha: real, p: real, d: real)
    ensures PositiveObjective(wx, a + d, alpha, p)
         == PositiveObjective(wx, a, alpha, p) + 2.0 * d * PositiveOffsetCoefficient(wx, a, p) + (1.0 - p) * (d * d)
  {
  }

  lemma PositiveDualStep(wx: real, a: real, alpha: real, p: real, d: real)
    ensures PositiveObjective(wx, a, alpha + d, p)
         == PositiveObjective(wx, a, alpha, p) + 2.0 * d * DualCoefficient(wx, alpha, p, true) - p * (1.0 - p) * (d * d)
  {
  }

  lemma NegativeScoreStep(wx: real, a: real, b: real, alpha: real, p: real, d: real)
    ensures NegativeObjective(wx + d, b, alpha, p)
         == NegativeObjective(wx, b, alpha, p) + 2.0 * d * WeightCoefficient(wx, a, b, alpha, p, false) + p * (d * d)
  {
  }

  lemma NegativeOffsetStep(wx: real, b: real, alpha: real, p: real, d: real)
    ensures NegativeObjective(wx, b + d, alpha, p)
         == NegativeObjective(wx, b, alpha, p) + 2.0 * d * NegativeOffsetCoefficient(wx, b, p) + p * (d * d)
  {
  }

  lemma NegativeDualStep(wx: real, b: real, alpha: real, p: real, d: real)
    ensures NegativeObjective(wx, b, alpha + d, p)
         == NegativeObjective(wx, b, alpha, p) + 2.0 * d * DualCoefficient(wx, alpha, p, false) - p * (1.0 - p) * (d * d)
  {
  }

  // ---------------------------------------------------------------------------
  // Averages of in-box vectors stay in the box.

  /** Sums of in-box vectors are in the box of the summed radius. */
  lemma BoxAdd(a: seq<real>, b: seq<real>, dim: nat, c1: real, c2: real)
    requires |a| == dim + 2 && |b| == dim + 2
    requires InBox(a, dim, c1) && InBox(b, dim, c2)
    ensures InBox(Add(a, b), dim, c1 + c2)
  {
    AddPrefix(a, b, dim);
    L1Add(a[..dim], b[..dim]);
  }

  /** Dividing a vector in the box of radius k R by k lands in the box of radius R. */
  lemma BoxMean(a: seq<real>, dim: nat, k: nat, R: real)
    requires |a| == dim + 2 && k >= 1 && InBox(a, dim, Times(k, R))
    ensures InBox(DivBy(a, k as real), dim, R)
  {
    var c := k as real;
    var m := Times(k, R);
    DivByPrefix(a, c, dim);
    L1DivBy(a[..dim], c);
    DivMonotone(L1(a[..dim]), m, c);
    TimesDiv(k, R);
    AbsDiv(a[dim], c);
    DivMonotone(Abs(a[dim]), m, c);
    AbsDiv(a[dim + 1], c);
    DivMonotone(Abs(a[dim + 1]), m, c);
  }

  lemma ZerosInBox(dim: nat, c: real)
    requires c >= 0.0
    ensures InBox(Zeros(dim + 2), dim, c)
  {
    assert Zeros(dim + 2)[..dim] == Zeros(dim);
    L1OfZeros(dim);
  }

  // ---------------------------------------------------------------------------
  // Running statistics over the examples visited so far.

  /** The number of positive labels among the examples idx. */
  function CountPositives(y: seq<real>, idx: seq<nat>): (r: nat)
    requires forall j :: 0 <= j < |idx| ==> idx[j] < |y|
    ensures r <= |idx|
  {
    if |idx| == 0 then 0
    else CountPositives(y, idx[..|idx| - 1]) + (if y[idx[|idx| - 1]] == 1.0 then 1 else 0)
  }

  /** The sum of the feature vectors of the examples idx of one class. */
  function ClassSum(x: seq<seq<real>>, y: seq<real>, idx: seq<nat>, positive: bool, dim: nat): (r: seq<real>)
    requires |y| == |x| && forall i :: 0 <= i < |x| ==> |x[i]| == dim
    requires forall j :: 0 <= j < |idx| ==> idx[j] < |x|
    ensures |r| == dim
  {
    if |idx| == 0 then Zeros(dim)
    else
      var last := idx[|idx| - 1];
      var rest := ClassSum(x, y, idx[..|idx| - 1], positive, dim);
      if (y[last] == 1.0) == positive then Add(rest, x[last]) else rest
  }

  /** A class mean, kept from before while the class has not been seen. */
  function ClassMean(sum: seq<real>, count: nat, prior: seq<real>): (r: seq<real>)
    requires |sum| == |prior|
    ensures |r| == |sum|
    ensures count == 0 ==> r == prior
  {
    if count > 0 then DivBy(sum, count as real) else prior
  }

  /** The mean taken count times gives back the class sum. */
  lemma ClassMeanTimesCount(sum: seq<real>, count: nat, prior: seq<real>)
    requires |sum| == |prior| && count > 0
    ensures forall i :: 0 <= i < |sum| ==> Times(count, ClassMean(sum, count, prior)[i]) == sum[i]
  {
    forall i | 0 <= i < |sum|
      ensures Times(count, ClassMean(sum, count, prior)[i]) == sum[i]
    {
      TimesIsProduct(count, sum[i] / count as real);
      DivMul(sum[i], count as real);
    }
  }

  // ---------------------------------------------------------------------------
  // Retuning at the end of a stage.

  lemma SqrtPositive(q: real, sqrt: real -> real)
    requires IsSqrt(sqrt) && q > 0.0
    ensures sqrt(q) > 0.0
  {
  }

  /** The deviation term of the D update: when it is not positive the bound on
      D is vacuous and the sentinel is used. */
  function DualDeviation(pHat: real, n0: nat, sqrt: real -> real, log: real -> real): real {
    Min(pHat, 1.0 - pHat) * n0 as real - sqrt(2.0 * n0 as real * log(12.0 / Delta))
  }

  /** The new radius D of the dual interval, from the halved primal radius. */
  function NextDualRadius(pHat: real, n0: nat, R: real, paraR: real, sqrt: real -> real, log: real -> real): (r: real)
    requires IsSqrt(sqrt) && log(12.0 / Delta) >= 0.0 && R > 0.0 && paraR > 0.0
    ensures r > 0.0
    ensures DualDeviation(pHat, n0, sqrt, log) <= 0.0 ==> r == Sentinel
    ensures DualDeviation(pHat, n0, sqrt, log) > 0.0 ==> r > 2.0 * sqrt(2.0) * paraR
  {
    var tmp1 := 12.0 * sqrt(2.0) * (2.0 + sqrt(2.0 * log(12.0 / Delta))) * R;
    var tmp2 := DualDeviation(pHat, n0, sqrt, log);
    if tmp2 > 0.0 then
      SqrtPositive(2.0, sqrt);
      SqrtPositive(tmp2, sqrt);
      TuningPositive(sqrt(2.0), sqrt(2.0 * log(12.0 / Delta)), R, paraR, sqrt(tmp2));
      2.0 * sqrt(2.0) * paraR + tmp1 / sqrt(tmp2)
    else Sentinel
  }

  lemma TuningPositive(s2: real, sl: real, R: real, paraR: real, st: real)
    requires s2 > 0.0 && sl >= 0.0 && R > 0.0 && paraR > 0.0 && st > 0.0
    ensures 2.0 * s2 * paraR > 0.0
    ensures 12.0 * s2 * (2.0 + sl) * R / st > 0.0
  {
    MulPositive(2.0 * s2, paraR);
    MulPositive(12.0 * s2, 2.0 + sl);
    MulPositive(12.0 * s2 * (2.0 + sl), R);
  }

  /** The deviation term of the beta update; numpy's division by n0 = 0 gives
      an infinite square root, so the term is then minus infinity. */
  predicate BetaBoundVacuous(pHat: real, n0: nat, sqrt: real -> real, log: real -> real) {
    n0 == 0 || Min(pHat, 1.0 - pHat) - sqrt(2.0 * log(12.0 / Delta) / n0 as real) <= 0.0
  }

  /** The new confidence parameter beta: at least 9, the sentinel when the
      bound is vacuous. */
  function NextBeta(pHat: real, n0: nat, sqrt: real -> real, log: real -> real): (r: real)
    requires IsSqrt(sqrt) && log(12.0 / Delta) >= 0.0
    ensures r >= 9.0
    ensures BetaBoundVacuous(pHat, n0, sqrt, log) ==> r == Sentinel
    ensures !BetaBoundVacuous(pHat, n0, sqrt, log) ==> r > 9.0
  {
    var c := 2.0 + sqrt(2.0 * log(12.0 / Delta));
    var tmp1 := 288.0 * (c * c);
    if n0 == 0 then Sentinel
    else
      var tmp2 := Min(pHat, 1.0 - pHat) - sqrt(2.0 * log(12.0 / Delta) / n0 as real);
      if tmp2 > 0.0 then
        MulPositive(c, c);
        9.0 + tmp1 / tmp2
      else Sentinel
  }

  /** The new step size: never larger, halved-or-less unless beta grew at
      least fourfold. */
  function NextEta(eta: real, betaNew: real, beta: real, sqrt: real -> real): (r: real)
    requires IsSqrt(sqrt) && beta > 0.0 && betaNew > 0.0
    ensures r <= eta
    ensures eta > 0.0 ==> r > 0.0 && (r < eta <==> betaNew < 4.0 * beta)
  {
    var q := betaNew / beta;
    SqrtPositive(q, sqrt);
    var shrunk := sqrt(q) * eta / 2.0;
    if eta > 0.0 then EtaShrinks(eta, betaNew, beta, sqrt(q)); Min(shrunk, eta)
    else Min(shrunk, eta)
  }

  lemma EtaShrinks(eta: real, betaNew: real, beta: real, s: real)
    requires eta > 0.0 && beta > 0.0 && betaNew > 0.0 && s > 0.0 && s * s == betaNew / beta
    ensures s * eta / 2.0 > 0.0
    ensures s * eta / 2.0 < eta <==> betaNew < 4.0 * beta
  {
    MulPositive(s, eta);
    DivMul(betaNew, beta);
    if s < 2.0 {
      assert s * eta < 2.0 * eta;
      SquareStrict(s, 2.0);
      assert betaNew == beta * (s * s);
      assert beta * (s * s) < beta * 4.0;
    } else {
      assert s * eta >= 2.0 * eta;
      SquareMonotone(2.0, s);
      assert betaNew == beta * (s * s);
      assert beta * (s * s) >= beta * 4.0;
    }
  }

  // ---------------------------------------------------------------------------
  // The optimiser's state and its loops.

  /** The local variables of `auc_fs` that live across iterations. */
  datatype State = State(
    v: seq<real>, alpha: real,          // current iterate
    v1: seq<real>, alpha1: real,        // stage checkpoint
    sp: nat, t: nat, pHat: real,        // positives seen, examples seen, prevalence estimate
    sxPos: seq<real>, sxNeg: seq<real>, // per-class sums of the examples seen
    mPos: seq<real>, mNeg: seq<real>,   // per-class means at the last stage end
    paraR: real, D: real, beta: real, eta: real,
    vSum: seq<real>, vAve: seq<real>)   // running sum and average of the stage's iterates

  /** What holds of the state between any two steps: the shapes, the
      prevalence estimate as the fraction of positives seen, positive radii,
      and the checkpoint and the running average inside the box of radius R. */
  predicate Valid(s: State, dim: nat, R: real) {
    |s.v| == dim + 2 && |s.v1| == dim + 2 && |s.vSum| == dim + 2 && |s.vAve| == dim + 2 &&
    |s.sxPos| == dim && |s.sxNeg| == dim && |s.mPos| == dim && |s.mNeg| == dim &&
    s.sp <= s.t && 0.0 <= s.pHat <= 1.0 &&
    (s.t == 0 ==> s.pHat == 0.0) && (s.t > 0 ==> s.pHat == s.sp as real / s.t as real) &&
    s.paraR > 0.0 && s.D > 0.0 && s.beta > 0.0 &&
    InBox(s.v1, dim, R) && InBox(s.vAve, dim, R)
  }

  /** Lines 50-63: the starting state. */
  function Init(dim: nat, eta0: real, R: real, sqrt: real -> real): (s: State)
    requires R > 0.0 && IsSqrt(sqrt)
    ensures Valid(s, dim, R)
    ensures s.t == 0 && s.sp == 0 && s.sxPos == Zeros(dim) && s.sxNeg == Zeros(dim)
    ensures s.eta == eta0 && s.paraR == 2.0 * sqrt(3.0) * R
  {
    SqrtPositive(2.0, sqrt);
    SqrtPositive(3.0, sqrt);
    MulPositive(2.0 * sqrt(3.0), R);
    var paraR := 2.0 * sqrt(3.0) * R;
    MulPositive(2.0 * sqrt(2.0), paraR);
    ZerosInBox(dim, R);
    State(Zeros(dim + 2), 0.0, Zeros(dim + 2), 0.0, 0, 0, 0.0, Zeros(dim), Zeros(dim), Zeros(dim), Zeros(dim),
          paraR, 2.0 * sqrt(2.0) * paraR, 9.0, eta0, Zeros(dim + 2), Zeros(dim + 2))
  }

  lemma PrevalenceInUnit(sp: nat, t: nat)
    requires 0 < t && sp <= t
    ensures 0.0 <= sp as real / t as real <= 1.0
  {
    DivMonotone(sp as real, t as real, t as real);
  }

  /** Lines 87-88: a step of size eta down the primal gradient and up the dual one. */
  function Descend(v: seq<real>, alpha: real, g: Iterate, eta: real): (r: Iterate)
    requires |g.v| == |v|
    ensures |r.v| == |v|
  {
    Iterate(Sub(v, Scale(g.v, eta)), alpha + eta * g.alpha)
  }

  /** Lines 70-112: the gradient step from (v, alpha) on the example x
      followed by the projection chain. The result is within paraR of v1,
      its alpha within D of alpha1, and in the box when v1 is. */
  function Advance(x: seq<real>, positive: bool, p: real, v: seq<real>, alpha: real, eta: real,
                   v1: seq<real>, alpha1: real, dim: nat, R: real, paraR: real, D: real,
                   sqrt: real -> real): (r: Iterate)
    requires |x| == dim && |v| == dim + 2 && |v1| == dim + 2 && R > 0.0 && paraR >= 0.0 && D >= 0.0
    requires IsSqrt(sqrt)
    ensures |r.v| == dim + 2
    ensures NearCheckpoint(r, v1, alpha1, paraR, D)
    ensures InBox(v1, dim, R) ==> InBox(r.v, dim, R)
  {
    var moved := Descend(v, alpha, Gradient(x, v, alpha, p, positive), eta);
    ProjectIterateRegion(moved.v, moved.alpha, v1, alpha1, dim, R, paraR, D, sqrt);
    ProjectIterate(moved.v, moved.alpha, v1, alpha1, dim, R, paraR, D, sqrt)
  }

  /** Lines 71-74, 80-81 and 86: one more example is counted and the prevalence re-estimated. */
  function Observe(s: State, xt: seq<real>, yt: real, dim: nat): (r: State)
    requires |s.sxPos| == dim && |s.sxNeg| == dim && |xt| == dim && s.sp <= s.t
    ensures r == s.(sp := r.sp, t := s.t + 1, pHat := r.pHat, sxPos := r.sxPos, sxNeg := r.sxNeg)
    ensures r.sp == s.sp + (if yt == 1.0 then 1 else 0) && r.sp <= r.t
    ensures r.pHat == r.sp as real / r.t as real && 0.0 <= r.pHat <= 1.0
    ensures r.sxPos == (if yt == 1.0 then Add(s.sxPos, xt) else s.sxPos)
    ensures r.sxNeg == (if yt == 1.0 then s.sxNeg else Add(s.sxNeg, xt))
  {
    var sp := if yt == 1.0 then s.sp + 1 else s.sp;
    PrevalenceInUnit(sp, s.t + 1);
    s.(sp := sp, t := s.t + 1, pHat := sp as real / (s.t + 1) as real,
       sxPos := if yt == 1.0 then Add(s.sxPos, xt) else s.sxPos,
       sxNeg := if yt == 1.0 then s.sxNeg else Add(s.sxNeg, xt))
  }

  /** Lines 113-114: the running sum of the iterates stays in the scaled box and their average in the box. */
  lemma StepAverage(vSum: seq<real>, v: seq<real>, dim: nat, kk: nat, R: real)
    requires |vSum| == dim + 2 && |v| == dim + 2
    requires InBox(vSum, dim, Times(kk, R)) && InBox(v, dim, R)
    ensures InBox(Add(vSum, v), dim, Times(kk + 1, R))
    ensures InBox(DivBy(Add(vSum, v), (kk + 1) as real), dim, R)
  {
    BoxAdd(vSum, v, dim, Times(kk, R), R);
    BoxMean(Add(vSum, v), dim, kk + 1, R);
  }

  /** What a step needs to be defined: the shapes of the vectors it touches,
      no more positives than examples, and non-negative radii. */
  predicate Shaped(s: State, dim: nat) {
    |s.v| == dim + 2 && |s.v1| == dim + 2 && |s.vSum| == dim + 2 &&
    |s.sxPos| == dim && |s.sxNeg| == dim && s.sp <= s.t && s.paraR >= 0.0 && s.D >= 0.0
  }

  /** a and b agree on everything the steps of a stage leave alone: the
      checkpoint, the class means at the last stage end and the stage's
      radii and step size. */
  predicate StageFixed(a: State, b: State) {
    a.v1 == b.v1 && a.alpha1 == b.alpha1 && a.mPos == b.mPos && a.mNeg == b.mNeg &&
    a.paraR == b.paraR && a.D == b.D && a.beta == b.beta && a.eta == b.eta
  }

  /** Lines 68-114, one pass of the inner loop on the example (xt, yt), the
      kk-th of its stage: count it, take a projected gradient step from the
      current iterate, and fold the new iterate into the running sum and
      average. Nothing else changes. */
  function StepState(s: State, kk: nat, xt: seq<real>, yt: real, dim: nat, R: real, sqrt: real -> real): (r: State)
    requires Shaped(s, dim) && |xt| == dim && R > 0.0 && IsSqrt(sqrt)
    ensures Shaped(r, dim) && StageFixed(s, r)
    ensures r == s.(v := r.v, alpha := r.alpha, sp := r.sp, t := r.t, pHat := r.pHat,
                    sxPos := r.sxPos, sxNeg := r.sxNeg, vSum := r.vSum, vAve := r.vAve)
    ensures r.t == s.t + 1 && r.sp == s.sp + (if yt == 1.0 then 1 else 0)
    ensures r.sxPos == (if yt == 1.0 then Add(s.sxPos, xt) else s.sxPos)
    ensures r.sxNeg == (if yt == 1.0 then s.sxNeg else Add(s.sxNeg, xt))
    ensures Iterate(r.v, r.alpha) == Advance(xt, yt == 1.0, r.pHat, s.v, s.alpha, s.eta, s.v1, s.alpha1, dim, R, s.paraR, s.D, sqrt)
    ensures r.vSum == Add(s.vSum, r.v) && r.vAve == DivBy(r.vSum, (kk + 1) as real)
  {
    var o := Observe(s, xt, yt, dim);
    var next := Advance(xt, yt == 1.0, o.pHat, s.v, s.alpha, s.eta, s.v1, s.alpha1, dim, R, s.paraR, s.D, sqrt);
    var vSum := Add(s.vSum, next.v);
    o.(v := next.v, alpha := next.alpha, vSum := vSum, vAve := DivBy(vSum, (kk + 1) as real))
  }

  /** A step keeps the state valid: the new iterate lies in the box and near
      the checkpoint, the running sum of the kk + 1 iterates in the box
      scaled by kk + 1, and their average in the box. */
  lemma StepValid(s: State, kk: nat, xt: seq<real>, yt: real, dim: nat, R: real, sqrt: real -> real)
    requires Valid(s, dim, R) && |xt| == dim && R > 0.0 && IsSqrt(sqrt)
    requires InBox(s.vSum, dim, Times(kk, R))
    ensures var r := StepState(s, kk, xt, yt, dim, R, sqrt);
      Valid(r, dim, R) && InBox(r.v, dim, R) && NearCheckpoint(Iterate(r.v, r.alpha), s.v1, s.alpha1, s.paraR, s.D) &&
      InBox(r.vSum, dim, Times(kk, R) + R)
  {
    var r := StepState(s, kk, xt, yt, dim, R, sqrt);
    StepAverage(s.vSum, r.v, dim, kk, R);
    PrevalenceInUnit(r.sp, r.t);
  }

  /** The loop body of lines 68-114 as statements: it computes StepState. */
  method Step(s: State, kk: nat, xt: seq<real>, yt: real, dim: nat, R: real, sqrt: real -> real)
    returns (r: State)
    requires Shaped(s, dim) && |xt| == dim && R > 0.0 && IsSqrt(sqrt)
    ensures r == StepState(s, kk, xt, yt, dim, R, sqrt)
  {
    var o := Observe(s, xt, yt, dim);
    var next := Advance(xt, yt == 1.0, o.pHat, s.v, s.alpha, s.eta, s.v1, s.alpha1, dim, R, s.paraR, s.D, sqrt);
    var vSum := Add(s.vSum, next.v);
    r := o.(v := next.v, alpha := next.alpha, vSum := vSum, vAve := DivBy(vSum, (kk + 1) as real));
  }

  // ---------------------------------------------------------------------------
  // The examples visited: row ids[t] of x with label y[ids[t]].

  /** The training matrix has rows of length dim, one label per row, and ids
      indexes rows (line 68 reads x_tr[ids[t], :]). */
  predicate Data(x: seq<seq<real>>, y: seq<real>, ids: seq<nat>, dim: nat) {
    |y| == |x| && (forall i :: 0 <= i < |x| ==> |x[i]| == dim) &&
    (forall j :: 0 <= j < |ids| ==> ids[j] < |x|)
  }

  /** The counters and class sums of s are those of the first s.t examples of ids. */
  predicate Seen(s: State, x: seq<seq<real>>, y: seq<real>, ids: seq<nat>, dim: nat)
    requires Data(x, y, ids, dim)
  {
    s.t <= |ids| && s.sp == CountPositives(y, ids[..s.t]) &&
    s.sxPos == ClassSum(x, y, ids[..s.t], true, dim) && s.sxNeg == ClassSum(x, y, ids[..s.t], false, dim)
  }

  /** Visiting example t adds it to the count and to its class sum. */
  lemma SeenExtend(x: seq<seq<real>>, y: seq<real>, ids: seq<nat>, t: nat, dim: nat)
    requires Data(x, y, ids, dim) && t < |ids|
    ensures var i := ids[t];
      CountPositives(y, ids[..t + 1]) == CountPositives(y, ids[..t]) + (if y[i] == 1.0 then 1 else 0) &&
      ClassSum(x, y, ids[..t + 1], true, dim) ==
        (if y[i] == 1.0 then Add(ClassSum(x, y, ids[..t], true, dim), x[i]) else ClassSum(x, y, ids[..t], true, dim)) &&
      ClassSum(x, y, ids[..t + 1], false, dim) ==
        (if y[i] == 1.0 then ClassSum(x, y, ids[..t], false, dim) else Add(ClassSum(x, y, ids[..t], false, dim), x[i]))
  {
    assert ids[..t + 1][..t] == ids[..t];
  }

  /** What a stage starting from s needs: a valid state whose counters agree
      with the examples visited. */
  ghost predicate Ready(s: State, x: seq<seq<real>>, y: seq<real>, ids: seq<nat>, dim: nat, R: real, sqrt: real -> real) {
    Valid(s, dim, R) && R > 0.0 && IsSqrt(sqrt) && Data(x, y, ids, dim) && Seen(s, x, y, ids, dim)
  }

  /** The primal parts of a sequence of iterates. */
  function Primal(path: seq<Iterate>): (r: seq<seq<real>>)
    ensures |r| == |path| && forall j :: 0 <= j < |path| ==> r[j] == path[j].v
  {
    seq(|path|, j requires 0 <= j < |path| => path[j].v)
  }

  /** The state after the first kk steps of the stage that starts from s:
      the restart from the checkpoint (lines 65-66), then one step on each of
      the examples ids[s.t], ..., ids[s.t + kk - 1] in turn. Only the
      per-step fields change. */
  function StageRun(s: State, x: seq<seq<real>>, y: seq<real>, ids: seq<nat>, kk: nat, dim: nat, R: real,
                    sqrt: real -> real): (r: State)
    requires Shaped(s, dim) && Data(x, y, ids, dim) && R > 0.0 && IsSqrt(sqrt) && s.t + kk <= |ids|
    ensures Shaped(r, dim) && StageFixed(s, r) && r.t == s.t + kk
    decreases kk
  {
    if kk == 0 then
      s.(v := s.v1, alpha := s.alpha1, vSum := Zeros(dim + 2))
    else
      var cur := StageRun(s, x, y, ids, kk - 1, dim, R, sqrt);
      StepState(cur, kk - 1, x[ids[cur.t]], y[ids[cur.t]], dim, R, sqrt)
  }

  /** The iterates the first kk steps of the stage from s visit, in order. */
  function StagePath(s: State, x: seq<seq<real>>, y: seq<real>, ids: seq<nat>, kk: nat, dim: nat, R: real,
                     sqrt: real -> real): (path: seq<Iterate>)
    requires Shaped(s, dim) && Data(x, y, ids, dim) && R > 0.0 && IsSqrt(sqrt) && s.t + kk <= |ids|
    ensures |path| == kk
    decreases kk
  {
    if kk == 0 then []
    else
      var r := StageRun(s, x, y, ids, kk, dim, R, sqrt);
      StagePath(s, x, y, ids, kk - 1, dim, R, sqrt) + [Iterate(r.v, r.alpha)]
  }

  /** What holds of the iterates after kk steps of the stage from s, with
      cur the state reached and path the iterates visited: each iterate lies
      in the box and near the checkpoint, and the running sum and average
      are those of the iterates. */
  ghost predicate PathFacts(s: State, cur: State, path: seq<Iterate>, kk: nat, dim: nat, R: real)
    requires |s.v1| == dim + 2 && |cur.vSum| == dim + 2
  {
    |path| == kk &&
    (forall j :: 0 <= j < kk ==>
      |path[j].v| == dim + 2 && InBox(path[j].v, dim, R) && NearCheckpoint(path[j], s.v1, s.alpha1, s.paraR, s.D)) &&
    cur.vSum == VecSum(Primal(path), dim + 2) &&
    (kk > 0 ==> Iterate(cur.v, cur.alpha) == path[kk - 1] && cur.vAve == DivBy(cur.vSum, kk as real))
  }

  /** avg is the arithmetic mean of the primal parts of the non-empty
      sequence of iterates path, each of them in the box of radius R. */
  ghost predicate MeanOfBoxed(avg: seq<real>, path: seq<Iterate>, dim: nat, R: real) {
    |path| > 0 && (forall j :: 0 <= j < |path| ==> |path[j].v| == dim + 2 && InBox(path[j].v, dim, R)) &&
    avg == Mean(Primal(path), dim + 2)
  }

  /** The counters after a step on example ids[cur.t] are those of the first cur.t + 1 examples. */
  lemma SeenAfterStep(cur: State, next: State, x: seq<seq<real>>, y: seq<real>, ids: seq<nat>, dim: nat)
    requires Data(x, y, ids, dim) && Seen(cur, x, y, ids, dim) && cur.t < |ids|
    requires var i := ids[cur.t];
      next.t == cur.t + 1 && next.sp == cur.sp + (if y[i] == 1.0 then 1 else 0) &&
      next.sxPos == (if y[i] == 1.0 then Add(cur.sxPos, x[i]) else cur.sxPos) &&
      next.sxNeg == (if y[i] == 1.0 then cur.sxNeg else Add(cur.sxNeg, x[i]))
    ensures Seen(next, x, y, ids, dim)
  {
    SeenExtend(x, y, ids, cur.t, dim);
  }

  /** Appending an iterate in the region keeps every iterate in the region
      and adds it to the running sum. */
  lemma PathExtend(path: seq<Iterate>, it: Iterate, v1: seq<real>, alpha1: real, paraR: real, D: real,
                   dim: nat, R: real)
    requires |v1| == dim + 2 && |it.v| == dim + 2 && InBox(it.v, dim, R) && NearCheckpoint(it, v1, alpha1, paraR, D)
    requires forall j :: 0 <= j < |path| ==>
      |path[j].v| == dim + 2 && InBox(path[j].v, dim, R) && NearCheckpoint(path[j], v1, alpha1, paraR, D)
    ensures forall j :: 0 <= j < |path| + 1 ==>
      |(path + [it])[j].v| == dim + 2 && InBox((path + [it])[j].v, dim, R) &&
      NearCheckpoint((path + [it])[j], v1, alpha1, paraR, D)
    ensures VecSum(Primal(path + [it]), dim + 2) == Add(VecSum(Primal(path), dim + 2), it.v)
  {
    assert Primal(path + [it])[..|path|] == Primal(path);
  }

  /** A step from cur to next extends what holds of the iterates by the
      new one: the facts for the first k steps become those for k + 1. */
  lemma PathFactsExtend(s: State, cur: State, next: State, path: seq<Iterate>, k: nat, dim: nat, R: real)
    requires |s.v1| == dim + 2 && |cur.vSum| == dim + 2 && StageFixed(s, cur)
    requires PathFacts(s, cur, path, k, dim, R)
    requires |next.v| == dim + 2 && InBox(next.v, dim, R)
    requires NearCheckpoint(Iterate(next.v, next.alpha), cur.v1, cur.alpha1, cur.paraR, cur.D)
    requires next.vSum == Add(cur.vSum, next.v) && next.vAve == DivBy(next.vSum, (k + 1) as real)
    ensures PathFacts(s, next, path + [Iterate(next.v, next.alpha)], k + 1, dim, R)
  {
    PathExtend(path, Iterate(next.v, next.alpha), s.v1, s.alpha1, s.paraR, s.D, dim, R);
  }

  /** A step from a valid state cur on the example (xt, yt), the k-th of
      its stage, extends what holds of the iterates by the new one. */
  lemma PathStep(s: State, cur: State, path: seq<Iterate>, k: nat, xt: seq<real>, yt: real, dim: nat, R: real,
                 sqrt: real -> real)
    requires Valid(cur, dim, R) && |xt| == dim && R > 0.0 && IsSqrt(sqrt) && InBox(cur.vSum, dim, Times(k, R))
    requires |s.v1| == dim + 2 && StageFixed(s, cur) && PathFacts(s, cur, path, k, dim, R)
    ensures var next := StepState(cur, k, xt, yt, dim, R, sqrt);
      PathFacts(s, next, path + [Iterate(next.v, next.alpha)], k + 1, dim, R)
  {
    var next := StepState(cur, k, xt, yt, dim, R, sqrt);
    StepValid(cur, k, xt, yt, dim, R, sqrt);
    PathFactsExtend(s, cur, next, path, k, dim, R);
  }

  /** Lines 115-136, the end of a stage: halve the primal radius, retune D,
      beta and eta, refresh the class means of the classes seen so far, and
      move the checkpoint to the stage average. */
  function EndStage(s: State, n0: nat, dim: nat, R: real, sqrt: real -> real, log: real -> real): (r: State)
    requires Valid(s, dim, R) && R > 0.0 && IsSqrt(sqrt) && log(12.0 / Delta) >= 0.0
    ensures Valid(r, dim, R)
    ensures r == s.(paraR := r.paraR, D := r.D, beta := r.beta, eta := r.eta,
                    mPos := r.mPos, mNeg := r.mNeg, v1 := r.v1, alpha1 := r.alpha1)
    ensures r.paraR == s.paraR / 2.0
    ensures r.D == NextDualRadius(s.pHat, n0, R, r.paraR, sqrt, log)
    ensures r.beta == NextBeta(s.pHat, n0, sqrt, log) && r.eta == NextEta(s.eta, r.beta, s.beta, sqrt)
    ensures r.eta <= s.eta
    ensures r.mPos == ClassMean(s.sxPos, s.sp, s.mPos) && r.mNeg == ClassMean(s.sxNeg, s.t - s.sp, s.mNeg)
    ensures r.v1 == s.vAve && r.alpha1 == Dot(Sub(r.mNeg, r.mPos), s.vAve[..dim])
  {
    var paraR := s.paraR / 2.0;
    var beta := NextBeta(s.pHat, n0, sqrt, log);
    var mPos := ClassMean(s.sxPos, s.sp, s.mPos);
    var mNeg := ClassMean(s.sxNeg, s.t - s.sp, s.mNeg);
    s.(paraR := paraR, D := NextDualRadius(s.pHat, n0, R, paraR, sqrt, log),
       beta := beta, eta := NextEta(s.eta, beta, s.beta, sqrt),
       mPos := mPos, mNeg := mNeg, v1 := s.vAve, alpha1 := Dot(Sub(mNeg, mPos), s.vAve[..dim]))
  }
}
