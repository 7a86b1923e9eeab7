/** Dense real vectors as sequences, with the reductions the optimisers use
    (sum, L1 norm, inner product, squared Euclidean norm) and the facts about
    them that the projections need. Floating point is modelled as `real`. */
module Vectors {

  function Abs(x: real): real { if x < 0.0 then -x else x }

  function Max(a: real, b: real): real { if a < b then b else a }

  function Min(a: real, b: real): real { if a < b then a else b }

  /** numpy's sign: 0 at 0. */
  function Sign(x: real): real { if x > 0.0 then 1.0 else if x < 0.0 then -1.0 else 0.0 }

  /** A square root, given only by what it must satisfy on the non-negative reals. */
  ghost predicate IsSqrt(sqrt: real -> real) {
    forall x :: 0.0 <= x ==> 0.0 <= sqrt(x) && sqrt(x) * sqrt(x) == x
  }

  // Reductions fold from the left, as a running accumulator does.

  function Sum(s: seq<real>): real {
    if |s| == 0 then 0.0 else Sum(s[..|s| - 1]) + s[|s| - 1]
  }

  function L1(s: seq<real>): real {
    if |s| == 0 then 0.0 else L1(s[..|s| - 1]) + Abs(s[|s| - 1])
  }

  function Dot(a: seq<real>, b: seq<real>): real
    requires |a| == |b|
  {
    if |a| == 0 then 0.0 else Dot(a[..|a| - 1], b[..|b| - 1]) + a[|a| - 1] * b[|b| - 1]
  }

  function NormSq(a: seq<real>): real {
    if |a| == 0 then 0.0 else NormSq(a[..|a| - 1]) + a[|a| - 1] * a[|a| - 1]
  }

  function Zeros(n: nat): (r: seq<real>)
    ensures |r| == n && forall i :: 0 <= i < n ==> r[i] == 0.0
  {
    seq(n, _ => 0.0)
  }

  function Add(a: seq<real>, b: seq<real>): (r: seq<real>)
    requires |a| == |b|
    ensures |r| == |a| && forall i :: 0 <= i < |a| ==> r[i] == a[i] + b[i]
  {
    seq(|a|, i requires 0 <= i < |a| => a[i] + b[i])
  }

  function Sub(a: seq<real>, b: seq<real>): (r: seq<real>)
    requires |a| == |b|
    ensures |r| == |a| && forall i :: 0 <= i < |a| ==> r[i] == a[i] - b[i]
  {
    seq(|a|, i requires 0 <= i < |a| => a[i] - b[i])
  }

  function Scale(a: seq<real>, k: real): (r: seq<real>)
    ensures |r| == |a| && forall i :: 0 <= i < |a| ==> r[i] == k * a[i]
  {
    seq(|a|, i requires 0 <= i < |a| => k * a[i])
  }

  lemma {:induction false} L1NonNegative(s: seq<real>)
    ensures L1(s) >= 0.0
  {
    if |s| > 0 { L1NonNegative(s[..|s| - 1]); }
  }

  lemma {:induction false} NormSqNonNegative(s: seq<real>)
    ensures NormSq(s) >= 0.0
  {
    if |s| > 0 { NormSqNonNegative(s[..|s| - 1]); }
  }

  lemma {:induction false} L1OfZeros(n: nat)
    ensures L1(Zeros(n)) == 0.0
  {
    if n > 0 {
      assert Zeros(n)[..n - 1] == Zeros(n - 1);
      L1OfZeros(n - 1);
    }
  }

  /** Scaling multiplies the squared norm by the square of the factor. */
  lemma NormSqScale(a: seq<real>, k: real)
    ensures NormSq(Scale(a, k)) == k * k * NormSq(a)
  {
    NormSqScaled(a, Scale(a, k), k, k * k);
  }

  lemma {:induction false} NormSqScaled(a: seq<real>, b: seq<real>, k: real, kk: real)
    requires |a| == |b| && kk == k * k && forall i :: 0 <= i < |a| ==> b[i] == k * a[i]
    ensures NormSq(b) == kk * NormSq(a)
  {
    if |a| > 0 {
      var n := |a|;
      ScaledPrefix(a, b, k, n - 1);
      NormSqScaled(a[..n - 1], b[..n - 1], k, kk);
      ScaledSquareStep(NormSq(b), NormSq(b[..n - 1]), b[n - 1], NormSq(a), NormSq(a[..n - 1]), a[n - 1], k, kk);
    } else {
      ZeroProduct(kk, NormSq(a));
    }
  }

  lemma ScaledPrefix(a: seq<real>, b: seq<real>, k: real, m: nat)
    requires |a| == |b| && m <= |a| && forall i :: 0 <= i < |a| ==> b[i] == k * a[i]
    ensures forall i :: 0 <= i < m ==> b[..m][i] == k * a[..m][i]
  {
  }

  lemma ZeroProduct(c: real, z: real)
    requires z == 0.0
    ensures c * z == 0.0
  {
  }

  lemma ScaledSquareStep(total: real, front: real, y: real, original: real, rest: real, x: real, k: real, kk: real)
    requires total == front + y * y && front == kk * rest && y == k * x && original == rest + x * x && kk == k * k
    ensures total == kk * original
  {
    assert y * y == kk * (x * x);
  }

  /** Triangle inequality for the L1 norm. */
  lemma {:induction false} L1Add(a: seq<real>, b: seq<real>)
    requires |a| == |b|
    ensures L1(Add(a, b)) <= L1(a) + L1(b)
  {
    if |a| > 0 {
      var n := |a|;
      AddPrefix(a, b, n - 1);
      L1Add(a[..n - 1], b[..n - 1]);
    }
  }

  /** The point a fraction s of the way from x to y. */
  function Mix(x: real, y: real, s: real): real { x + s * (y - x) }

  function Lerp(a: seq<real>, b: seq<real>, s: real): (r: seq<real>)
    requires |a| == |b|
    ensures |r| == |a| && forall i :: 0 <= i < |a| ==> r[i] == Mix(a[i], b[i], s)
  {
    seq(|a|, i requires 0 <= i < |a| => Mix(a[i], b[i], s))
  }

  /** Moving from a by s times (b - a) is the interpolation of a and b. */
  lemma LerpIsShift(a: seq<real>, b: seq<real>, s: real)
    requires |a| == |b|
    ensures Add(a, Scale(Sub(b, a), s)) == Lerp(a, b, s)
  {
    forall i | 0 <= i < |a| ensures Add(a, Scale(Sub(b, a), s))[i] == Lerp(a, b, s)[i] {
      assert Scale(Sub(b, a), s)[i] == s * (b[i] - a[i]);
    }
  }

  /** The L1 norm is convex: the point a fraction s in [0, 1] of the way from
      a to b has at most the same mix of the two norms. */
  lemma {:induction false} L1Lerp(a: seq<real>, b: seq<real>, s: real)
    requires |a| == |b| && 0.0 <= s <= 1.0
    ensures L1(Lerp(a, b, s)) <= Mix(L1(a), L1(b), s)
  {
    if |a| > 0 {
      var n := |a|;
      var c := Lerp(a, b, s);
      var a', b', c' := a[..n - 1], b[..n - 1], c[..n - 1];
      assert c' == Lerp(a', b', s);
      L1Lerp(a', b', s);
      AbsLerp(a[n - 1], b[n - 1], s);
      MixAdd(L1(a'), L1(b'), Abs(a[n - 1]), Abs(b[n - 1]), s);
    }
  }

  lemma AbsLerp(x: real, y: real, s: real)
    requires 0.0 <= s <= 1.0
    ensures Abs(Mix(x, y, s)) <= Mix(Abs(x), Abs(y), s)
  {
    assert x + s * (y - x) == (1.0 - s) * x + s * y;
    AbsScale(x, 1.0 - s);
    AbsScale(y, s);
  }

  lemma MixAdd(x1: real, y1: real, x2: real, y2: real, s: real)
    ensures Mix(x1, y1, s) + Mix(x2, y2, s) == Mix(x1 + x2, y1 + y2, s)
  {
  }

  /** A mix of two values below a bound stays below it. */
  lemma MixBounded(x: real, y: real, s: real, c: real)
    requires 0.0 <= s <= 1.0 && x <= c && y <= c
    ensures Mix(x, y, s) <= c
  {
    assert s * (c - y) >= 0.0;
    assert (1.0 - s) * (c - x) >= 0.0;
    assert c - Mix(x, y, s) == s * (c - y) + (1.0 - s) * (c - x);
  }

  lemma AbsScale(x: real, k: real)
    requires k >= 0.0
    ensures Abs(k * x) == k * Abs(x)
  {
    if x < 0.0 {
      assert k * x <= 0.0;
      assert -(k * x) == k * -x;
    } else {
      assert k * x >= 0.0;
    }
  }

  lemma {:induction false} NormSqSlices(a: seq<real>, k: nat)
    requires k <= |a|
    ensures NormSq(a[..k]) <= NormSq(a)
  {
    if k < |a| {
      assert a[..|a| - 1][..k] == a[..k];
      assert a[|a| - 1] * a[|a| - 1] >= 0.0;
      NormSqSlices(a[..|a| - 1], k);
    } else {
      assert a[..k] == a;
    }
  }

  // Element-wise operations commute with taking a prefix.

  lemma AddPrefix(a: seq<real>, b: seq<real>, k: nat)
    requires |a| == |b| && k <= |a|
    ensures Add(a, b)[..k] == Add(a[..k], b[..k])
  {
    forall i | 0 <= i < k ensures Add(a, b)[..k][i] == Add(a[..k], b[..k])[i] {
      assert Add(a, b)[i] == a[i] + b[i];
    }
  }

  lemma SubPrefix(a: seq<real>, b: seq<real>, k: nat)
    requires |a| == |b| && k <= |a|
    ensures Sub(a, b)[..k] == Sub(a[..k], b[..k])
  {
    forall i | 0 <= i < k ensures Sub(a, b)[..k][i] == Sub(a[..k], b[..k])[i] {
      assert Sub(a, b)[i] == a[i] - b[i];
    }
  }

  lemma ScalePrefix(a: seq<real>, c: real, k: nat)
    requires k <= |a|
    ensures Scale(a, c)[..k] == Scale(a[..k], c)
  {
    forall i | 0 <= i < k ensures Scale(a, c)[..k][i] == Scale(a[..k], c)[i] {
      assert Scale(a, c)[i] == c * a[i];
    }
  }

  /** k times x, as k repeated additions; kept apart from `*` so that the
      solver treats the count as a plain term. */
  function Times(k: nat, x: real): real {
    if k == 0 then 0.0 else Times(k - 1, x) + x
  }

  lemma {:induction false} TimesIsProduct(k: nat, x: real)
    ensures Times(k, x) == k as real * x
  {
    if k > 0 {
      TimesIsProduct(k - 1, x);
      assert k as real * x == (k - 1) as real * x + x;
    }
  }

  lemma {:induction false} TimesMonotone(k: nat, x: real, y: real)
    requires x <= y
    ensures Times(k, x) <= Times(k, y)
  {
    if k > 0 { TimesMonotone(k - 1, x, y); }
  }

  lemma {:induction false} TimesStrict(k: nat, x: real, y: real)
    requires k >= 1 && x < y
    ensures Times(k, x) < Times(k, y)
  {
    TimesMonotone(k - 1, x, y);
  }

  lemma {:induction false} TimesZero(k: nat)
    ensures Times(k, 0.0) == 0.0
  {
    if k > 0 { TimesZero(k - 1); }
  }

  lemma DivMul(x: real, k: real)
    requires k > 0.0
    ensures k * (x / k) == x
  {
  }

  /** Element-wise division by a scalar, as `v_sum / (kk + 1)` computes it. */
  function DivBy(a: seq<real>, c: real): (r: seq<real>)
    requires c != 0.0
    ensures |r| == |a| && forall i :: 0 <= i < |a| ==> r[i] == a[i] / c
  {
    seq(|a|, i requires 0 <= i < |a| => a[i] / c)
  }

  lemma DivByPrefix(a: seq<real>, c: real, k: nat)
    requires c != 0.0 && k <= |a|
    ensures DivBy(a, c)[..k] == DivBy(a[..k], c)
  {
    forall i | 0 <= i < k ensures DivBy(a, c)[..k][i] == DivBy(a[..k], c)[i] {
      assert DivBy(a, c)[i] == a[i] / c;
    }
  }

  lemma LerpPrefix(a: seq<real>, b: seq<real>, s: real, k: nat)
    requires |a| == |b| && k <= |a|
    ensures Lerp(a, b, s)[..k] == Lerp(a[..k], b[..k], s)
  {
    forall i | 0 <= i < k ensures Lerp(a, b, s)[..k][i] == Lerp(a[..k], b[..k], s)[i] {
      assert Lerp(a, b, s)[i] == Mix(a[i], b[i], s);
    }
  }

  lemma AbsDiv(x: real, c: real)
    requires c > 0.0
    ensures Abs(x / c) == Abs(x) / c
  {
    if x < 0.0 {
      assert x / c < 0.0;
      assert -(x / c) == (-x) / c;
    } else {
      assert x / c >= 0.0;
    }
  }

  lemma DivAdd(x: real, y: real, c: real)
    requires c > 0.0
    ensures x / c + y / c == (x + y) / c
  {
  }

  lemma DivMonotone(x: real, y: real, c: real)
    requires c > 0.0 && x <= y
    ensures x / c <= y / c
  {
    assert y / c - x / c == (y - x) / c;
  }

  /** Dividing by a positive count divides the L1 norm by it. */
  lemma {:induction false} L1DivBy(a: seq<real>, c: real)
    requires c > 0.0
    ensures L1(DivBy(a, c)) == L1(a) / c
  {
    if |a| > 0 {
      var n := |a|;
      var q, x, rest := DivBy(a, c), a[n - 1], L1(a[..n - 1]);
      DivByPrefix(a, c, n - 1);
      L1DivBy(a[..n - 1], c);
      AbsDiv(x, c);
      assert L1(q) == rest / c + Abs(x) / c;
      DivAdd(rest, Abs(x), c);
    }
  }

  /** k copies of x, divided by k, give x back. */
  lemma TimesDiv(k: nat, x: real)
    requires k >= 1
    ensures Times(k, x) / k as real == x
  {
    TimesIsProduct(k, x);
    var c := k as real;
    assert (c * x) / c == x;
  }

  lemma MulPositive(x: real, y: real)
    requires x > 0.0 && y > 0.0
    ensures x * y > 0.0
  {
  }

  /** When b permutes a, the last entry of a sits at some position i of b,
      and the rest of a permutes b without position i. */
  lemma MatchLast(a: seq<real>, b: seq<real>) returns (i: nat)
    requires multiset(a) == multiset(b) && |a| > 0
    ensures i < |b| && b[i] == a[|a| - 1]
    ensures b == b[..i] + [b[i]] + b[i + 1..]
    ensures multiset(a[..|a| - 1]) == multiset(b[..i] + b[i + 1..])
  {
    var n := |a|;
    var x := a[n - 1];
    assert a == a[..n - 1] + [x];
    assert x in multiset(b);
    i :| 0 <= i < |b| && b[i] == x;
    assert b == b[..i] + [x] + b[i + 1..];
    MultisetCancel(multiset(a[..n - 1]), multiset(b[..i] + b[i + 1..]), x);
  }

  lemma MultisetCancel(p: multiset<real>, q: multiset<real>, x: real)
    requires p + multiset{x} == q + multiset{x}
    ensures p == q
  {
    assert p == p + multiset{x} - multiset{x};
    assert q == q + multiset{x} - multiset{x};
  }

  /** The element-wise sum of a list of vectors of length n, accumulated from
      the left as `v_sum = v_sum + v` does. */
  function VecSum(vs: seq<seq<real>>, n: nat): (r: seq<real>)
    requires forall j :: 0 <= j < |vs| ==> |vs[j]| == n
    ensures |r| == n
  {
    if |vs| == 0 then Zeros(n) else Add(VecSum(vs[..|vs| - 1], n), vs[|vs| - 1])
  }

  /** The arithmetic mean of a non-empty list of vectors. */
  function Mean(vs: seq<seq<real>>, n: nat): (r: seq<real>)
    requires |vs| > 0 && forall j :: 0 <= j < |vs| ==> |vs[j]| == n
    ensures |r| == n
  {
    DivBy(VecSum(vs, n), |vs| as real)
  }

  /** The inner product with the zero vector is 0. */
  lemma {:induction false} DotZeros(a: seq<real>)
    ensures Dot(a, Zeros(|a|)) == 0.0
  {
    if |a| > 0 {
      DotZeros(a[..|a| - 1]);
      assert Zeros(|a|)[..|a| - 1] == Zeros(|a| - 1);
    }
  }

  /** Moving one coordinate of b by h moves the inner product with a by a[i] * h. */
  lemma {:induction false} DotUpdate(a: seq<real>, b: seq<real>, i: nat, h: real)
    requires |a| == |b| && i < |b|
    ensures Dot(a, b[i := b[i] + h]) == Dot(a, b) + a[i] * h
  {
    var n := |a| - 1;
    var b' := b[i := b[i] + h];
    if i == n {
      assert b'[..n] == b[..n];
    } else {
      assert b'[..n] == b[..n][i := b[i] + h];
      DotUpdate(a[..n], b[..n], i, h);
    }
  }

  /** The inner product does not depend on the order of its arguments. */
  lemma {:induction false} DotSymmetric(a: seq<real>, b: seq<real>)
    requires |a| == |b|
    ensures Dot(a, b) == Dot(b, a)
  {
    if |a| > 0 {
      DotSymmetric(a[..|a| - 1], b[..|b| - 1]);
    }
  }

  /** n copies of c have squared norm n c^2. */
  lemma {:induction false} NormSqConstant(n: nat, c: real)
    ensures NormSq(seq(n, _ => c)) == n as real * (c * c)
  {
    if n > 0 {
      NormSqConstant(n - 1, c);
      assert seq(n, _ => c)[..n - 1] == seq(n - 1, _ => c);
    }
  }

  /** (l x + m y)^2 <= l x^2 + m y^2 for weights l, m >= 0 with l + m = 1:
      the difference is l m (x - y)^2. */
  lemma MixSquare(x: real, y: real, z: real, l: real, m: real)
    requires l >= 0.0 && m >= 0.0 && l + m == 1.0 && z == l * x + m * y
    ensures z * z <= l * (x * x) + m * (y * y)
  {
    var d := x - y;
    assert l * (x * x) + m * (y * y) - (l * x + m * y) * (l * x + m * y) == l * m * (d * d) by {
      assert l - l * l == l * m;
      assert m - m * m == l * m;
    }
    assert l * m >= 0.0;
    assert d * d >= 0.0;
  }

  /** The squared norm is convex: a convex combination of a and b has squared
      norm at most the same combination of their squared norms. */
  lemma NormSqMix(a: seq<real>, b: seq<real>, l: real, m: real)
    requires |a| == |b| && l >= 0.0 && m >= 0.0 && l + m == 1.0
    ensures NormSq(Add(Scale(a, l), Scale(b, m))) <= l * NormSq(a) + m * NormSq(b)
  {
    MixEntries(a, b, l, m);
    NormSqBelowMix(a, b, Add(Scale(a, l), Scale(b, m)), l, m);
  }

  lemma MixEntries(a: seq<real>, b: seq<real>, l: real, m: real)
    requires |a| == |b| && l >= 0.0 && m >= 0.0 && l + m == 1.0
    ensures var c := Add(Scale(a, l), Scale(b, m));
      forall i :: 0 <= i < |c| ==> c[i] * c[i] <= l * (a[i] * a[i]) + m * (b[i] * b[i])
  {
    var c := Add(Scale(a, l), Scale(b, m));
    forall i | 0 <= i < |c|
      ensures c[i] * c[i] <= l * (a[i] * a[i]) + m * (b[i] * b[i])
    {
      MixSquare(a[i], b[i], c[i], l, m);
    }
  }

  /** Entry-wise bounds on the squares add up to the bound on the squared norms. */
  lemma {:induction false} NormSqBelowMix(a: seq<real>, b: seq<real>, c: seq<real>, l: real, m: real)
    requires |a| == |b| == |c|
    requires forall i :: 0 <= i < |c| ==> c[i] * c[i] <= l * (a[i] * a[i]) + m * (b[i] * b[i])
    ensures NormSq(c) <= l * NormSq(a) + m * NormSq(b)
  {
    if |a| > 0 {
      var n := |a| - 1;
      NormSqBelowMix(a[..n], b[..n], c[..n], l, m);
      MixStep(NormSq(a[..n]), NormSq(b[..n]), NormSq(c[..n]), a[n] * a[n], b[n] * b[n], c[n] * c[n], l, m,
              NormSq(a), NormSq(b), NormSq(c));
    }
  }

  lemma MixStep(na: real, nb: real, nc: real, xx: real, yy: real, zz: real, l: real, m: real,
                na': real, nb': real, nc': real)
    requires nc <= l * na + m * nb && zz <= l * xx + m * yy
    requires na' == na + xx && nb' == nb + yy && nc' == nc + zz
    ensures nc' <= l * na' + m * nb'
  {
    assert l * na' == l * na + l * xx;
    assert m * nb' == m * nb + m * yy;
  }

  /** 0, 1, ..., n - 1 in order. */
  function Range(n: nat): (r: seq<int>)
    ensures |r| == n && forall j :: 0 <= j < n ==> r[j] == j
  {
    seq(n, j => j)
  }
}
