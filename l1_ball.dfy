/** The sort-based Euclidean projection onto the L1 ball of radius b used by the
    FSAUC optimiser (`ProjectOntoL1Ball` in auc_fs.py). The magnitudes are
    sorted in descending order, the last index rho whose magnitude still
    exceeds the running threshold is found, and every entry is shrunk towards
    zero by theta = (S_rho - b) / (rho + 1), where S_j is the sum of the j + 1
    largest magnitudes. When no index qualifies, numpy's `[0][-1]` raises. */
module L1Ball {
  import opened Vectors
  import opened Wrappers

  /** Result of the projection: the projected vector, or the IndexError raised
      when the threshold index set is empty. */
  datatype Outcome = Projected(w: seq<real>) | NoThreshold

  function AbsAll(v: seq<real>): (r: seq<real>)
    ensures |r| == |v| && forall i :: 0 <= i < |v| ==> r[i] == Abs(v[i])
  {
    seq(|v|, i requires 0 <= i < |v| => Abs(v[i]))
  }

  predicate SortedDesc(u: seq<real>) {
    forall i, j :: 0 <= i < j < |u| ==> u[i] >= u[j]
  }

  function InsertDesc(x: real, u: seq<real>): (r: seq<real>)
    requires SortedDesc(u)
    ensures |r| == |u| + 1 && SortedDesc(r) && multiset(r) == multiset(u) + multiset{x}
    ensures r[0] == x || (|u| > 0 && r[0] == u[0])
  {
    if |u| == 0 || x >= u[0] then [x] + u
    else
      var rest := InsertDesc(x, u[1..]);
      assert u == [u[0]] + u[1..];
      assert u[0] >= rest[0];
      [u[0]] + rest
  }

  /** The magnitudes in the order `np.sort(nm)[::-1]` gives them. */
  function SortDesc(s: seq<real>): (r: seq<real>)
    ensures |r| == |s| && SortedDesc(r) && multiset(r) == multiset(s)
  {
    if |s| == 0 then []
    else
      assert s == s[..|s| - 1] + [s[|s| - 1]];
      InsertDesc(s[|s| - 1], SortDesc(s[..|s| - 1]))
  }

  /** Entry j of `u * arange(1, n + 1) > cumsum(u) - b`. */
  predicate Above(u: seq<real>, b: real, j: nat)
    requires j < |u|
  {
    Times(j + 1, u[j]) > Sum(u[..j + 1]) - b
  }

  /** The last index below n at which `Above` holds, as `nonzero(...)[0][-1]`
      picks it. */
  function LastAbove(u: seq<real>, b: real, n: nat): (r: Option<nat>)
    requires n <= |u|
    ensures r.Some? ==> r.value < n && Above(u, b, r.value) &&
                        forall j :: r.value < j < n ==> !Above(u, b, j)
    ensures r.None? ==> forall j :: 0 <= j < n ==> !Above(u, b, j)
  {
    if n == 0 then None
    else if Above(u, b, n - 1) then Some(n - 1)
    else LastAbove(u, b, n - 1)
  }

  /** `np.maximum(u - theta, 0)`. */
  function Excess(u: seq<real>, theta: real): (r: seq<real>)
    ensures |r| == |u| && forall i :: 0 <= i < |u| ==> r[i] == Max(u[i] - theta, 0.0)
  {
    seq(|u|, i requires 0 <= i < |u| => Max(u[i] - theta, 0.0))
  }

  /** `np.sign(v) * np.maximum(np.abs(v) - theta, 0)`. */
  function SoftThreshold(v: seq<real>, theta: real): (r: seq<real>)
    ensures |r| == |v| && forall i :: 0 <= i < |v| ==> r[i] == Sign(v[i]) * Max(Abs(v[i]) - theta, 0.0)
  {
    seq(|v|, i requires 0 <= i < |v| => Sign(v[i]) * Max(Abs(v[i]) - theta, 0.0))
  }

  function Theta(u: seq<real>, b: real, rho: nat): real
    requires rho < |u|
  {
    (Sum(u[..rho + 1]) - b) / (rho + 1) as real
  }

  function ProjectOntoL1Ball(v: seq<real>, b: real): (r: Outcome)
    ensures r.Projected? ==> |r.w| == |v|
  {
    if L1(v) < b then Projected(v)
    else
      var u := SortDesc(AbsAll(v));
      match LastAbove(u, b, |u|)
      case None => NoThreshold
      case Some(rho) => Projected(SoftThreshold(v, Theta(u, b, rho)))
  }

  // ---------------------------------------------------------------------------
  // Sums over permuted and split sequences.

  lemma {:induction false} SumConcat(a: seq<real>, b: seq<real>)
    ensures Sum(a + b) == Sum(a) + Sum(b)
  {
    if |b| > 0 {
      assert (a + b)[..|a + b| - 1] == a + b[..|b| - 1];
      SumConcat(a, b[..|b| - 1]);
    } else {
      assert a + b == a;
    }
  }

  /** The sum of a sequence depends only on its multiset of entries. */
  lemma {:induction false} SumPermutation(a: seq<real>, b: seq<real>)
    requires multiset(a) == multiset(b)
    ensures Sum(a) == Sum(b)
  {
    if |a| > 0 {
      var n := |a|;
      var i := MatchLast(a, b);
      var x, p, q := b[i], b[..i], b[i + 1..];
      SumPermutation(a[..n - 1], p + q);
      SumConcat(p, q);
      SumConcat(p + [x], q);
      SumConcat(p, [x]);
      assert Sum([x]) == x by { assert [x][..0] == []; }
    } else {
      assert |multiset(b)| == 0;
    }
  }

  lemma ExcessConcat(p: seq<real>, q: seq<real>, theta: real)
    ensures Excess(p + q, theta) == Excess(p, theta) + Excess(q, theta)
  {
  }

  lemma SumExcessConcat(p: seq<real>, q: seq<real>, theta: real)
    ensures Sum(Excess(p + q, theta)) == Sum(Excess(p, theta)) + Sum(Excess(q, theta))
  {
    ExcessConcat(p, q, theta);
    SumConcat(Excess(p, theta), Excess(q, theta));
  }

  /** The summed excesses depend only on the multiset of entries. */
  lemma {:induction false} SumExcessPermutation(a: seq<real>, b: seq<real>, theta: real)
    requires multiset(a) == multiset(b)
    ensures Sum(Excess(a, theta)) == Sum(Excess(b, theta))
  {
    if |a| > 0 {
      var n := |a|;
      var a' := a[..n - 1];
      var i := MatchLast(a, b);
      var x, p, q := b[i], b[..i], b[i + 1..];
      assert a == a' + [x];
      SumExcessPermutation(a', p + q, theta);
      SumExcessConcat(a', [x], theta);
      SumExcessConcat(p + [x], q, theta);
      SumExcessConcat(p, [x], theta);
      SumExcessConcat(p, q, theta);
    } else {
      assert |multiset(b)| == 0;
    }
  }

  /** The L1 norm is the sum of the magnitudes. */
  lemma {:induction false} L1IsSumOfAbs(a: seq<real>, c: seq<real>)
    requires |a| == |c| && forall i :: 0 <= i < |a| ==> c[i] == Abs(a[i])
    ensures L1(a) == Sum(c)
  {
    if |a| > 0 {
      L1IsSumOfAbs(a[..|a| - 1], c[..|c| - 1]);
    }
  }

  /** A descending sequence's prefix sums to at least its length times its
      last entry. */
  lemma {:induction false} SumAtLeastLast(u: seq<real>, k: nat)
    requires SortedDesc(u) && k < |u|
    ensures Sum(u[..k + 1]) >= Times(k + 1, u[k])
  {
    if k > 0 {
      assert u[..k + 1][..k] == u[..k];
      SumAtLeastLast(u, k - 1);
      assert Sum(u[..k + 1]) == Sum(u[..k]) + u[k];
      TimesMonotone(k, u[k], u[k - 1]);
    }
  }

  lemma {:induction false} SumNonNegative(u: seq<real>)
    requires forall i :: 0 <= i < |u| ==> u[i] >= 0.0
    ensures Sum(u) >= 0.0
  {
    if |u| > 0 { SumNonNegative(u[..|u| - 1]); }
  }

  // ---------------------------------------------------------------------------
  // The threshold.

  lemma FirstIsAbove(u: seq<real>, b: real)
    requires |u| > 0 && b > 0.0
    ensures Above(u, b, 0)
  {
    assert u[..1] == [u[0]] && [u[0]][..0] == [];
  }

  lemma NeverAbove(u: seq<real>, b: real)
    requires SortedDesc(u) && b <= 0.0
    ensures forall j :: 0 <= j < |u| ==> !Above(u, b, j)
  {
    forall j | 0 <= j < |u| ensures !Above(u, b, j) {
      SumAtLeastLast(u, j);
    }
  }

  /** The threshold index exists exactly when the radius is positive: index 0
      always qualifies for b > 0, and for b <= 0 no index can, since a running
      sum of a descending sequence is at least (j + 1) times its j-th entry. */
  lemma ProjectSucceedsIff(v: seq<real>, b: real)
    ensures ProjectOntoL1Ball(v, b).Projected? <==> b > 0.0
  {
    L1NonNegative(v);
    if L1(v) >= b {
      var u := SortDesc(AbsAll(v));
      if b > 0.0 {
        L1IsSumOfAbs(v, AbsAll(v));
        SumPermutation(AbsAll(v), u);
        assert |u| > 0;
        FirstIsAbove(u, b);
        assert LastAbove(u, b, |u|).Some?;
      } else {
        NeverAbove(u, b);
        assert LastAbove(u, b, |u|).None?;
      }
    }
  }

  /** Facts about rho and theta when the sort branch is taken with b > 0:
      theta is non-negative, the rho + 1 largest magnitudes exceed it and the
      rest do not. */
  lemma ThresholdSplits(u: seq<real>, b: real, rho: nat)
    requires SortedDesc(u) && (forall i :: 0 <= i < |u| ==> u[i] >= 0.0)
    requires b > 0.0 && Sum(u) >= b
    requires LastAbove(u, b, |u|) == Some(rho)
    ensures Times(rho + 1, Theta(u, b, rho)) == Sum(u[..rho + 1]) - b
    ensures Theta(u, b, rho) >= 0.0
    ensures forall i :: 0 <= i <= rho ==> u[i] > Theta(u, b, rho)
    ensures forall i :: rho < i < |u| ==> u[i] <= Theta(u, b, rho)
  {
    var theta := Theta(u, b, rho);
    var d := Sum(u[..rho + 1]) - b;
    ThetaTimesCount(u, b, rho);
    AboveExceedsMean(rho + 1, u[rho], d, theta);
    if rho + 1 < |u| {
      var j: nat := rho + 1;
      assert !Above(u, b, j);
      assert u[..j + 1][..j] == u[..j];
      assert Sum(u[..j + 1]) == d + b + u[j];
      NotAboveBelowMean(rho + 1, u[j], d, theta);
    } else {
      assert u[..rho + 1] == u;
      MeanOfNonNegative(rho + 1, d, theta);
    }
  }

  /** theta is the mean (S_rho - b) / (rho + 1): rho + 1 copies of it add up
      to S_rho - b. */
  lemma ThetaTimesCount(u: seq<real>, b: real, rho: nat)
    requires rho < |u|
    ensures Times(rho + 1, Theta(u, b, rho)) == Sum(u[..rho + 1]) - b
  {
    TimesIsProduct(rho + 1, Theta(u, b, rho));
    DivMul(Sum(u[..rho + 1]) - b, (rho + 1) as real);
  }

  // Scalar steps of the threshold argument, with k = rho + 1 and d = S_rho - b.

  lemma AboveExceedsMean(k: nat, x: real, d: real, theta: real)
    requires Times(k, theta) == d && Times(k, x) > d
    ensures x > theta
  {
    if x <= theta { TimesMonotone(k, x, theta); }
  }

  lemma NotAboveBelowMean(k: nat, x: real, d: real, theta: real)
    requires k >= 1 && Times(k, theta) == d && x >= 0.0
    requires Times(k + 1, x) <= d + x
    ensures x <= theta && theta >= 0.0
  {
    if x > theta { TimesStrict(k, theta, x); }
    if theta < 0.0 { TimesStrict(k, theta, 0.0); TimesMonotone(k, 0.0, x); TimesZero(k); }
  }

  lemma MeanOfNonPositive(k: nat, d: real, theta: real)
    requires k >= 1 && Times(k, theta) == d && d <= 0.0
    ensures theta <= 0.0
  {
    if theta > 0.0 { TimesStrict(k, 0.0, theta); TimesZero(k); }
  }

  lemma MeanOfNonNegative(k: nat, d: real, theta: real)
    requires k >= 1 && Times(k, theta) == d && d >= 0.0
    ensures theta >= 0.0
  {
    if theta < 0.0 { TimesStrict(k, theta, 0.0); TimesZero(k); }
  }

  /** Over a prefix whose entries all exceed theta, the excesses sum to the
      prefix sum less n times theta. */
  lemma {:induction false} SumExcessHead(u: seq<real>, theta: real, n: nat)
    requires n <= |u| && forall i :: 0 <= i < n ==> u[i] > theta
    ensures Sum(Excess(u[..n], theta)) == Sum(u[..n]) - Times(n, theta)
  {
    if n > 0 {
      SumExcessHead(u, theta, n - 1);
      var e := Excess(u[..n], theta);
      assert e[..n - 1] == Excess(u[..n - 1], theta);
      assert u[..n][..n - 1] == u[..n - 1];
    }
  }

  /** Entries at or below theta add nothing to the sum of the excesses. */
  lemma {:induction false} SumExcessTail(u: seq<real>, theta: real, k: nat, n: nat)
    requires k <= n <= |u| && forall i :: k <= i < n ==> u[i] <= theta
    ensures Sum(Excess(u[..n], theta)) == Sum(Excess(u[..k], theta))
  {
    if n > k {
      SumExcessTail(u, theta, k, n - 1);
      var e := Excess(u[..n], theta);
      assert e[..n - 1] == Excess(u[..n - 1], theta);
    }
  }

  /** The sort branch, unfolded: the threshold index and theta it picks and
      the facts about them. */
  lemma SortBranch(v: seq<real>, b: real) returns (u: seq<real>, rho: nat, theta: real)
    requires b > 0.0 && L1(v) >= b
    ensures u == SortDesc(AbsAll(v)) && Sum(u) == L1(v)
    ensures rho < |u| && LastAbove(u, b, |u|) == Some(rho) && theta == Theta(u, b, rho)
    ensures ProjectOntoL1Ball(v, b) == Projected(SoftThreshold(v, theta))
    ensures Times(rho + 1, theta) == Sum(u[..rho + 1]) - b && theta >= 0.0
    ensures forall i :: 0 <= i <= rho ==> u[i] > theta
    ensures forall i :: rho < i < |u| ==> u[i] <= theta
  {
    var a := AbsAll(v);
    u := SortDesc(a);
    L1IsSumOfAbs(v, a);
    SumPermutation(a, u);
    assert |u| > 0;
    FirstIsAbove(u, b);
    rho := LastAbove(u, b, |u|).value;
    theta := Theta(u, b, rho);
    SortedMagnitudes(v);
    ThresholdSplits(u, b, rho);
  }

  /** The sorted magnitudes are non-negative, being a permutation of magnitudes. */
  lemma SortedMagnitudes(v: seq<real>)
    ensures forall i :: 0 <= i < |v| ==> SortDesc(AbsAll(v))[i] >= 0.0
  {
    var a := AbsAll(v);
    var u := SortDesc(a);
    forall i | 0 <= i < |u| ensures u[i] >= 0.0 {
      assert u[i] in multiset(a);
      var j :| 0 <= j < |a| && a[j] == u[i];
    }
  }

  /** For theta >= 0 the soft threshold has the summed excesses as L1 norm,
      and every entry shrinks towards zero keeping its sign. */
  lemma SoftThresholdShrinks(v: seq<real>, theta: real)
    requires theta >= 0.0
    ensures L1(SoftThreshold(v, theta)) == Sum(Excess(AbsAll(v), theta))
    ensures forall i :: 0 <= i < |v| ==>
      Abs(SoftThreshold(v, theta)[i]) <= Abs(v[i]) &&
      (SoftThreshold(v, theta)[i] == 0.0 || Sign(SoftThreshold(v, theta)[i]) == Sign(v[i]))
  {
    var w := SoftThreshold(v, theta);
    var e := Excess(AbsAll(v), theta);
    forall i | 0 <= i < |v|
      ensures Abs(w[i]) == e[i] && Abs(w[i]) <= Abs(v[i]) && (w[i] == 0.0 || Sign(w[i]) == Sign(v[i]))
    {
      ShrunkEntry(v[i], theta);
    }
    L1IsSumOfAbs(w, e);
  }

  /** Outside the identity branch the projection lands on the sphere of
      radius b: the L1 norm of the result is exactly b. */
  lemma ProjectOntoSphere(v: seq<real>, b: real)
    requires b > 0.0 && L1(v) >= b
    ensures ProjectOntoL1Ball(v, b).Projected?
    ensures L1(ProjectOntoL1Ball(v, b).w) == b
  {
    var u, rho, theta := SortBranch(v, b);
    SoftThresholdShrinks(v, theta);
    SumExcessPermutation(AbsAll(v), u, theta);
    ExcessSumIsRadius(u, b, rho, theta);
  }

  /** With theta split between the rho + 1 largest magnitudes and the rest,
      the excesses over theta sum to exactly b. */
  lemma ExcessSumIsRadius(u: seq<real>, b: real, rho: nat, theta: real)
    requires rho < |u| && Times(rho + 1, theta) == Sum(u[..rho + 1]) - b
    requires forall i :: 0 <= i <= rho ==> u[i] > theta
    requires forall i :: rho < i < |u| ==> u[i] <= theta
    ensures Sum(Excess(u, theta)) == b
  {
    SumExcessHead(u, theta, rho + 1);
    SumExcessTail(u, theta, rho + 1, |u|);
    var x := Sum(Excess(u[..|u|], theta));
    var y := Sum(Excess(u[..rho + 1], theta));
    var z := Sum(u[..rho + 1]);
    assert x == y;
    assert y == z - Times(rho + 1, theta);
    assert x == b;
    assert u[..|u|] == u;
  }

  /** One entry of the soft threshold for theta >= 0: its magnitude is the
      excess of the input's magnitude, and it is zero or keeps the input's sign. */
  lemma ShrunkEntry(x: real, theta: real)
    requires theta >= 0.0
    ensures Abs(Sign(x) * Max(Abs(x) - theta, 0.0)) == Max(Abs(x) - theta, 0.0)
    ensures Abs(Sign(x) * Max(Abs(x) - theta, 0.0)) <= Abs(x)
    ensures Sign(x) * Max(Abs(x) - theta, 0.0) == 0.0 ||
            Sign(Sign(x) * Max(Abs(x) - theta, 0.0)) == Sign(x)
  {
  }

  /** Inside the ball (including its boundary) the input comes back unchanged. */
  lemma IdentityInside(v: seq<real>, b: real)
    requires b > 0.0 && L1(v) <= b
    ensures ProjectOntoL1Ball(v, b) == Projected(v)
  {
    if L1(v) == b {
      var u, rho, theta := SortBranch(v, b);
      SortedMagnitudes(v);
      MeanVanishesOnSphere(u, b, rho, theta);
      SoftThresholdZero(v);
    }
  }

  /** When the magnitudes already sum to b, theta is zero. */
  lemma MeanVanishesOnSphere(u: seq<real>, b: real, rho: nat, theta: real)
    requires rho < |u| && Sum(u) == b && forall i :: 0 <= i < |u| ==> u[i] >= 0.0
    requires Times(rho + 1, theta) == Sum(u[..rho + 1]) - b && theta >= 0.0
    ensures theta == 0.0
  {
    var head, tail := u[..rho + 1], u[rho + 1..];
    SumConcat(head, tail);
    assert u == head + tail;
    SumNonNegative(tail);
    MeanOfNonPositive(rho + 1, Sum(head) - b, theta);
  }

  /** Shrinking by zero changes nothing. */
  lemma SoftThresholdZero(v: seq<real>)
    ensures SoftThreshold(v, 0.0) == v
  {
    var w := SoftThreshold(v, 0.0);
    forall i | 0 <= i < |v| ensures w[i] == v[i] { }
  }

  /** Whenever it succeeds the projection shrinks every entry towards zero
      without changing its sign, and it never leaves the ball. */
  lemma ProjectShrinks(v: seq<real>, b: real)
    requires b > 0.0
    ensures ProjectOntoL1Ball(v, b).Projected?
    ensures var w := ProjectOntoL1Ball(v, b).w;
      L1(w) <= b &&
      forall i :: 0 <= i < |v| ==>
        Abs(w[i]) <= Abs(v[i]) && (w[i] == 0.0 || Sign(w[i]) == Sign(v[i]))
  {
    if L1(v) >= b {
      ProjectOntoSphere(v, b);
      var u, rho, theta := SortBranch(v, b);
      SoftThresholdShrinks(v, theta);
    }
  }
}
