/** `_hard_thresholding(arr, n, k)`: keeps the k entries of arr[0..n) of
    largest magnitude and zeroes the rest, in place. The threshold tau is the
    k-th largest magnitude, found with `_floyd_rivest_select` on a copy of the
    magnitudes. Entries below tau are zeroed, entries above it kept, and of the
    entries whose magnitude equals tau only the first is kept. */
module HardThreshold {
  import opened Vectors
  import opened Select
  import opened L1Ball

  /** How many entries of s exceed tau. */
  function CountAbove(s: seq<real>, tau: real): (r: nat)
    ensures r <= |s|
  {
    if |s| == 0 then 0 else CountAbove(s[..|s| - 1], tau) + (if s[|s| - 1] > tau then 1 else 0)
  }

  /** How many entries of s are at least tau. */
  function CountAtLeast(s: seq<real>, tau: real): (r: nat)
    ensures r <= |s|
  {
    if |s| == 0 then 0 else CountAtLeast(s[..|s| - 1], tau) + (if s[|s| - 1] >= tau then 1 else 0)
  }

  /** How many entries of s are non-zero. */
  function CountNonzero(s: seq<real>): (r: nat)
    ensures r <= |s|
  {
    if |s| == 0 then 0 else CountNonzero(s[..|s| - 1]) + (if s[|s| - 1] != 0.0 then 1 else 0)
  }

  /** tau is the k-th largest entry of s: fewer than k entries lie above it and
      at least k lie at or above it. */
  ghost predicate IsKthLargest(s: seq<real>, k: nat, tau: real) {
    1 <= k <= |s| && CountAbove(s, tau) < k <= CountAtLeast(s, tau)
  }

  lemma {:induction false} CountConcat(a: seq<real>, b: seq<real>, tau: real)
    ensures CountAbove(a + b, tau) == CountAbove(a, tau) + CountAbove(b, tau)
    ensures CountAtLeast(a + b, tau) == CountAtLeast(a, tau) + CountAtLeast(b, tau)
    decreases |b|
  {
    if |b| > 0 {
      assert (a + b)[..|a + b| - 1] == a + b[..|b| - 1];
      CountConcat(a, b[..|b| - 1], tau);
    } else {
      assert a + b == a;
    }
  }

  /** Counts depend only on the multiset of entries. */
  lemma {:induction false} CountsOfPermutation(a: seq<real>, b: seq<real>, tau: real)
    requires multiset(a) == multiset(b)
    ensures CountAbove(a, tau) == CountAbove(b, tau) && CountAtLeast(a, tau) == CountAtLeast(b, tau)
  {
    if |a| > 0 {
      var n := |a|;
      var i := MatchLast(a, b);
      var x, p, q := b[i], b[..i], b[i + 1..];
      CountsOfPermutation(a[..n - 1], p + q, tau);
      CountConcat(p, q, tau);
      CountConcat(p + [x], q, tau);
      CountConcat(p, [x], tau);
      assert [x][..0] == [];
    } else {
      assert |multiset(b)| == 0;
    }
  }

  /** Every entry that reaches t2 exceeds any t1 below t2. */
  lemma {:induction false} CountAtLeastBelowAbove(s: seq<real>, t1: real, t2: real)
    requires t1 < t2
    ensures CountAtLeast(s, t2) <= CountAbove(s, t1)
  {
    if |s| > 0 {
      CountAtLeastBelowAbove(s[..|s| - 1], t1, t2);
    }
  }

  /** The k-th largest entry is unique. */
  lemma KthLargestUnique(s: seq<real>, k: nat, t1: real, t2: real)
    requires IsKthLargest(s, k, t1) && IsKthLargest(s, k, t2)
    ensures t1 == t2
  {
    if t1 < t2 {
      CountAtLeastBelowAbove(s, t1, t2);
    } else if t2 < t1 {
      CountAtLeastBelowAbove(s, t2, t1);
    }
  }

  /** Only entries before position m can exceed a bound that every later entry
      respects. */
  lemma {:induction false} CountAboveBefore(s: seq<real>, m: nat, tau: real)
    requires m <= |s| && forall p :: m <= p < |s| ==> s[p] <= tau
    ensures CountAbove(s, tau) <= m
  {
    if |s| > m {
      CountAboveBefore(s[..|s| - 1], m, tau);
    }
  }

  /** Entries up to position m that all reach tau are counted. */
  lemma {:induction false} CountAtLeastPrefix(s: seq<real>, m: nat, tau: real)
    requires m <= |s| && forall p :: 0 <= p < m ==> s[p] >= tau
    ensures CountAtLeast(s, tau) >= m
  {
    if |s| > m {
      CountAtLeastPrefix(s[..|s| - 1], m, tau);
    } else if m > 0 {
      CountAtLeastPrefix(s[..m - 1], m - 1, tau);
    }
  }

  /** A sequence partitioned at position k - 1 (larger entries first) has its
      k-th largest entry there. */
  lemma SelectedIsKth(t: seq<real>, k: nat)
    requires 1 <= k <= |t|
    requires forall p :: 0 <= p < k - 1 ==> t[p] >= t[k - 1]
    requires forall p :: k - 1 < p < |t| ==> t[p] <= t[k - 1]
    ensures IsKthLargest(t, k, t[k - 1])
  {
    CountAboveBefore(t, k - 1, t[k - 1]);
    CountAtLeastPrefix(t, k, t[k - 1]);
  }

  /** The k-th largest entry is entry k - 1 of the descending sort. */
  lemma KthIsSorted(s: seq<real>, k: nat, tau: real)
    requires 1 <= k <= |s|
    ensures IsKthLargest(s, k, tau) <==> tau == SortDesc(s)[k - 1]
  {
    var u := SortDesc(s);
    SelectedIsKth(u, k);
    CountsOfPermutation(s, u, u[k - 1]);
    if IsKthLargest(s, k, tau) {
      KthLargestUnique(s, k, tau, u[k - 1]);
    }
  }

  /** Some entry before position i has magnitude exactly tau (the `flag`). */
  function TieBefore(s: seq<real>, tau: real, i: nat): bool
    requires i <= |s|
  {
    i > 0 && (Abs(s[i - 1]) == tau || TieBefore(s, tau, i - 1))
  }

  lemma {:induction false} TieBeforeIff(s: seq<real>, tau: real, i: nat)
    requires i <= |s|
    ensures TieBefore(s, tau, i) <==> exists p :: 0 <= p < i && Abs(s[p]) == tau
  {
    if i > 0 {
      TieBeforeIff(s, tau, i - 1);
    }
  }

  /** The entries after thresholding at tau. */
  function Thresholded(s: seq<real>, tau: real): (r: seq<real>)
    ensures |r| == |s|
  {
    seq(|s|, i requires 0 <= i < |s| =>
      if Abs(s[i]) < tau || (Abs(s[i]) == tau && TieBefore(s, tau, i)) then 0.0 else s[i])
  }

  /** Entries above tau are kept, entries below it zeroed, and of the entries
      at tau exactly the first is kept. */
  lemma ThresholdedEntries(s: seq<real>, tau: real)
    ensures forall i :: 0 <= i < |s| && Abs(s[i]) > tau ==> Thresholded(s, tau)[i] == s[i]
    ensures forall i :: 0 <= i < |s| && Abs(s[i]) < tau ==> Thresholded(s, tau)[i] == 0.0
    ensures forall i, j :: 0 <= i < j < |s| && Abs(s[i]) == tau && Abs(s[j]) == tau ==> Thresholded(s, tau)[j] == 0.0
    ensures forall i :: 0 <= i < |s| && Abs(s[i]) == tau && (forall p :: 0 <= p < i ==> Abs(s[p]) != tau) ==>
      Thresholded(s, tau)[i] == s[i]
  {
    forall i | 0 <= i < |s|
      ensures TieBefore(s, tau, i) <==> exists p :: 0 <= p < i && Abs(s[p]) == tau
    {
      TieBeforeIff(s, tau, i);
    }
  }

  /** The non-zero entries left: all entries above tau, plus the first entry
      at tau when tau is positive. */
  lemma {:induction false} NonzerosLeft(s: seq<real>, tau: real, i: nat)
    requires 0.0 <= tau && i <= |s|
    ensures CountNonzero(Thresholded(s, tau)[..i])
      == CountAbove(AbsAll(s)[..i], tau) + (if tau > 0.0 && TieBefore(s, tau, i) then 1 else 0)
  {
    if i > 0 {
      NonzerosLeft(s, tau, i - 1);
      assert Thresholded(s, tau)[..i][..i - 1] == Thresholded(s, tau)[..i - 1];
      assert AbsAll(s)[..i][..i - 1] == AbsAll(s)[..i - 1];
    }
  }

  /** At most k entries stay non-zero, and fewer exactly when the threshold is
      0 or several entries tie with it. */
  lemma AtMostK(s: seq<real>, k: nat, tau: real)
    requires IsKthLargest(AbsAll(s), k, tau)
    ensures CountNonzero(Thresholded(s, tau)) <= k
    ensures CountNonzero(Thresholded(s, tau)) < k <==> tau == 0.0 || CountAbove(AbsAll(s), tau) < k - 1
  {
    var u := AbsAll(s);
    var n := |s|;
    assert CountAtLeast(u, tau) > CountAbove(u, tau);
    TiesExist(u, tau);
    var p :| 0 <= p < n && u[p] == tau;
    assert 0.0 <= tau;
    TieBeforeIff(s, tau, n);
    NonzerosLeft(s, tau, n);
    assert Thresholded(s, tau)[..n] == Thresholded(s, tau);
    assert u[..n] == u;
  }

  /** More entries at or above tau than above it means one equals it. */
  lemma {:induction false} TiesExist(s: seq<real>, tau: real)
    requires CountAtLeast(s, tau) > CountAbove(s, tau)
    ensures exists p :: 0 <= p < |s| && s[p] == tau
  {
    var m := |s| - 1;
    if s[m] != tau {
      TiesExist(s[..m], tau);
      var p :| 0 <= p < m && s[..m][p] == tau;
      assert s[p] == tau;
    }
  }

  /** Zeroing entries only shrinks the squared norm. */
  lemma {:induction false} ThresholdedNormSq(s: seq<real>, tau: real, i: nat)
    requires i <= |s|
    ensures NormSq(Thresholded(s, tau)[..i]) <= NormSq(s[..i])
  {
    if i > 0 {
      ThresholdedNormSq(s, tau, i - 1);
      assert Thresholded(s, tau)[..i][..i - 1] == Thresholded(s, tau)[..i - 1];
      assert s[..i][..i - 1] == s[..i - 1];
    }
  }

  /** The first loop: `temp_arr[i] = fabs(arr[i])` into a fresh buffer. */
  method Magnitudes(arr: array<real>, n: int) returns (temp: array<real>)
    requires 0 <= n <= arr.Length
    ensures fresh(temp) && temp[..] == AbsAll(arr[..n])
  {
    temp := new real[n];
    var i := 0;
    while i < n
      invariant 0 <= i <= n
      invariant forall p :: 0 <= p < i ==> temp[p] == Abs(arr[p])
    {
      temp[i] := Abs(arr[i]);
      i := i + 1;
    }
  }

  /** The second loop: zero what lies below the threshold and every tie after
      the first, which `flag` remembers. */
  method ApplyThreshold(arr: array<real>, n: int, kthLargest: real)
    requires 0 <= n <= arr.Length
    modifies arr
    ensures arr[..n] == Thresholded(old(arr[..n]), kthLargest)
    ensures arr[n..] == old(arr[n..])
  {
    ghost var s := arr[..n];
    var flag := false;
    var i := 0;
    while i < n
      invariant 0 <= i <= n
      invariant flag == TieBefore(s, kthLargest, i)
      invariant forall p :: 0 <= p < i ==> arr[p] == Thresholded(s, kthLargest)[p]
      invariant forall p :: i <= p < arr.Length ==> arr[p] == old(arr[p])
    {
      if Abs(arr[i]) < kthLargest {
        arr[i] := 0.0;
      } else if Abs(arr[i]) == kthLargest && !flag {
        flag := true;
      } else if Abs(arr[i]) == kthLargest && flag {
        arr[i] := 0.0;
      }
      i := i + 1;
    }
  }

  /** `_hard_thresholding(arr, n, k)`: returns 0, thresholds arr[0..n) at the
      k-th largest magnitude tau and leaves arr[n..] alone. */
  method HardThresholding(arr: array<real>, n: int, k: int, sample: (int, int, int) -> (int, int))
      returns (status: int, ghost tau: real)
    requires 1 <= k <= n <= arr.Length
    requires SampleInside(sample)
    modifies arr
    ensures status == 0
    ensures tau == SortDesc(AbsAll(old(arr[..n])))[k - 1]
    ensures arr[..n] == Thresholded(old(arr[..n]), tau)
    ensures arr[n..] == old(arr[n..])
  {
    var temp := Magnitudes(arr, n);
    FloydRivestSelect(temp, 0, n - 1, k - 1, sample);
    var kthLargest := temp[k - 1];
    tau := kthLargest;
    SelectedIsKth(temp[..], k);
    CountsOfPermutation(temp[..], AbsAll(arr[..n]), tau);
    KthIsSorted(AbsAll(arr[..n]), k, tau);
    ApplyThreshold(arr, n, kthLargest);
    status := 0;
  }
}
