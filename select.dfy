/** `_floyd_rivest_select`: in-place selection by repeated partitioning, in
    the style of Floyd and Rivest's SELECT. The order is descending: afterwards
    the entry at k is the one a descending sort would put there, everything
    before it in the range is at least as large and everything after it at most
    as large. */
module Select {

  /** The sampling step for ranges longer than 600 picks a sub-range [ll, rr]
      from logarithms, exponentials and square roots. Only its shape matters
      here: it lies inside the current range, contains k and is shorter. */
  ghost predicate SampleInside(sample: (int, int, int) -> (int, int)) {
    forall lo, hi, k :: lo <= k <= hi && hi - lo > 600 ==>
      lo <= sample(lo, hi, k).0 <= k <= sample(lo, hi, k).1 <= hi &&
      sample(lo, hi, k).1 - sample(lo, hi, k).0 < hi - lo
  }

  /** s' is s with only the entries in [lo, hi] rearranged. */
  ghost predicate PermutesWithin(s: seq<real>, s': seq<real>, lo: int, hi: int) {
    |s'| == |s| && 0 <= lo <= hi + 1 <= |s| &&
    s'[..lo] == s[..lo] && s'[hi + 1..] == s[hi + 1..] && multiset(s') == multiset(s)
  }

  /** The `swap` of two entries. */
  method Swap(a: array<real>, i: int, j: int)
    requires 0 <= i < a.Length && 0 <= j < a.Length
    modifies a
    ensures a[..] == old(a[..])[i := old(a[j])][j := old(a[i])]
    ensures multiset(a[..]) == multiset(old(a[..]))
  {
    var t := a[i];
    a[i] := a[j];
    a[j] := t;
  }

  /** `do i++; while (array[i] > t)`: an entry at or before j that is not
      above t stops the scan, so no range check is needed. */
  method ScanForward(a: array<real>, i: int, j: int, t: real) returns (i': int)
    requires 0 <= i < j < a.Length && a[j] <= t
    ensures i < i' <= j && a[i'] <= t
    ensures forall p :: i < p < i' ==> a[p] > t
  {
    i' := i + 1;
    while a[i'] > t
      invariant i < i' <= j
      invariant forall p :: i < p < i' ==> a[p] > t
      decreases j - i'
    {
      i' := i' + 1;
    }
  }

  /** `do j--; while (array[j] < t)`: an entry at or after i that is not below
      t stops the scan. */
  method ScanBackward(a: array<real>, j: int, i: int, t: real) returns (j': int)
    requires 0 <= i < j < a.Length && a[i] >= t
    ensures i <= j' < j && a[j'] >= t
    ensures forall p :: j' < p < j ==> a[p] < t
  {
    j' := j - 1;
    while a[j'] < t
      invariant i <= j' < j
      invariant forall p :: j' < p < j ==> a[p] < t
      decreases j'
    {
      j' := j' - 1;
    }
  }

  /** The state of the partition loop: the pair at i and j is out of place
      (a[i] <= t <= a[j]), everything before i is at least t, everything after
      j at most t, and a copy of t sits at an end of the range where no later
      exchange can move it: at l once i has moved, at r once j has moved. */
  ghost predicate Crossing(s: seq<real>, l: int, r: int, i: int, j: int, t: real) {
    0 <= l <= i <= r < |s| && l <= j <= r &&
    s[i] <= t && s[j] >= t &&
    (forall p :: l <= p < i ==> s[p] >= t) &&
    (forall p :: j < p <= r ==> s[p] <= t) &&
    ((i == l && j == r && (s[l] == t || s[r] == t)) || (i > l && s[l] == t) || (j < r && s[r] == t))
  }

  /** One exchange and the two scans that follow keep the loop state. */
  lemma CrossingStep(s: seq<real>, s1: seq<real>, l: int, r: int, i: int, j: int, i': int, j': int, t: real)
    requires Crossing(s, l, r, i, j, t) && i < j
    requires s1 == s[i := s[j]][j := s[i]]
    requires i < i' <= j && s1[i'] <= t && forall p :: i < p < i' ==> s1[p] > t
    requires i <= j' < j && s1[j'] >= t && forall p :: j' < p < j ==> s1[p] < t
    ensures Crossing(s1, l, r, i', j', t)
  {
  }

  /** Once i and j have crossed, parking t at j (or just after it) finishes the
      partition. */
  lemma CrossingDone(s: seq<real>, s1: seq<real>, l: int, r: int, i: int, j: int, j1: int, t: real)
    requires Crossing(s, l, r, i, j, t) && i >= j && l < r
    requires if s[l] == t then j1 == j && s1 == s[l := s[j]][j := s[l]]
             else j1 == j + 1 && j1 <= r && s1 == s[j1 := s[r]][r := s[j1]]
    ensures l <= j1 <= r && s1[j1] == t
    ensures forall p :: l <= p < j1 ==> s1[p] >= t
    ensures forall p :: j1 < p <= r ==> s1[p] <= t
  {
  }

  /** An exchange inside [l, r] keeps a rearrangement of [l, r] one. */
  lemma SwapWithin(s0: seq<real>, s: seq<real>, s1: seq<real>, l: int, r: int, i: int, j: int)
    requires PermutesWithin(s0, s, l, r) && l <= i <= r && l <= j <= r
    requires s1 == s[i := s[j]][j := s[i]] && multiset(s1) == multiset(s)
    ensures PermutesWithin(s0, s1, l, r)
  {
    assert s1[..l] == s[..l];
    assert s1[r + 1..] == s[r + 1..];
  }

  /** The set-up before the partition loop: t = a[k] is moved to l, and to r
      instead when a[r] is below it. */
  method ParkPivot(a: array<real>, l: int, r: int, k: int) returns (t: real)
    requires 0 <= l <= k <= r < a.Length && l < r
    modifies a
    ensures t == old(a[k]) && Crossing(a[..], l, r, l, r, t)
    ensures PermutesWithin(old(a[..]), a[..], l, r)
  {
    t := a[k];
    ghost var s0 := a[..];
    assert PermutesWithin(s0, a[..], l, r);
    Swap(a, l, k);
    SwapWithin(s0, s0, a[..], l, r, l, k);
    if a[r] < t {
      ghost var s1 := a[..];
      Swap(a, r, l);
      SwapWithin(s0, s1, a[..], l, r, r, l);
    }
  }

  /** The partition loop: exchange the out-of-place pair, then scan. */
  method Cross(a: array<real>, l: int, r: int, t: real) returns (i: int, j: int)
    requires Crossing(a[..], l, r, l, r, t)
    modifies a
    ensures Crossing(a[..], l, r, i, j, t) && i >= j
    ensures PermutesWithin(old(a[..]), a[..], l, r)
  {
    i, j := l, r;
    ghost var s0 := a[..];
    while i < j
      invariant Crossing(a[..], l, r, i, j, t)
      invariant PermutesWithin(s0, a[..], l, r)
      decreases j - i
    {
      ghost var before := a[..];
      Swap(a, i, j);
      SwapWithin(s0, before, a[..], l, r, i, j);
      var i0, j0 := i, j;
      i := ScanForward(a, i, j, t);
      j := ScanBackward(a, j, i0, t);
      CrossingStep(before, a[..], l, r, i0, j0, i, j, t);
    }
  }

  /** After the loop: the copy of t at l goes to j, or the one at r to j + 1. */
  method PlacePivot(a: array<real>, l: int, r: int, i: int, j: int, t: real) returns (j1: int)
    requires Crossing(a[..], l, r, i, j, t) && i >= j && l < r
    modifies a
    ensures l <= j1 <= r && a[j1] == t
    ensures forall p :: l <= p < j1 ==> a[p] >= t
    ensures forall p :: j1 < p <= r ==> a[p] <= t
    ensures PermutesWithin(old(a[..]), a[..], l, r)
  {
    ghost var crossed := a[..];
    assert PermutesWithin(crossed, a[..], l, r);
    if a[l] == t {
      j1 := j;
      Swap(a, l, j);
      SwapWithin(crossed, crossed, a[..], l, r, l, j);
    } else {
      j1 := j + 1;
      Swap(a, j1, r);
      SwapWithin(crossed, crossed, a[..], l, r, j1, r);
    }
    CrossingDone(crossed, a[..], l, r, i, j, j1, t);
  }

  /** One partition of [l, r] about t = a[k]: t ends at position j, the
      entries before it in the range are at least t and the ones after it at
      most t. */
  method Partition(a: array<real>, l: int, r: int, k: int) returns (j: int)
    requires 0 <= l <= k <= r < a.Length && l < r
    modifies a
    ensures l <= j <= r && a[j] == old(a[k])
    ensures forall p :: l <= p < j ==> a[p] >= a[j]
    ensures forall p :: j < p <= r ==> a[p] <= a[j]
    ensures PermutesWithin(old(a[..]), a[..], l, r)
  {
    ghost var s0 := a[..];
    var t := ParkPivot(a, l, r, k);
    ghost var s1 := a[..];
    var i, j0 := Cross(a, l, r, t);
    PermutesWithinTrans(s0, s1, a[..], l, r);
    ghost var s2 := a[..];
    j := PlacePivot(a, l, r, i, j0, t);
    PermutesWithinTrans(s0, s2, a[..], l, r);
  }

  /** A rearrangement of [lo, hi] rearranges the entries of that slice. */
  lemma SliceMultiset(s: seq<real>, s': seq<real>, lo: int, hi: int)
    requires PermutesWithin(s, s', lo, hi)
    ensures multiset(s'[lo..hi + 1]) == multiset(s[lo..hi + 1])
  {
    assert s == s[..lo] + s[lo..hi + 1] + s[hi + 1..];
    assert s' == s'[..lo] + s'[lo..hi + 1] + s'[hi + 1..];
    calc {
      multiset(s'[lo..hi + 1]);
      multiset(s') - multiset(s'[..lo]) - multiset(s'[hi + 1..]);
      multiset(s) - multiset(s[..lo]) - multiset(s[hi + 1..]);
      multiset(s[lo..hi + 1]);
    }
  }

  /** A rearrangement of [lo, hi] keeps every bound that held for all its
      entries. */
  lemma BoundsKept(s: seq<real>, s': seq<real>, lo: int, hi: int, c: real)
    requires PermutesWithin(s, s', lo, hi)
    ensures (forall q :: lo <= q <= hi ==> s[q] <= c) ==> (forall q :: lo <= q <= hi ==> s'[q] <= c)
    ensures (forall q :: lo <= q <= hi ==> s[q] >= c) ==> (forall q :: lo <= q <= hi ==> s'[q] >= c)
  {
    SliceMultiset(s, s', lo, hi);
    forall q | lo <= q <= hi
      ensures exists q' :: lo <= q' <= hi && s[q'] == s'[q]
    {
      assert s'[q] == s'[lo..hi + 1][q - lo];
      assert s'[q] in multiset(s[lo..hi + 1]);
      var e :| 0 <= e < hi + 1 - lo && s[lo..hi + 1][e] == s'[q];
      assert s[lo + e] == s'[q];
    }
  }

  /** Rearrangements of the same range compose. */
  lemma PermutesWithinTrans(s: seq<real>, s1: seq<real>, s2: seq<real>, lo: int, hi: int)
    requires PermutesWithin(s, s1, lo, hi) && PermutesWithin(s1, s2, lo, hi)
    ensures PermutesWithin(s, s2, lo, hi)
  {
  }

  /** A rearrangement of a sub-range is one of any range around it. */
  lemma PermutesWithinWiden(s: seq<real>, s1: seq<real>, lo: int, hi: int, ll: int, rr: int)
    requires PermutesWithin(s, s1, ll, rr) && 0 <= lo <= ll && rr <= hi < |s|
    ensures PermutesWithin(s, s1, lo, hi)
  {
    assert s1[..lo] == s1[..ll][..lo];
    assert s[..lo] == s[..ll][..lo];
    assert s1[hi + 1..] == s1[rr + 1..][hi - rr..];
    assert s[hi + 1..] == s[rr + 1..][hi - rr..];
  }

  /** The state of the selection loop: [lo, hi] still holds position k, or k
      has been placed (lo == k + 1 and hi == k - 1); every entry left of lo is
      at least every entry from lo on, and every entry right of hi is at most
      every entry up to hi. */
  ghost predicate Narrowed(s: seq<real>, l: int, r: int, lo: int, hi: int, k: int) {
    0 <= l <= lo && hi <= r < |s| &&
    ((lo <= k <= hi) || (lo == k + 1 && hi == k - 1)) &&
    (forall p, q :: l <= p < lo <= q <= r ==> s[p] >= s[q]) &&
    (forall p, q :: l <= q <= hi < p <= r ==> s[p] <= s[q])
  }

  /** One round (optional sampling, then a partition of [lo, hi] ending at j)
      keeps the loop state with the narrowed range. */
  lemma NarrowStep(s: seq<real>, s2: seq<real>, l: int, r: int, lo: int, hi: int, k: int, j: int)
    requires Narrowed(s, l, r, lo, hi, k) && lo <= k <= hi
    requires PermutesWithin(s, s2, lo, hi) && lo <= j <= hi
    requires forall p :: lo <= p < j ==> s2[p] >= s2[j]
    requires forall p :: j < p <= hi ==> s2[p] <= s2[j]
    ensures Narrowed(s2, l, r, if j <= k then j + 1 else lo, if k <= j then j - 1 else hi, k)
  {
    var lo' := if j <= k then j + 1 else lo;
    var hi' := if k <= j then j - 1 else hi;
    forall p | l <= p < lo
      ensures forall q :: lo <= q <= hi ==> s2[q] <= s2[p]
    {
      assert s2[p] == s2[..lo][p];
      BoundsKept(s, s2, lo, hi, s[p]);
    }
    forall p | hi < p <= r
      ensures forall q :: lo <= q <= hi ==> s2[q] >= s2[p]
    {
      assert s2[p] == s2[hi + 1..][p - hi - 1];
      BoundsKept(s, s2, lo, hi, s[p]);
    }
    forall p, q | l <= p < lo <= q <= r
      ensures s2[p] >= s2[q]
    {
      assert s2[p] == s2[..lo][p];
      if q > hi {
        assert s2[q] == s2[hi + 1..][q - hi - 1];
      }
    }
    forall p, q | l <= q <= hi < p <= r
      ensures s2[p] <= s2[q]
    {
      assert s2[p] == s2[hi + 1..][p - hi - 1];
      if q < lo {
        assert s2[q] == s2[..lo][q];
      }
    }
    assert forall p, q :: l <= p < lo' <= q <= r ==> s2[p] >= s2[q];
    assert forall p, q :: l <= q <= hi' < p <= r ==> s2[p] <= s2[q];
  }

  /** When the range has shrunk to nothing, position k is selected. */
  lemma NarrowedDone(s: seq<real>, l: int, r: int, lo: int, hi: int, k: int)
    requires Narrowed(s, l, r, lo, hi, k) && hi <= lo && l <= k <= r
    ensures forall p :: l <= p < k ==> s[p] >= s[k]
    ensures forall p :: k < p <= r ==> s[p] <= s[k]
  {
  }

  /** `_floyd_rivest_select(array, l, r, k)`. */
  method FloydRivestSelect(a: array<real>, l: int, r: int, k: int, sample: (int, int, int) -> (int, int))
    requires 0 <= l <= k <= r < a.Length
    requires SampleInside(sample)
    modifies a
    ensures PermutesWithin(old(a[..]), a[..], l, r)
    ensures forall p :: l <= p < k ==> a[p] >= a[k]
    ensures forall p :: k < p <= r ==> a[p] <= a[k]
    decreases r - l
  {
    var lo, hi := l, r;
    while hi > lo
      invariant Narrowed(a[..], l, r, lo, hi, k)
      invariant PermutesWithin(old(a[..]), a[..], l, r)
      decreases hi - lo
    {
      ghost var s := a[..];
      if hi - lo > 600 {
        var bounds := sample(lo, hi, k);
        FloydRivestSelect(a, bounds.0, bounds.1, k, sample);
        PermutesWithinWiden(s, a[..], lo, hi, bounds.0, bounds.1);
      }
      ghost var s1 := a[..];
      var j := Partition(a, lo, hi, k);
      PermutesWithinTrans(s, s1, a[..], lo, hi);
      NarrowStep(s, a[..], l, r, lo, hi, k, j);
      PermutesWithinWiden(s, a[..], l, r, lo, hi);
      PermutesWithinTrans(old(a[..]), s, a[..], l, r);
      if j <= k {
        lo := j + 1;
      }
      if k <= j {
        hi := j - 1;
      }
    }
    NarrowedDone(a[..], l, r, lo, hi, k);
  }
}
