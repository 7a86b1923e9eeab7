/** `get_idx`: the order in which the FSAUC optimiser visits its training
    examples, nPass shuffles of 0 .. nData - 1 laid end to end. The shuffles
    themselves (`np.random.permutation`) are an input. */
module GetIdx {
  import opened Vectors

  /** p holds 0 .. n - 1, each once, in some order. */
  predicate IsPermutation(p: seq<int>, n: nat) {
    multiset(p) == multiset(Range(n))
  }

  /** The blocks laid end to end. */
  function Concat(blocks: seq<seq<int>>): seq<int> {
    if |blocks| == 0 then [] else Concat(blocks[..|blocks| - 1]) + blocks[|blocks| - 1]
  }

  /** The preallocated array `idx` of nData * nPass zeros, whose i-th block of
      nData entries is overwritten with the i-th shuffle. */
  method GetIdx(nData: nat, nPass: nat, perms: seq<seq<int>>) returns (idx: array<int>)
    requires |perms| == nPass && forall i :: 0 <= i < nPass ==> IsPermutation(perms[i], nData)
    ensures fresh(idx) && idx.Length == nData * nPass
    ensures idx[..] == Concat(perms)
  {
    PermutationLengths(perms, nData);
    ConcatLength(perms, nData);
    idx := new int[nData * nPass](_ => 0);
    var i, o := 0, 0;
    while i < nPass
      invariant 0 <= i <= nPass && o == |Concat(perms[..i])| && o <= idx.Length
      invariant idx[..o] == Concat(perms[..i])
    {
      ConcatPrefix(perms, i + 1);
      assert perms[..i + 1][..i] == perms[..i];
      forall k | 0 <= k < nData {
        idx[o + k] := perms[i][k];
      }
      assert idx[..o + nData] == idx[..o] + perms[i];
      o, i := o + nData, i + 1;
    }
    assert perms[..nPass] == perms;
    assert idx[..] == idx[..o];
  }

  /** A shuffle of 0 .. n - 1 has n entries. */
  lemma PermutationLengths(perms: seq<seq<int>>, n: nat)
    requires forall i :: 0 <= i < |perms| ==> IsPermutation(perms[i], n)
    ensures forall i :: 0 <= i < |perms| ==> |perms[i]| == n
  {
    forall i | 0 <= i < |perms|
      ensures |perms[i]| == n
    {
      assert |multiset(perms[i])| == |multiset(Range(n))|;
    }
  }

  /** Blocks of n entries each make |blocks| * n entries: the length
      nData * nPass of `idx`. */
  lemma {:induction false} ConcatLength(blocks: seq<seq<int>>, n: nat)
    requires forall i :: 0 <= i < |blocks| ==> |blocks[i]| == n
    ensures |Concat(blocks)| == |blocks| * n
  {
    if |blocks| > 0 {
      ConcatLength(blocks[..|blocks| - 1], n);
    }
  }

  /** The first m blocks laid end to end are a prefix of all of them. */
  lemma {:induction false} ConcatPrefix(blocks: seq<seq<int>>, m: nat)
    requires m <= |blocks|
    ensures |Concat(blocks[..m])| <= |Concat(blocks)|
    ensures Concat(blocks)[..|Concat(blocks[..m])|] == Concat(blocks[..m])
  {
    if m < |blocks| {
      var front := blocks[..|blocks| - 1];
      ConcatPrefix(front, m);
      assert front[..m] == blocks[..m];
    } else {
      assert blocks[..m] == blocks;
    }
  }

  /** Block i of the result, entries i * n .. (i + 1) * n, is the i-th
      shuffle. */
  lemma {:induction false} ConcatBlock(blocks: seq<seq<int>>, n: nat, i: nat)
    requires forall j :: 0 <= j < |blocks| ==> |blocks[j]| == n
    requires i < |blocks|
    ensures (i + 1) * n <= |Concat(blocks)|
    ensures Concat(blocks)[i * n..(i + 1) * n] == blocks[i]
  {
    var front := blocks[..|blocks| - 1];
    ConcatLength(blocks, n);
    ConcatLength(front, n);
    if i < |blocks| - 1 {
      ConcatBlock(front, n, i);
      assert Concat(blocks) == Concat(front) + blocks[|blocks| - 1];
      assert (i + 1) * n <= |Concat(front)|;
    } else {
      assert i * n == |Concat(front)|;
    }
  }

  /** Every entry is an example index below nData. */
  lemma {:induction false} ConcatInRange(perms: seq<seq<int>>, n: nat)
    requires forall i :: 0 <= i < |perms| ==> IsPermutation(perms[i], n)
    ensures forall k :: 0 <= k < |Concat(perms)| ==> 0 <= Concat(perms)[k] < n
  {
    if |perms| > 0 {
      var last := perms[|perms| - 1];
      ConcatInRange(perms[..|perms| - 1], n);
      forall k | 0 <= k < |last|
        ensures 0 <= last[k] < n
      {
        assert last[k] in multiset(last);
        assert last[k] in multiset(Range(n));
        assert last[k] in Range(n);
      }
    }
  }

  /** Each example index occurs exactly nPass times, and nothing else occurs:
      the multiset of the result is nPass copies of 0 .. nData - 1. */
  lemma {:induction false} ConcatCounts(perms: seq<seq<int>>, n: nat, x: int)
    requires forall i :: 0 <= i < |perms| ==> IsPermutation(perms[i], n)
    ensures multiset(Concat(perms))[x] == (if 0 <= x < n then |perms| else 0)
  {
    if |perms| > 0 {
      ConcatCounts(perms[..|perms| - 1], n, x);
      RangeCount(n, x);
    }
  }

  /** 0 .. n - 1 holds x once when x is below n, and not at all otherwise. */
  lemma {:induction false} RangeCount(n: nat, x: int)
    ensures multiset(Range(n))[x] == (if 0 <= x < n then 1 else 0)
  {
    if n > 0 {
      RangeCount(n - 1, x);
      assert Range(n) == Range(n - 1) + [n - 1];
    }
  }
}
