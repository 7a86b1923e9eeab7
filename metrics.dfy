/** Support-recovery scores of the simulation experiments in `test_simu.py`:
    `node_pre_rec_fm`, and the inline thresholding and F1 computation of
    `test_solam`. */
module Metrics {
  import opened Wrappers

  /** `set(nodes)`: order and repeats are dropped. */
  function AsSet(nodes: seq<int>): (s: set<int>)
    ensures forall x :: x in s <==> x in nodes
  {
    set x | x in nodes
  }

  /** Precision, recall and F-measure. */
  datatype Scores = Scores(pre: real, rec: real, fm: real)

  /** `2 * pre * rec / (pre + rec)` when `pre + rec > 0`, and 0.0 otherwise. */
  function F1(pre: real, rec: real): real {
    if pre + rec > 0.0 then (2.0 * pre * rec) / (pre + rec) else 0.0
  }

  /** `len(a) / len(b)` guarded by `len(b) != 0`. */
  function Ratio(a: nat, b: nat): real {
    if b != 0 then (a as real) / (b as real) else 0.0
  }

  /** `node_pre_rec_fm`: precision |T ∩ P| / |P|, recall |T ∩ P| / |T|, each
      0.0 when its denominator set is empty, and their guarded F-measure. */
  function PreRecFm(trueNodes: seq<int>, predNodes: seq<int>): (s: Scores)
    ensures 0.0 <= s.pre <= 1.0 && 0.0 <= s.rec <= 1.0 && 0.0 <= s.fm <= 1.0
    ensures |AsSet(predNodes)| == 0 ==> s.pre == 0.0
    ensures |AsSet(trueNodes)| == 0 ==> s.rec == 0.0
    ensures s.fm > 0.0 <==> s.pre > 0.0 && s.rec > 0.0
  {
    var t, p := AsSet(trueNodes), AsSet(predNodes);
    SubsetCard(t * p, p);
    SubsetCard(t * p, t);
    RatioBounds(|t * p|, |p|);
    RatioBounds(|t * p|, |t|);
    var pre, rec := Ratio(|t * p|, |p|), Ratio(|t * p|, |t|);
    F1Bounds(pre, rec);
    Scores(pre, rec, F1(pre, rec))
  }

  /** Only the sets of nodes matter: inputs with the same members, in any
      order and with any repeats, score the same. */
  lemma PreRecFmOfSets(t1: seq<int>, p1: seq<int>, t2: seq<int>, p2: seq<int>)
    requires forall x :: x in t1 <==> x in t2
    requires forall x :: x in p1 <==> x in p2
    ensures PreRecFm(t1, p1) == PreRecFm(t2, p2)
  {
    assert forall x :: x in AsSet(t1) <==> x in AsSet(t2);
    assert forall x :: x in AsSet(p1) <==> x in AsSet(p2);
    assert AsSet(t1) == AsSet(t2);
    assert AsSet(p1) == AsSet(p2);
  }

  /** A subset has no more members than its superset. */
  lemma {:induction false} SubsetCard(a: set<int>, b: set<int>)
    requires a <= b
    ensures |a| <= |b|
  {
    assert b == a + (b - a);
    assert a * (b - a) == {};
  }

  lemma RatioBounds(a: nat, b: nat)
    requires a <= b
    ensures 0.0 <= Ratio(a, b) <= 1.0
    ensures Ratio(a, b) > 0.0 <==> a > 0
  {
    if b != 0 {
      assert (a as real) / (b as real) * (b as real) == a as real;
    }
  }

  /** For a precision and a recall in [0, 1], the F-measure is in [0, 1],
      positive exactly when both are, and lies between the two. */
  lemma F1Bounds(pre: real, rec: real)
    requires 0.0 <= pre <= 1.0 && 0.0 <= rec <= 1.0
    ensures 0.0 <= F1(pre, rec) <= 1.0
    ensures F1(pre, rec) > 0.0 <==> pre > 0.0 && rec > 0.0
    ensures pre + rec > 0.0 ==> Min(pre, rec) <= F1(pre, rec) <= Max(pre, rec)
  {
    if pre + rec > 0.0 {
      F1Unit(pre, rec);
      if pre > 0.0 && rec > 0.0 {
        F1Positive(pre, rec);
      }
      if pre <= rec {
        F1Between(pre, rec);
      } else {
        F1Between(rec, pre);
        assert 2.0 * rec * pre == 2.0 * pre * rec;
      }
    }
  }

  lemma F1Unit(pre: real, rec: real)
    requires 0.0 <= pre <= 1.0 && 0.0 <= rec <= 1.0 && pre + rec > 0.0
    ensures 0.0 <= F1(pre, rec) <= 1.0
  {
    var s, num := pre + rec, 2.0 * pre * rec;
    MulNonNeg(pre, 1.0 - rec);
    MulNonNeg(rec, 1.0 - pre);
    assert num <= 1.0 * s;
    DivLe(num, s, 1.0);
    MulNonNeg(pre, rec);
    DivGe(num, s, 0.0);
  }

  lemma F1Positive(pre: real, rec: real)
    requires pre > 0.0 && rec > 0.0
    ensures F1(pre, rec) > 0.0
  {
    MulPos(pre, rec);
    DivPos(2.0 * pre * rec, pre + rec);
  }

  /** The harmonic mean of two values lies between them. */
  lemma F1Between(lo: real, hi: real)
    requires 0.0 <= lo <= hi && lo + hi > 0.0
    ensures lo <= F1(lo, hi) <= hi
  {
    var s, num := lo + hi, 2.0 * lo * hi;
    MulNonNeg(lo, hi - lo);
    MulNonNeg(hi, hi - lo);
    assert lo * s <= num <= hi * s;
    DivGe(num, s, lo);
    DivLe(num, s, hi);
  }

  lemma MulNonNeg(x: real, y: real)
    requires x >= 0.0 && y >= 0.0
    ensures x * y >= 0.0
  {
  }

  lemma MulPos(x: real, y: real)
    requires x > 0.0 && y > 0.0
    ensures x * y > 0.0
  {
  }

  lemma DivLe(num: real, s: real, c: real)
    requires s > 0.0 && num <= c * s
    ensures num / s <= c
  {
    var q := num / s;
    assert q * s == num;
    if q > c {
      MulPos(q - c, s);
    }
  }

  lemma DivGe(num: real, s: real, c: real)
    requires s > 0.0 && c * s <= num
    ensures c <= num / s
  {
    var q := num / s;
    assert q * s == num;
    if q < c {
      MulPos(c - q, s);
    }
  }

  lemma DivPos(num: real, s: real)
    requires s > 0.0 && num > 0.0
    ensures num / s > 0.0
  {
    var q := num / s;
    assert q * s == num;
    if q <= 0.0 {
      MulNonNeg(-q, s);
    }
  }

  function Min(a: real, b: real): real { if a <= b then a else b }

  function Max(a: real, b: real): real { if a <= b then b else a }

  // ---------------------------------------------------------------------------
  // `test_solam`: score the support of a trained weight vector.

  /** `wt[np.where(np.abs(wt) < 1e-3)] = 0.0`: weights of magnitude below
      0.001 are zeroed, the others kept. */
  function Threshold(wt: seq<real>): (w: seq<real>)
    ensures |w| == |wt|
    ensures forall i :: 0 <= i < |wt| ==> w[i] == (if -0.001 < wt[i] < 0.001 then 0.0 else wt[i])
  {
    seq(|wt|, i requires 0 <= i < |wt| => if -0.001 < wt[i] < 0.001 then 0.0 else wt[i])
  }

  /** `np.nonzero(w)[0]`: the positions of the nonzero weights, ascending. */
  function Support(w: seq<real>): (idx: seq<int>)
    ensures forall x :: x in idx <==> 0 <= x < |w| && w[x] != 0.0
    ensures forall i, j :: 0 <= i < j < |idx| ==> idx[i] < idx[j]
  {
    if |w| == 0 then []
    else
      var front := Support(w[..|w| - 1]);
      assert forall i :: 0 <= i < |front| ==> front[i] in front;
      assert forall x :: x in front ==> x < |w| - 1;
      front + (if w[|w| - 1] != 0.0 then [|w| - 1] else [])
  }

  /** Division by zero, which Python raises. */
  datatype ArithError = ZeroDivisionError

  /** The scores `test_solam` records: precision over the support, guarded;
      recall over `len(subset)`, NOT guarded, so an empty true subset raises;
      the guarded F1. Recall divides by the length of the list, repeats
      included. */
  function SolamScores(wt: seq<real>, subset: seq<int>): (r: Result<Scores, ArithError>)
    ensures r.Failure? <==> |subset| == 0
    ensures r.Success? ==>
      var support := AsSet(Support(Threshold(wt)));
      (r.value.pre > 0.0 <==> support * AsSet(subset) != {}) &&
      (|support| == 0 ==> r.value.pre == 0.0) &&
      (forall i :: 0 <= i < |wt| && (wt[i] <= -0.001 || 0.001 <= wt[i]) ==> i in support)
  {
    var indices := Support(Threshold(wt));
    var xx := AsSet(indices) * AsSet(subset);
    var pre := Ratio(|xx|, |indices|);
    if |subset| == 0 then Failure(ZeroDivisionError)
    else
      var rec := (|xx| as real) / (|subset| as real);
      DistinctCard(indices);
      SubsetCard(xx, AsSet(indices));
      RatioBounds(|xx|, |indices|);
      Success(Scores(pre, rec, F1(pre, rec)))
  }

  /** The members of a sequence without repeats number its length. */
  lemma {:induction false} DistinctCard(s: seq<int>)
    requires forall i, j :: 0 <= i < j < |s| ==> s[i] != s[j]
    ensures |AsSet(s)| == |s|
  {
    if |s| > 0 {
      var front := s[..|s| - 1];
      DistinctCard(front);
      assert AsSet(s) == AsSet(front) + {s[|s| - 1]};
      assert s[|s| - 1] !in AsSet(front);
    }
  }

  /** When the true subset is non-empty and has no repeats, `test_solam`
      scores exactly as `node_pre_rec_fm` with the subset as the true nodes
      and the support as the predicted ones. */
  lemma SolamMatchesPreRecFm(wt: seq<real>, subset: seq<int>)
    requires |subset| > 0 && forall i, j :: 0 <= i < j < |subset| ==> subset[i] != subset[j]
    ensures SolamScores(wt, subset) == Success(PreRecFm(subset, Support(Threshold(wt))))
  {
    var indices := Support(Threshold(wt));
    DistinctCard(indices);
    DistinctCard(subset);
    assert AsSet(indices) * AsSet(subset) == AsSet(subset) * AsSet(indices);
  }

  /** With repeats in the true subset, `test_solam`'s recall is lower than
      the set-based one: subset [0, 0] with weight 1.0 at position 0 gives
      recall 1/2. */
  lemma SolamRecallCountsRepeats()
    ensures SolamScores([1.0], [0, 0]).Success?
    ensures SolamScores([1.0], [0, 0]).value.rec == 0.5
    ensures PreRecFm([0, 0], [0]).rec == 1.0
  {
    assert Threshold([1.0]) == [1.0];
    assert Support([1.0]) == [0];
    assert AsSet([0]) == {0};
    assert AsSet([0, 0]) == {0};
  }
}
