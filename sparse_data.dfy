/** The sparse data handling of the experiment scripts `test_sparse.py` and
    `test_high_dim_data.py` (identical in both): `get_data_by_ind` gathers a
    subset of the rows of a sparse training set into fresh concatenated
    buffers, and `pred_auc` scores each gathered row against a weight vector
    before handing the scores to an AUC routine. */
module SparseData {
  import opened Vectors
  import opened SparseKernels

  /** A sparse data set as the scripts store it: the values and feature
      indices of all rows concatenated, and for each row its offset and its
      number of entries; one label per row. */
  datatype Data = Data(xVals: seq<real>, xInds: seq<int>, xPoss: seq<int>, xLens: seq<int>, y: seq<real>)

  /** Row r is described and lies inside the concatenated buffers. */
  predicate RowStored(d: Data, r: int) {
    0 <= r < |d.xLens| && r < |d.xPoss| && r < |d.y| && 0 <= d.xPoss[r] && 0 <= d.xLens[r] &&
    d.xPoss[r] + d.xLens[r] <= |d.xVals| && d.xPoss[r] + d.xLens[r] <= |d.xInds|
  }

  /** `tr_ind[sub_tr_ind]`: the rows picked, in the order of sub_tr_ind. */
  function Picked(trInd: seq<int>, sub: seq<int>): (rows: seq<int>)
    requires forall i :: 0 <= i < |sub| ==> 0 <= sub[i] < |trInd|
    ensures |rows| == |sub| && forall i :: 0 <= i < |sub| ==> rows[i] == trInd[sub[i]]
  {
    seq(|sub|, i requires 0 <= i < |sub| => trInd[sub[i]])
  }

  /** What `get_data_by_ind` returns: values, indices, offsets and lengths of
      the gathered rows, and their labels. */
  datatype Gathered = Gathered(vals: seq<real>, inds: seq<int>, posis: seq<int>, lens: seq<int>, y: seq<real>)

  /** The gather g with one more row appended: its values and indices at the
      end of the buffers, its offset the old end, its length n and label y. */
  function Append(g: Gathered, vs: seq<real>, ix: seq<int>, n: int, y: real): Gathered {
    Gathered(g.vals + vs, g.inds + ix, g.posis + [|g.vals|], g.lens + [n], g.y + [y])
  }

  /** The rows gathered one after another, each at the end of what the
      earlier ones filled. */
  function Gather(d: Data, rows: seq<int>): (g: Gathered)
    requires forall i :: 0 <= i < |rows| ==> RowStored(d, rows[i])
    ensures |g.posis| == |g.lens| == |g.y| == |rows| && |g.vals| == |g.inds|
  {
    if |rows| == 0 then Gathered([], [], [], [], [])
    else
      var g := Gather(d, rows[..|rows| - 1]);
      var r := rows[|rows| - 1];
      assert RowStored(d, r);
      var p, n := d.xPoss[r], d.xLens[r];
      Append(g, d.xVals[p..p + n], d.xInds[p..p + n], n, d.y[r])
  }

  function IntSum(s: seq<int>): int {
    if |s| == 0 then 0 else IntSum(s[..|s| - 1]) + s[|s| - 1]
  }

  /** Row i of the gather has the length and label of the row it was taken
      from. */
  lemma {:induction false} GatherRows(d: Data, rows: seq<int>)
    requires forall i :: 0 <= i < |rows| ==> RowStored(d, rows[i])
    ensures forall i :: 0 <= i < |rows| ==>
      Gather(d, rows).lens[i] == d.xLens[rows[i]] && Gather(d, rows).y[i] == d.y[rows[i]]
  {
    if |rows| > 0 {
      GatherRows(d, rows[..|rows| - 1]);
    }
  }

  /** The offsets are the exclusive prefix sums of the lengths, and both
      buffers hold exactly the sum of the lengths. */
  lemma {:induction false} GatherOffsets(d: Data, rows: seq<int>)
    requires forall i :: 0 <= i < |rows| ==> RowStored(d, rows[i])
    ensures var g := Gather(d, rows);
      |g.vals| == |g.inds| == IntSum(g.lens) &&
      forall i :: 0 <= i < |rows| ==> g.posis[i] == IntSum(g.lens[..i])
  {
    if |rows| > 0 {
      var front := rows[..|rows| - 1];
      GatherOffsets(d, front);
      var g, g0 := Gather(d, rows), Gather(d, front);
      assert g.lens[..|rows| - 1] == g0.lens;
      forall i | 0 <= i < |rows| - 1
        ensures g.lens[..i] == g0.lens[..i]
      {
      }
    }
  }

  /** The offsets start at 0 and each is the previous one plus the previous
      length. */
  lemma PrefixSumSteps(d: Data, rows: seq<int>)
    requires forall i :: 0 <= i < |rows| ==> RowStored(d, rows[i])
    ensures var g := Gather(d, rows);
      (|rows| > 0 ==> g.posis[0] == 0) &&
      forall i :: 0 <= i < |rows| - 1 ==> g.posis[i + 1] == g.posis[i] + g.lens[i]
  {
    var g := Gather(d, rows);
    GatherOffsets(d, rows);
    forall i | 0 <= i < |rows| - 1
      ensures g.posis[i + 1] == g.posis[i] + g.lens[i]
    {
      assert g.lens[..i + 1][..i] == g.lens[..i];
    }
  }

  /** Row i of g occupies |vs| entries of both buffers, holding vs and ix. */
  predicate SliceAt(g: Gathered, i: nat, vs: seq<real>, ix: seq<int>) {
    i < |g.posis| && i < |g.lens| && 0 <= g.posis[i] && g.lens[i] == |vs| &&
    g.posis[i] + g.lens[i] <= |g.vals| && g.posis[i] + g.lens[i] <= |g.inds| &&
    g.vals[g.posis[i]..g.posis[i] + g.lens[i]] == vs && g.inds[g.posis[i]..g.posis[i] + g.lens[i]] == ix
  }

  /** Appending a row leaves the rows already there in place. */
  lemma AppendKeeps(h: Gathered, g: Gathered, vs: seq<real>, ix: seq<int>, n: int, y: real, i: nat,
                    a: seq<real>, b: seq<int>)
    requires h == Append(g, vs, ix, n, y) && SliceAt(g, i, a, b)
    ensures SliceAt(h, i, a, b)
  {
    assert h.posis[i] == g.posis[i] && h.lens[i] == g.lens[i];
    SliceOfFront(g.vals, vs, g.posis[i], g.posis[i] + g.lens[i]);
    SliceOfFront(g.inds, ix, g.posis[i], g.posis[i] + g.lens[i]);
  }

  /** The appended row sits at the old end of both buffers. */
  lemma AppendNew(h: Gathered, g: Gathered, vs: seq<real>, ix: seq<int>, n: int, y: real)
    requires h == Append(g, vs, ix, n, y)
    requires |g.posis| == |g.lens| && |g.vals| == |g.inds| && n == |vs| == |ix|
    ensures SliceAt(h, |g.posis|, vs, ix)
  {
    SliceOfBack(g.vals, vs);
    SliceOfBack(g.inds, ix);
  }

  /** A gather is the gather of all rows but the last with the last row
      appended. */
  lemma GatherLast(d: Data, rows: seq<int>)
    requires forall j :: 0 <= j < |rows| ==> RowStored(d, rows[j])
    requires |rows| > 0
    ensures var r := rows[|rows| - 1];
      RowStored(d, r) &&
      Gather(d, rows) == Append(Gather(d, rows[..|rows| - 1]), d.xVals[d.xPoss[r]..d.xPoss[r] + d.xLens[r]],
                                d.xInds[d.xPoss[r]..d.xPoss[r] + d.xLens[r]], d.xLens[r], d.y[r])
  {
    assert RowStored(d, rows[|rows| - 1]);
  }

  /** The last gathered row holds the slices of the last row picked. */
  lemma GatherSlicesLast(d: Data, rows: seq<int>)
    requires forall j :: 0 <= j < |rows| ==> RowStored(d, rows[j])
    requires |rows| > 0
    ensures var r := rows[|rows| - 1];
      RowStored(d, r) &&
      SliceAt(Gather(d, rows), |rows| - 1, d.xVals[d.xPoss[r]..d.xPoss[r] + d.xLens[r]],
              d.xInds[d.xPoss[r]..d.xPoss[r] + d.xLens[r]])
  {
    GatherLast(d, rows);
    var r := rows[|rows| - 1];
    AppendNew(Gather(d, rows), Gather(d, rows[..|rows| - 1]), d.xVals[d.xPoss[r]..d.xPoss[r] + d.xLens[r]],
              d.xInds[d.xPoss[r]..d.xPoss[r] + d.xLens[r]], d.xLens[r], d.y[r]);
  }

  /** The slice of gathered row i is the slice of the row it was taken from,
      in both buffers. */
  lemma {:induction false} GatherSlices(d: Data, rows: seq<int>, i: nat)
    requires forall j :: 0 <= j < |rows| ==> RowStored(d, rows[j])
    requires i < |rows|
    ensures var r := rows[i];
      RowStored(d, r) &&
      SliceAt(Gather(d, rows), i, d.xVals[d.xPoss[r]..d.xPoss[r] + d.xLens[r]],
              d.xInds[d.xPoss[r]..d.xPoss[r] + d.xLens[r]])
  {
    if i < |rows| - 1 {
      var front := rows[..|rows| - 1];
      GatherLast(d, rows);
      var r := rows[|rows| - 1];
      assert front[i] == rows[i];
      GatherSlices(d, front, i);
      AppendKeeps(Gather(d, rows), Gather(d, front), d.xVals[d.xPoss[r]..d.xPoss[r] + d.xLens[r]],
                  d.xInds[d.xPoss[r]..d.xPoss[r] + d.xLens[r]], d.xLens[r], d.y[r], i,
                  d.xVals[d.xPoss[rows[i]]..d.xPoss[rows[i]] + d.xLens[rows[i]]],
                  d.xInds[d.xPoss[rows[i]]..d.xPoss[rows[i]] + d.xLens[rows[i]]]);
    } else {
      GatherSlicesLast(d, rows);
    }
  }

  lemma SliceOfFront<T>(a: seq<T>, b: seq<T>, lo: nat, hi: nat)
    requires lo <= hi <= |a|
    ensures (a + b)[lo..hi] == a[lo..hi]
  {
  }

  lemma SliceOfBack<T>(a: seq<T>, b: seq<T>)
    ensures (a + b)[|a|..|a| + |b|] == b
  {
  }

  /** `get_data_by_ind`: for each picked row, append its values and indices
      to the buffers, its length to the lengths and the running offset
      prev_posi to the offsets; then gather the labels. */
  method GetDataByInd(d: Data, trInd: seq<int>, sub: seq<int>) returns (g: Gathered)
    requires forall i :: 0 <= i < |sub| ==> 0 <= sub[i] < |trInd| && RowStored(d, trInd[sub[i]])
    ensures g == Gather(d, Picked(trInd, sub))
  {
    var rows := Picked(trInd, sub);
    var vals, inds, posis, lens := [], [], [], [];
    var prevPosi := 0;
    var i := 0;
    while i < |rows|
      invariant 0 <= i <= |rows|
      invariant var h := Gather(d, rows[..i]);
        vals == h.vals && inds == h.inds && posis == h.posis && lens == h.lens && prevPosi == |vals|
    {
      assert rows[..i + 1][..i] == rows[..i];
      var index := rows[i];
      var curLen, curPosi := d.xLens[index], d.xPoss[index];
      vals := vals + d.xVals[curPosi..curPosi + curLen];
      inds := inds + d.xInds[curPosi..curPosi + curLen];
      lens := lens + [curLen];
      posis := posis + [prevPosi];
      prevPosi := prevPosi + curLen;
      i := i + 1;
    }
    var y := seq(|rows|, k requires 0 <= k < |rows| => d.y[rows[k]]);
    assert rows[..|rows|] == rows;
    GatherRows(d, rows);
    g := Gathered(vals, inds, posis, lens, y);
  }

  // ---------------------------------------------------------------------------
  // Scoring.

  /** A double-precision weight: a finite number, or NaN or an infinity. */
  datatype Double = Finite(value: real) | NotFinite

  /** What `pred_auc` does with a weight vector: returns 0.0 when it is not a
      valid score function, or hands the labels and the scores of the rows to
      the AUC routine. */
  datatype Prediction = Invalid | Scored(yTrue: seq<real>, scores: seq<real>)

  function Values(wt: seq<Double>): (w: seq<real>)
    requires forall i :: 0 <= i < |wt| ==> wt[i].Finite?
    ensures |w| == |wt|
  {
    seq(|wt|, i requires 0 <= i < |wt| => wt[i].value)
  }

  /** Every row picked is stored, and its listed features are positions of
      a weight vector of length n. */
  predicate FeaturesBelow(d: Data, rows: seq<int>, n: nat) {
    forall i :: 0 <= i < |rows| ==> RowStored(d, rows[i]) && FeaturesWithin(d, rows[i], n)
  }

  /** The listed features of stored row r are positions below n. */
  predicate FeaturesWithin(d: Data, r: int, n: nat)
    requires RowStored(d, r)
  {
    Positions(d.xInds[d.xPoss[r]..d.xPoss[r] + d.xLens[r]], n)
  }

  /** The dense feature vector of stored row r. */
  function RowFeatures(d: Data, r: int, n: nat): (x: seq<real>)
    requires RowStored(d, r) && FeaturesWithin(d, r, n)
    ensures |x| == n
  {
    var p, len := d.xPoss[r], d.xLens[r];
    Densify(d.xInds[p..p + len], d.xVals[p..p + len], n)
  }

  /** The score of each row picked: the inner product of the weights with
      its dense features. */
  ghost function RowScores(d: Data, rows: seq<int>, w: seq<real>): (s: seq<real>)
    requires FeaturesBelow(d, rows, |w|)
    ensures |s| == |rows|
  {
    seq(|rows|, k requires 0 <= k < |rows| => Dot(w, RowFeatures(d, rows[k], |w|)))
  }

  /** Summing value times weight over the slices of row i gives its score. */
  lemma RowScore(d: Data, rows: seq<int>, w: seq<real>, i: nat, curX: seq<real>, curInd: seq<int>)
    requires FeaturesBelow(d, rows, |w|) && i < |rows| && RowStored(d, rows[i])
    requires curInd == d.xInds[d.xPoss[rows[i]]..d.xPoss[rows[i]] + d.xLens[rows[i]]]
    requires curX == d.xVals[d.xPoss[rows[i]]..d.xPoss[rows[i]] + d.xLens[rows[i]]]
    ensures |curInd| == |curX| && Positions(curInd, |w|)
    ensures SparseDotSum(curInd, curX, w) == RowScores(d, rows, w)[i]
  {
    assert FeaturesWithin(d, rows[i], |w|);
    SparseDotIsDot(curInd, curX, w);
  }

  /** Every gathered row lies inside both buffers and lists positions of a
      weight vector of length n. */
  predicate SlicesOk(g: Gathered, n: nat) {
    |g.posis| == |g.lens| &&
    forall i :: 0 <= i < |g.lens| ==> RowInside(g, i) && Positions(g.inds[g.posis[i]..g.posis[i] + g.lens[i]], n)
  }

  predicate RowInside(g: Gathered, i: nat) {
    i < |g.posis| && i < |g.lens| && 0 <= g.posis[i] && 0 <= g.lens[i] &&
    g.posis[i] + g.lens[i] <= |g.vals| && g.posis[i] + g.lens[i] <= |g.inds|
  }

  /** The sum, over the entries of gathered row i, of value times weight. */
  function RowSum(g: Gathered, w: seq<real>, i: nat): real
    requires SlicesOk(g, |w|) && i < |g.lens|
  {
    var lo, hi := g.posis[i], g.posis[i] + g.lens[i];
    SparseDotSum(g.inds[lo..hi], g.vals[lo..hi], w)
  }

  function GatheredScores(g: Gathered, w: seq<real>): (s: seq<real>)
    requires SlicesOk(g, |w|)
    ensures |s| == |g.lens|
  {
    seq(|g.lens|, i requires 0 <= i < |g.lens| => RowSum(g, w, i))
  }

  /** Row i of a gather holds the features of the row it was taken from. */
  lemma GatheredRow(d: Data, rows: seq<int>, w: seq<real>, i: nat)
    requires FeaturesBelow(d, rows, |w|) && i < |rows|
    ensures var g := Gather(d, rows);
      RowInside(g, i) && Positions(g.inds[g.posis[i]..g.posis[i] + g.lens[i]], |w|)
  {
    var g := Gather(d, rows);
    assert RowStored(d, rows[i]) && FeaturesWithin(d, rows[i], |w|);
    GatherSlices(d, rows, i);
  }

  /** Scored on the gathered buffers, each row gets the score of the row it
      was taken from. */
  lemma {:induction false} GatheredScoresMatch(d: Data, rows: seq<int>, w: seq<real>)
    requires FeaturesBelow(d, rows, |w|)
    ensures SlicesOk(Gather(d, rows), |w|)
    ensures GatheredScores(Gather(d, rows), w) == RowScores(d, rows, w)
  {
    var g := Gather(d, rows);
    forall i | 0 <= i < |g.lens|
      ensures RowInside(g, i) && Positions(g.inds[g.posis[i]..g.posis[i] + g.lens[i]], |w|)
    {
      GatheredRow(d, rows, w, i);
    }
    forall i | 0 <= i < |g.lens|
      ensures GatheredScores(g, w)[i] == RowScores(d, rows, w)[i]
    {
      assert RowStored(d, rows[i]);
      GatherSlices(d, rows, i);
      var lo, hi := g.posis[i], g.posis[i] + g.lens[i];
      RowScore(d, rows, w, i, g.vals[lo..hi], g.inds[lo..hi]);
    }
  }

  /** The scoring loop of `pred_auc` over the gathered buffers: y_pred_wt[i]
      is the sum, over the entries of gathered row i, of its value times the
      weight at its feature. */
  method ScoreRows(g: Gathered, w: seq<real>) returns (yPred: seq<real>)
    requires SlicesOk(g, |w|)
    ensures yPred == GatheredScores(g, w)
  {
    var scores := new real[|g.lens|](_ => 0.0);
    for i := 0 to |g.lens|
      invariant scores[..i] == GatheredScores(g, w)[..i]
    {
      var curPosi, curLen := g.posis[i], g.lens[i];
      var curX := g.vals[curPosi..curPosi + curLen];
      var curInd := g.inds[curPosi..curPosi + curLen];
      scores[i] := SparseDotSum(curInd, curX, w);
      assert scores[..i + 1] == scores[..i] + [GatheredScores(g, w)[i]];
    }
    yPred := scores[..];
    assert scores[..] == scores[..|g.lens|];
  }

  /** `pred_auc`: a weight vector holding a NaN or an infinity gives 0.0;
      otherwise the labels of the picked rows and their scores go to the AUC
      routine. */
  method PredAuc(d: Data, trIndex: seq<int>, sub: seq<int>, wt: seq<Double>) returns (pred: Prediction)
    requires forall i :: 0 <= i < |sub| ==> 0 <= sub[i] < |trIndex|
    requires FeaturesBelow(d, Picked(trIndex, sub), |wt|)
    ensures pred.Invalid? <==> exists i :: 0 <= i < |wt| && wt[i].NotFinite?
    ensures pred.Scored? ==>
      pred.scores == RowScores(d, Picked(trIndex, sub), Values(wt)) &&
      |pred.yTrue| == |sub| && forall i :: 0 <= i < |sub| ==> pred.yTrue[i] == d.y[trIndex[sub[i]]]
  {
    if exists i :: 0 <= i < |wt| && wt[i].NotFinite? {
      return Invalid;
    }
    var w := Values(wt);
    ghost var rows := Picked(trIndex, sub);
    assert forall i :: 0 <= i < |sub| ==> RowStored(d, trIndex[sub[i]]) by {
      forall i | 0 <= i < |sub| ensures RowStored(d, trIndex[sub[i]]) {
        assert rows[i] == trIndex[sub[i]];
      }
    }
    var g := GetDataByInd(d, trIndex, sub);
    GatherRows(d, rows);
    GatheredScoresMatch(d, rows, w);
    var yPred := ScoreRows(g, w);
    pred := Scored(g.y, yPred);
  }
}
