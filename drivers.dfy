/** The four SOLAM entry points of the C extension: each lays its training
    rows out in its own buffer, runs the shared pass loop of `Solam.Train`
    with its variant, and copies the averaged iterate into `results`. */
module Drivers {
  import opened Vectors
  import opened Wrappers
  import opened SparseKernels
  import opened Solam
  import opened Select

  // ---------------------------------------------------------------------------
  // Dense rows: row r of x_train is the nDim entries from r * nDim.

  /** `x_train + rand_id[j] * n_dim`: the rows of the dense row-major
      buffer, nDim entries each. */
  function DenseRows(xTrain: seq<real>, nRows: nat, nDim: nat): (rows: seq<Row>)
    requires |xTrain| == nRows * nDim
    ensures |rows| == nRows && forall r :: 0 <= r < nRows ==> RowOk(rows[r], nDim)
  {
    if nRows == 0 then []
    else [Dense(xTrain[..nDim])] + DenseRows(xTrain[nDim..], nRows - 1, nDim)
  }

  /** Row r of the buffer is the nDim entries from r * nDim, which is where
      the C code points for row r. */
  lemma {:induction false} DenseRowAt(xTrain: seq<real>, nRows: nat, nDim: nat, r: nat)
    requires |xTrain| == nRows * nDim && r < nRows
    ensures r * nDim + nDim <= |xTrain|
    ensures DenseRows(xTrain, nRows, nDim)[r] == Dense(xTrain[r * nDim..r * nDim + nDim])
  {
    if r > 0 {
      DenseRowAt(xTrain[nDim..], nRows - 1, nDim, r - 1);
      assert (r - 1) * nDim + nDim == r * nDim;
      assert xTrain[nDim..][(r - 1) * nDim..(r - 1) * nDim + nDim] == xTrain[r * nDim..r * nDim + nDim];
    }
  }

  /** What the dense drivers ask of their arguments: one label per row of
      x_train, and num_tr entries of rand_id, each naming a row. */
  predicate DenseInput(xTrain: seq<real>, yTrain: seq<real>, randId: seq<int>, numTr: nat, nDim: nat) {
    |xTrain| == |yTrain| * nDim && numTr <= |randId| &&
    forall j :: 0 <= j < numTr ==> 0 <= randId[j] < |yTrain|
  }

  /** `algo_solam`, `algo_stoht_am` and `algo_da_solam_func`: nPass passes over
      rand_id[0 .. num_tr), one step per named row. The result is None
      exactly when no step runs (the C code then copies out a buffer it never
      wrote); otherwise it is the averaged iterate, in the feasible region,
      and the step-size-weighted mean of the iterates the steps started from. */
  method AlgoDense(xTrain: seq<real>, yTrain: seq<real>, randId: seq<int>, numTr: nat, nDim: nat, nPass: int,
                   variant: Variant, sr: real, sc: real, sqrt: real -> real, sample: (int, int, int) -> (int, int))
      returns (result: Option<Model>, ghost seen: seq<int>, ghost iterates: seq<seq<real>>, ghost steps: seq<real>)
    requires DenseInput(xTrain, yTrain, randId, numTr, nDim) && VariantOk(variant, nDim)
    requires sr > 0.0 && sc > 0.0 && IsSqrt(sqrt) && (variant.Solam? || SampleInside(sample))
    ensures seen == Repeat(randId[..numTr], if nPass < 1 then 0 else nPass)
    ensures Data(DenseRows(xTrain, |yTrain|, nDim), yTrain, seen, nDim)
    ensures result.None? <==> nPass < 1 || numTr == 0
    ensures result.Some? ==>
      result.value == Output(Run(Initial(nDim, sr, sqrt), DenseRows(xTrain, |yTrain|, nDim), yTrain, seen,
                                 variant, nDim, sr, sc, sqrt), nDim)
    ensures iterates == Iterates(Initial(nDim, sr, sqrt), DenseRows(xTrain, |yTrain|, nDim), yTrain, seen,
                                 variant, nDim, sr, sc, sqrt)
    ensures steps == StepSizes(sc, 0, |seen|, sqrt)
    ensures |iterates| == |steps| == |seen|
    ensures forall i :: 0 <= i < |iterates| ==> InRegion(iterates[i], nDim, sr) && |iterates[i]| == nDim + 2
    ensures forall i :: 0 <= i < |steps| ==> steps[i] > 0.0
    ensures result.Some? ==>
      |result.value.wt| == nDim && NormSq(result.value.wt) <= sr * sr &&
      result.value.a <= sr && result.value.b <= sr && Sum(steps) > 0.0 &&
      Scale(result.value.wt + [result.value.a, result.value.b], Sum(steps)) ==
        WeightedSum(iterates, steps, nDim + 2)
  {
    var rows := DenseRows(xTrain, |yTrain|, nDim);
    var order := randId[..numTr];
    ghost var last;
    result, seen, iterates, steps, last := Train(rows, yTrain, order, variant, nDim, nPass, sr, sc, sqrt, sample);
  }

  // ---------------------------------------------------------------------------
  // Packed sparse rows: row j starts at o = j * max_nonzero; slot o of the
  // index buffer holds the count s_len, and the row's positions and values
  // follow in slots o + 1 .. o + s_len of both buffers.

  function Start(j: nat, maxNonzero: nat): nat { j * maxNonzero }

  /** Row j of the packed buffers is readable and names positions below nDim. */
  predicate PackedRowOk(xIndices: seq<int>, xValues: seq<real>, j: nat, maxNonzero: nat, nDim: nat) {
    var o := Start(j, maxNonzero);
    o < |xIndices| && 0 <= xIndices[o] &&
    o + 1 + xIndices[o] <= |xIndices| && o + 1 + xIndices[o] <= |xValues| &&
    Positions(xIndices[o + 1..o + 1 + xIndices[o]], nDim)
  }

  /** `t_feat_indices + 1` and `t_feat_values + 1`, s_len entries each. */
  function PackedRow(xIndices: seq<int>, xValues: seq<real>, j: nat, maxNonzero: nat, nDim: nat): (row: Row)
    requires PackedRowOk(xIndices, xValues, j, maxNonzero, nDim)
    ensures RowOk(row, nDim) && row.Sparse?
    ensures |row.indices| == xIndices[Start(j, maxNonzero)]
  {
    var o := Start(j, maxNonzero);
    Sparse(xIndices[o + 1..o + 1 + xIndices[o]], xValues[o + 1..o + 1 + xIndices[o]])
  }

  function PackedRows(xIndices: seq<int>, xValues: seq<real>, numTr: nat, maxNonzero: nat, nDim: nat)
    : (rows: seq<Row>)
    requires forall j :: 0 <= j < numTr ==> PackedRowOk(xIndices, xValues, j, maxNonzero, nDim)
    ensures |rows| == numTr
    ensures forall j :: 0 <= j < numTr ==> rows[j] == PackedRow(xIndices, xValues, j, maxNonzero, nDim)
  {
    seq(numTr, j requires 0 <= j < numTr => PackedRow(xIndices, xValues, j, maxNonzero, nDim))
  }

  /** `algo_solam_sparse`: nPass passes over rows 0 .. num_tr - 1 in stored
      order (it does not read rand_id), the label of row j being y_train[j]. */
  method AlgoSolamSparse(xIndices: seq<int>, xValues: seq<real>, yTrain: seq<real>, numTr: nat, maxNonzero: nat,
                         nDim: nat, nPass: int, sr: real, sc: real, sqrt: real -> real)
      returns (result: Option<Model>, ghost seen: seq<int>, ghost iterates: seq<seq<real>>, ghost steps: seq<real>)
    requires forall j :: 0 <= j < numTr ==> PackedRowOk(xIndices, xValues, j, maxNonzero, nDim)
    requires numTr <= |yTrain| && sr > 0.0 && sc > 0.0 && IsSqrt(sqrt)
    ensures seen == Repeat(Range(numTr), if nPass < 1 then 0 else nPass)
    ensures Data(PackedRows(xIndices, xValues, numTr, maxNonzero, nDim), yTrain, seen, nDim)
    ensures result.None? <==> nPass < 1 || numTr == 0
    ensures result.Some? ==>
      result.value == Output(Run(Initial(nDim, sr, sqrt), PackedRows(xIndices, xValues, numTr, maxNonzero, nDim),
                                 yTrain, seen, Solam, nDim, sr, sc, sqrt), nDim)
    ensures iterates == Iterates(Initial(nDim, sr, sqrt), PackedRows(xIndices, xValues, numTr, maxNonzero, nDim),
                                 yTrain, seen, Solam, nDim, sr, sc, sqrt)
    ensures steps == StepSizes(sc, 0, |seen|, sqrt)
    ensures |iterates| == |steps| == |seen|
    ensures forall i :: 0 <= i < |iterates| ==> InRegion(iterates[i], nDim, sr) && |iterates[i]| == nDim + 2
    ensures forall i :: 0 <= i < |steps| ==> steps[i] > 0.0
    ensures result.Some? ==>
      |result.value.wt| == nDim && NormSq(result.value.wt) <= sr * sr &&
      result.value.a <= sr && result.value.b <= sr && Sum(steps) > 0.0 &&
      Scale(result.value.wt + [result.value.a, result.value.b], Sum(steps)) ==
        WeightedSum(iterates, steps, nDim + 2)
  {
    var rows := PackedRows(xIndices, xValues, numTr, maxNonzero, nDim);
    var order := Range(numTr);
    ghost var last;
    result, seen, iterates, steps, last :=
      Train(rows, yTrain, order, Solam, nDim, nPass, sr, sc, sqrt, (l: int, r: int, k: int) => (l, r));
  }
}
