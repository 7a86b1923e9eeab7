/** The two sparse BLAS-style kernels of the C optimisers: the inner product
    of a sparse row with a dense vector, and the scatter-add of a scaled sparse
    row into a dense vector. A sparse row is a list of positions and a list of
    values of the same length; a position may repeat. */
module SparseKernels {
  import opened Vectors

  /** Every listed position is a valid index of a dense vector of length n. */
  predicate Positions(indices: seq<int>, n: nat) {
    forall i :: 0 <= i < |indices| ==> 0 <= indices[i] < n
  }

  /** The dense vector of length n that a sparse row stands for: each listed
      value is added at its position, so repeated positions accumulate. */
  function Densify(indices: seq<int>, values: seq<real>, n: nat): (r: seq<real>)
    requires |indices| == |values| && Positions(indices, n)
    ensures |r| == n
  {
    if |indices| == 0 then Zeros(n)
    else
      var m := |indices| - 1;
      var d := Densify(indices[..m], values[..m], n);
      d[indices[m] := d[indices[m]] + values[m]]
  }

  /** The sum of the values listed at position j. */
  function ValuesAt(indices: seq<int>, values: seq<real>, j: int): real
    requires |indices| == |values|
  {
    if |indices| == 0 then 0.0
    else
      var m := |indices| - 1;
      ValuesAt(indices[..m], values[..m], j) + (if indices[m] == j then values[m] else 0.0)
  }

  /** The sum over the row of value times the dense entry at its position,
      accumulated from the left. */
  function SparseDotSum(indices: seq<int>, values: seq<real>, y: seq<real>): real
    requires |indices| == |values| && Positions(indices, |y|)
  {
    if |indices| == 0 then 0.0
    else
      var m := |indices| - 1;
      SparseDotSum(indices[..m], values[..m], y) + values[m] * y[indices[m]]
  }

  /** Entry j of the dense vector is the sum of the values listed at j; in
      particular a position that is not listed holds 0. */
  lemma {:induction false} DensifyEntry(indices: seq<int>, values: seq<real>, n: nat, j: nat)
    requires |indices| == |values| && Positions(indices, n) && j < n
    ensures Densify(indices, values, n)[j] == ValuesAt(indices, values, j)
    ensures (forall i :: 0 <= i < |indices| ==> indices[i] != j) ==> Densify(indices, values, n)[j] == 0.0
  {
    if |indices| > 0 {
      var m := |indices| - 1;
      DensifyEntry(indices[..m], values[..m], n, j);
      if forall i :: 0 <= i < |indices| ==> indices[i] != j {
        assert forall i :: 0 <= i < m ==> indices[..m][i] != j;
      }
    }
  }

  /** The sparse inner product is the dense inner product with the row the
      sparse data stands for. */
  lemma {:induction false} SparseDotIsDot(indices: seq<int>, values: seq<real>, y: seq<real>)
    requires |indices| == |values| && Positions(indices, |y|)
    ensures SparseDotSum(indices, values, y) == Dot(y, Densify(indices, values, |y|))
  {
    if |indices| > 0 {
      var m := |indices| - 1;
      SparseDotIsDot(indices[..m], values[..m], y);
      DotDensifyStep(indices, values, y, |y|, indices[..m], values[..m],
                     Densify(indices[..m], values[..m], |y|), indices[m], values[m]);
    } else {
      DotZeros(y);
    }
  }

  /** Adding the last listed value h at its position i to the dense row d of
      the others moves the dense inner product by y[i] h. */
  lemma DotDensifyStep(indices: seq<int>, values: seq<real>, y: seq<real>, n: nat,
                       front: seq<int>, frontValues: seq<real>, d: seq<real>, i: nat, h: real)
    requires |indices| == |values| && Positions(indices, n) && n == |y| && |indices| > 0
    requires front == indices[..|indices| - 1] && frontValues == values[..|indices| - 1]
    requires d == Densify(front, frontValues, n) && i == indices[|indices| - 1] && h == values[|indices| - 1]
    ensures Dot(y, Densify(indices, values, n)) == Dot(y, d) + y[i] * h
  {
    assert Densify(indices, values, n) == d[i := d[i] + h];
    DotUpdate(y, d, i, h);
  }

  /** `_sparse_dot`: the accumulator loop over the x_len listed entries. */
  method SparseDot(xIndices: seq<int>, xValues: seq<real>, xLen: nat, y: seq<real>) returns (result: real)
    requires xLen <= |xIndices| && xLen <= |xValues| && Positions(xIndices[..xLen], |y|)
    ensures result == SparseDotSum(xIndices[..xLen], xValues[..xLen], y)
  {
    result := 0.0;
    var i := 0;
    while i < xLen
      invariant 0 <= i <= xLen
      invariant result == SparseDotSum(xIndices[..i], xValues[..i], y)
    {
      assert xIndices[..i + 1][..i] == xIndices[..i];
      assert xValues[..i + 1][..i] == xValues[..i];
      result := result + xValues[i] * y[xIndices[i]];
      i := i + 1;
    }
  }

  /** `_sparse_cblas_daxpy`: y += alpha * x for the sparse row x, in place.
      Each entry of y grows by alpha times the sum of the values listed at its
      position, so repeated positions accumulate and unlisted ones keep their
      value (DensifyEntry). */
  method SparseDaxpy(xIndices: seq<int>, xValues: seq<real>, xLen: nat, alpha: real, y: array<real>)
    requires xLen <= |xIndices| && xLen <= |xValues| && Positions(xIndices[..xLen], y.Length)
    modifies y
    ensures forall j :: 0 <= j < y.Length ==>
      y[j] == old(y[j]) + alpha * Densify(xIndices[..xLen], xValues[..xLen], y.Length)[j]
  {
    var i := 0;
    while i < xLen
      invariant 0 <= i <= xLen
      invariant forall j :: 0 <= j < y.Length ==>
        y[j] == old(y[j]) + alpha * Densify(xIndices[..i], xValues[..i], y.Length)[j]
    {
      assert xIndices[..i + 1][..i] == xIndices[..i];
      assert xValues[..i + 1][..i] == xValues[..i];
      y[xIndices[i]] := y[xIndices[i]] + alpha * xValues[i];
      i := i + 1;
    }
  }
}
