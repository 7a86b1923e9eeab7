/** `algo_spam`, the entry point of the SPAM optimiser in the C extension, and
    its dense kernel `_algo_spam`. Both kernels are unfinished: the dense one
    walks the passes and samples with an empty loop body, the sparse one
    returns at once, and neither writes its results. */
module Spam {

  /** The two kernels the dispatcher can run. */
  datatype Kernel = DenseKernel | SparseKernel

  /** The dispatcher as written: a nonzero is_sparse runs the dense kernel
      `_algo_spam` on x_tr, and zero runs the sparse one on the sparse
      buffers. */
  function DispatchAsWritten(isSparse: int): (k: Kernel)
    ensures k.DenseKernel? <==> isSparse != 0
  {
    if isSparse != 0 then DenseKernel else SparseKernel
  }

  /** The dispatch the flag's name and the branch comments call for: sparse
      data goes to the sparse kernel, dense data to the dense one. */
  function Dispatch(isSparse: int): (k: Kernel)
    ensures k.SparseKernel? <==> isSparse != 0
  {
    if isSparse != 0 then SparseKernel else DenseKernel
  }

  /** The written dispatch sends every input to the other kernel: sparse
      data (is_sparse = 1) reaches the dense kernel. */
  lemma DispatchInverted(isSparse: int)
    ensures DispatchAsWritten(isSparse) != Dispatch(isSparse)
    ensures DispatchAsWritten(1) == DenseKernel && Dispatch(1) == SparseKernel
  {
  }

  /** The results record of the SPAM entry point. */
  class SpamResults {
    var wt: seq<real>
    var wtBar: seq<real>

    constructor (p: nat)
      ensures wt == seq(p, _ => 0.0) && wtBar == seq(p, _ => 0.0)
    {
      wt := seq(p, _ => 0.0);
      wtBar := seq(p, _ => 0.0);
    }
  }

  /** `_algo_spam`: for each of numPasses passes and each of the n samples it
      reads the label y_tr[j] and branches on its sign, with nothing in either
      branch; it returns true and leaves results as they were. */
  method DenseSpam(xTr: seq<real>, yTr: seq<real>, p: nat, n: nat, numPasses: int, results: SpamResults)
      returns (ok: bool)
    requires n <= |yTr|
    ensures ok
  {
    var i := 0;
    while i < numPasses
      decreases numPasses - i
    {
      var j := 0;
      while j < n
        invariant 0 <= j <= n
      {
        var curYt := yTr[j];
        if curYt > 0.0 {
        }
        j := j + 1;
      }
      i := i + 1;
    }
    ok := true;
  }

  /** `_algo_spam_sparse`: returns true at once. */
  method SparseSpam(results: SpamResults) returns (ok: bool)
    ensures ok
  {
    ok := true;
  }

  /** `algo_spam` with the dispatch corrected: it runs the kernel Dispatch
      names, reports success, and no kernel writes into results. */
  method AlgoSpam(isSparse: int, xTr: seq<real>, yTr: seq<real>, p: nat, n: nat, numPasses: int,
                  results: SpamResults) returns (ok: bool, ghost ran: Kernel)
    requires n <= |yTr|
    ensures ran == Dispatch(isSparse)
    ensures ran.SparseKernel? <==> isSparse != 0
    ensures ok
  {
    ran := Dispatch(isSparse);
    if isSparse != 0 {
      ok := SparseSpam(results);
    } else {
      ok := DenseSpam(xTr, yTr, p, n, numPasses, results);
    }
  }
}
