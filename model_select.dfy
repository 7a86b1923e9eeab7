/** Model selection in the experiment scripts: `get_model` in `test_sparse.py`
    and `get_model_para` in `test_high_dim_data.py` walk the recorded
    cross-validation results and keep the candidate whose mean AUC is the
    largest, as long as it is above 0.0. */
module ModelSelect {
  import opened Vectors
  import opened Wrappers

  /** `np.mean`: the mean of a non-empty array; the mean of an empty one is
      NaN, which no comparison accepts. */
  function Mean(s: seq<real>): (m: Option<real>)
    ensures m.None? <==> |s| == 0
    ensures m.Some? ==> m.value * (|s| as real) == Sum(s)
  {
    if |s| == 0 then None else Some(Sum(s) / (|s| as real))
  }

  /** `sm['aver_auc'] < mean_auc`: false whenever the mean is NaN. */
  predicate Improves(m: Option<real>, best: real) {
    m.Some? && best < m.value
  }

  /** One recorded candidate: its parameters (or the model itself) and the
      AUC of each validation fold. */
  datatype Record<V> = Record(value: V, aucArr: seq<real>)

  /** The running selection: which candidate is held, and the mean AUC it
      had (0.0 before any is held). */
  datatype Choice = Choice(index: Option<nat>, aver: real)

  /** The selection after visiting the records in order, each replacing the
      held one when its mean is strictly larger. */
  function Pick<V>(records: seq<Record<V>>): (c: Choice)
    ensures c.index.Some? ==> c.index.value < |records|
  {
    if |records| == 0 then Choice(None, 0.0)
    else
      var c := Pick(records[..|records| - 1]);
      var m := Mean(records[|records| - 1].aucArr);
      if Improves(m, c.aver) then Choice(Some(|records| - 1), m.value) else c
  }

  /** Record r's mean AUC exists and is above a. */
  predicate Above<V>(r: Record<V>, a: real) {
    Mean(r.aucArr).Some? && Mean(r.aucArr).value > a
  }

  /** Record r's mean AUC, when it exists, is at most a. */
  predicate AtMost<V>(r: Record<V>, a: real) {
    Mean(r.aucArr).None? || Mean(r.aucArr).value <= a
  }

  /** Record r's mean AUC, when it exists, is below a. */
  predicate Below<V>(r: Record<V>, a: real) {
    Mean(r.aucArr).None? || Mean(r.aucArr).value < a
  }

  /** The selection is the first record with the largest mean AUC, provided
      that mean is above 0.0; with no such record nothing is held and the
      mean stays 0.0. */
  lemma {:induction false} PickIsFirstMax<V>(records: seq<Record<V>>)
    ensures var c := Pick(records);
      c.aver >= 0.0 &&
      (c.index.None? <==> forall k :: 0 <= k < |records| ==> !Above(records[k], 0.0)) &&
      (c.index.None? ==> c.aver == 0.0) &&
      (forall k :: 0 <= k < |records| ==> AtMost(records[k], c.aver)) &&
      (c.index.Some? ==>
        Mean(records[c.index.value].aucArr) == Some(c.aver) && c.aver > 0.0 &&
        forall k :: 0 <= k < c.index.value ==> Below(records[k], c.aver))
  {
    if |records| > 0 {
      var front := records[..|records| - 1];
      PickIsFirstMax(front);
      assert forall k :: 0 <= k < |front| ==> front[k] == records[k];
    }
  }

  /** The selection loop shared by both scripts (`get_model_para` has two
      identical branches on the method name; they are one update here). */
  method SelectBest<V>(records: seq<Record<V>>) returns (best: Option<V>, averAuc: real)
    ensures var c := Pick(records);
      averAuc == c.aver && (best.Some? <==> c.index.Some?) &&
      (best.Some? ==> best.value == records[c.index.value].value)
  {
    best, averAuc := None, 0.0;
    for i := 0 to |records|
      invariant var c := Pick(records[..i]);
        averAuc == c.aver && (best.Some? <==> c.index.Some?) &&
        (best.Some? ==> best.value == records[c.index.value].value)
    {
      assert records[..i + 1][..i] == records[..i];
      var meanAuc := Mean(records[i].aucArr);
      if Improves(meanAuc, averAuc) {
        best := Some(records[i].value);
        averAuc := meanAuc.value;
      }
    }
    assert records[..|records|] == records;
  }

  // ---------------------------------------------------------------------------
  // `get_model` as written in test_sparse.py.

  /** What `get_model` returns: the model held, if any, and its mean AUC. */
  datatype Selected<V> = Selected(model: Option<V>, averAuc: real)

  /** The lookup that fails: `ms[...][method]['auc_arr']` is absent. */
  datatype LookupError = KeyError | IndexError

  /** `get_model` as written: it loops over the entries of one method's
      results in order, but computes the mean of the same `auc_arr` each
      time instead of the entry's own. So only the first entry can ever be
      selected, and only when that mean is above 0.0: later entries tie with
      it and ties do not replace. A missing `auc_arr` fails at the first
      iteration. */
  method GetModelAsWritten<V>(entries: seq<V>, aucArr: Option<seq<real>>) returns (r: Result<Selected<V>, LookupError>)
    ensures r.Failure? <==> |entries| > 0 && aucArr.None?
    ensures r.Success? && |entries| > 0 && Improves(Mean(aucArr.value), 0.0) ==>
      r.value == Selected(Some(entries[0]), Mean(aucArr.value).value)
    ensures r.Success? && !(|entries| > 0 && Improves(Mean(aucArr.value), 0.0)) ==> r.value == Selected(None, 0.0)
  {
    var model: Option<V> := None;
    var averAuc := 0.0;
    for i := 0 to |entries|
      invariant i > 0 ==> aucArr.Some?
      invariant i > 0 && Improves(Mean(aucArr.value), 0.0) ==>
        model == Some(entries[0]) && averAuc == Mean(aucArr.value).value
      invariant (i == 0 || !Improves(Mean(aucArr.value), 0.0)) ==> model.None? && averAuc == 0.0
    {
      if aucArr.None? {
        return Failure(KeyError);
      }
      var meanAuc := Mean(aucArr.value);
      if Improves(meanAuc, averAuc) {
        model := Some(entries[i]);
        averAuc := meanAuc.value;
      }
    }
    r := Success(Selected(model, averAuc));
  }

  /** With each entry scored by its own fold AUCs, a later entry with a
      larger mean is the one selected; `get_model` as written would return
      the first entry whatever the second one scored. */
  lemma SecondEntryCanWin()
    ensures Pick([Record(0, [0.5]), Record(1, [0.9])]).index == Some(1)
  {
    var records := [Record(0, [0.5]), Record(1, [0.9])];
    assert records[..1] == [Record(0, [0.5])];
    assert records[..1][..0] == [];
    assert Sum([0.5]) == 0.5 && Sum([0.9]) == 0.9;
  }

  // ---------------------------------------------------------------------------
  // `get_model_para` in test_high_dim_data.py.

  /** What `get_model_para` returns: two or three entries of the selected
      parameter tuple, or for an unlisted method the whole selection. */
  datatype Paras =
    | Pair(first: real, second: real)
    | Triple(first: real, second: real, third: real)
    | Whole(averAuc: real, para: Option<seq<real>>)

  /** spam_l1, spam_l2, solam and fsauc read tuple positions 5 and 6. */
  predicate PairMethod(algo: string) {
    algo == "spam_l1" || algo == "spam_l2" || algo == "solam" || algo == "fsauc"
  }

  /** spam_l1l2, opauc and sht_am read tuple positions 5, 6 and 7. */
  predicate TripleMethod(algo: string) {
    algo == "spam_l1l2" || algo == "opauc" || algo == "sht_am"
  }

  /** `get_model_para`: select the parameter tuple with the best mean AUC,
      then read the positions the method's parameters sit at. Nothing
      selected leaves `sm['para']` unset (a KeyError); a tuple too short for
      the positions read is an IndexError. */
  method GetModelPara(algo: string, records: seq<Record<seq<real>>>) returns (r: Result<Paras, LookupError>)
    ensures var c := Pick(records);
      (PairMethod(algo) || TripleMethod(algo)) && c.index.None? ==> r == Failure(KeyError)
    ensures var c := Pick(records);
      PairMethod(algo) && c.index.Some? ==>
        var para := records[c.index.value].value;
        r == if |para| < 7 then Failure(IndexError) else Success(Pair(para[5], para[6]))
    ensures var c := Pick(records);
      TripleMethod(algo) && c.index.Some? ==>
        var para := records[c.index.value].value;
        r == if |para| < 8 then Failure(IndexError) else Success(Triple(para[5], para[6], para[7]))
    ensures var c := Pick(records);
      !PairMethod(algo) && !TripleMethod(algo) ==>
        r == Success(Whole(c.aver, if c.index.Some? then Some(records[c.index.value].value) else None))
  {
    var para, averAuc := SelectBest(records);
    if PairMethod(algo) {
      if para.None? {
        return Failure(KeyError);
      } else if |para.value| < 7 {
        return Failure(IndexError);
      }
      return Success(Pair(para.value[5], para.value[6]));
    } else if TripleMethod(algo) {
      if para.None? {
        return Failure(KeyError);
      } else if |para.value| < 8 {
        return Failure(IndexError);
      }
      return Success(Triple(para.value[5], para.value[6], para.value[7]));
    }
    return Success(Whole(averAuc, para));
  }
}
