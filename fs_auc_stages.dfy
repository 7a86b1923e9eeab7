/** The stages of FSAUC (`auc_fs` in auc_fs.py, lines 42-137): the inner
    loop of a stage as the fold StageRun of StepState, the outer loop as the
    fold Stages of StageRun closed by EndStage, the methods that compute
    them, and what a whole run keeps: every state valid, the counters those
    of the examples seen, and each stage average the mean of its iterates. */
module FsAucStages {
  import opened Vectors
  import opened Wrappers
  import opened L1Ball
  import opened FsAuc

  /** Every state of the first kk steps of the stage from s is valid, with
      its running sum in the box scaled by the number of steps taken. */
  ghost predicate StageValid(s: State, x: seq<seq<real>>, y: seq<real>, ids: seq<nat>, kk: nat, dim: nat, R: real,
                             sqrt: real -> real)
    requires Shaped(s, dim) && Data(x, y, ids, dim) && R > 0.0 && IsSqrt(sqrt) && s.t + kk <= |ids|
    decreases kk
  {
    var r := StageRun(s, x, y, ids, kk, dim, R, sqrt);
    Valid(r, dim, R) && InBox(r.vSum, dim, Times(kk, R)) &&
    (kk > 0 ==> StageValid(s, x, y, ids, kk - 1, dim, R, sqrt))
  }

  /** What StageValid says of the last state. */
  lemma StageValidLast(s: State, x: seq<seq<real>>, y: seq<real>, ids: seq<nat>, kk: nat, dim: nat, R: real,
                       sqrt: real -> real)
    requires Shaped(s, dim) && Data(x, y, ids, dim) && R > 0.0 && IsSqrt(sqrt) && s.t + kk <= |ids|
    requires StageValid(s, x, y, ids, kk, dim, R, sqrt)
    ensures Valid(StageRun(s, x, y, ids, kk, dim, R, sqrt), dim, R)
    ensures InBox(StageRun(s, x, y, ids, kk, dim, R, sqrt).vSum, dim, Times(kk, R))
  {
  }

  /** StageValid for kk steps covers kk - 1 steps. */
  lemma StageValidPrev(s: State, x: seq<seq<real>>, y: seq<real>, ids: seq<nat>, kk: nat, dim: nat, R: real,
                       sqrt: real -> real)
    requires Shaped(s, dim) && Data(x, y, ids, dim) && R > 0.0 && IsSqrt(sqrt) && 0 < kk && s.t + kk <= |ids|
    requires StageValid(s, x, y, ids, kk, dim, R, sqrt)
    ensures StageValid(s, x, y, ids, kk - 1, dim, R, sqrt)
  {
  }

  /** A stage from a valid state keeps every state valid. */
  lemma {:induction false} StageRunValid(s: State, x: seq<seq<real>>, y: seq<real>, ids: seq<nat>, kk: nat, dim: nat,
                                         R: real, sqrt: real -> real)
    requires Valid(s, dim, R) && Data(x, y, ids, dim) && R > 0.0 && IsSqrt(sqrt) && s.t + kk <= |ids|
    ensures StageValid(s, x, y, ids, kk, dim, R, sqrt)
    decreases kk
  {
    if kk == 0 {
      ZerosInBox(dim, 0.0);
    } else {
      StageRunValid(s, x, y, ids, kk - 1, dim, R, sqrt);
      StageValidStep(s, x, y, ids, kk, dim, R, sqrt);
    }
  }

  /** The inductive step of StageRunValid, from kk - 1 steps to kk. */
  lemma StageValidStep(s: State, x: seq<seq<real>>, y: seq<real>, ids: seq<nat>, kk: nat, dim: nat, R: real,
                       sqrt: real -> real)
    requires Shaped(s, dim) && Data(x, y, ids, dim) && R > 0.0 && IsSqrt(sqrt) && 0 < kk && s.t + kk <= |ids|
    requires StageValid(s, x, y, ids, kk - 1, dim, R, sqrt)
    ensures StageValid(s, x, y, ids, kk, dim, R, sqrt)
  {
    StageValidLast(s, x, y, ids, kk - 1, dim, R, sqrt);
    StepValidAt(s, x, y, ids, kk, dim, R, sqrt);
  }

  /** StepValid applied to the step from kk - 1 to kk. */
  lemma StepValidAt(s: State, x: seq<seq<real>>, y: seq<real>, ids: seq<nat>, kk: nat, dim: nat, R: real,
                    sqrt: real -> real)
    requires Shaped(s, dim) && Data(x, y, ids, dim) && R > 0.0 && IsSqrt(sqrt) && 0 < kk && s.t + kk <= |ids|
    requires StageValid(s, x, y, ids, kk - 1, dim, R, sqrt)
    requires Valid(StageRun(s, x, y, ids, kk - 1, dim, R, sqrt), dim, R)
    requires InBox(StageRun(s, x, y, ids, kk - 1, dim, R, sqrt).vSum, dim, Times(kk - 1, R))
    ensures StageValid(s, x, y, ids, kk, dim, R, sqrt)
  {
    var cur := StageRun(s, x, y, ids, kk - 1, dim, R, sqrt);
    StepValid(cur, kk - 1, x[ids[cur.t]], y[ids[cur.t]], dim, R, sqrt);
    var r := StageRun(s, x, y, ids, kk, dim, R, sqrt);
    assert Valid(r, dim, R) && InBox(r.vSum, dim, Times(kk, R));
  }

  /** A step on example ids[cur.t] keeps the counters and class sums those
      of the examples seen. */
  lemma StepSeen(cur: State, kk: nat, x: seq<seq<real>>, y: seq<real>, ids: seq<nat>, dim: nat, R: real,
                 sqrt: real -> real)
    requires Shaped(cur, dim) && Data(x, y, ids, dim) && R > 0.0 && IsSqrt(sqrt) && cur.t < |ids|
    requires Seen(cur, x, y, ids, dim)
    ensures Seen(StepState(cur, kk, x[ids[cur.t]], y[ids[cur.t]], dim, R, sqrt), x, y, ids, dim)
  {
    SeenAfterStep(cur, StepState(cur, kk, x[ids[cur.t]], y[ids[cur.t]], dim, R, sqrt), x, y, ids, dim);
  }

  /** A stage keeps the counters and class sums those of the examples seen. */
  lemma {:induction false} StageRunSeen(s: State, x: seq<seq<real>>, y: seq<real>, ids: seq<nat>, kk: nat, dim: nat,
                                        R: real, sqrt: real -> real)
    requires Shaped(s, dim) && Data(x, y, ids, dim) && R > 0.0 && IsSqrt(sqrt) && s.t + kk <= |ids|
    requires Seen(s, x, y, ids, dim)
    ensures Seen(StageRun(s, x, y, ids, kk, dim, R, sqrt), x, y, ids, dim)
    decreases kk
  {
    if kk > 0 {
      StageRunSeen(s, x, y, ids, kk - 1, dim, R, sqrt);
      StageRunSeenStep(s, x, y, ids, kk - 1, dim, R, sqrt);
    }
  }

  /** The inductive step of StageRunSeen. */
  lemma StageRunSeenStep(s: State, x: seq<seq<real>>, y: seq<real>, ids: seq<nat>, kk: nat, dim: nat,
                         R: real, sqrt: real -> real)
    requires Shaped(s, dim) && Data(x, y, ids, dim) && R > 0.0 && IsSqrt(sqrt) && s.t + kk < |ids|
    requires Seen(StageRun(s, x, y, ids, kk, dim, R, sqrt), x, y, ids, dim)
    ensures Seen(StageRun(s, x, y, ids, kk + 1, dim, R, sqrt), x, y, ids, dim)
  {
    StepSeen(StageRun(s, x, y, ids, kk, dim, R, sqrt), kk, x, y, ids, dim, R, sqrt);
  }

  /** The iterates a stage visits each lie in the box and near the
      checkpoint, and the running sum and average are theirs, as long as
      every state on the way is valid. */
  lemma {:induction false} StageRunPath(s: State, x: seq<seq<real>>, y: seq<real>, ids: seq<nat>, kk: nat, dim: nat,
                                        R: real, sqrt: real -> real)
    requires Shaped(s, dim) && Data(x, y, ids, dim) && R > 0.0 && IsSqrt(sqrt) && s.t + kk <= |ids|
    requires StageValid(s, x, y, ids, kk, dim, R, sqrt)
    ensures PathFacts(s, StageRun(s, x, y, ids, kk, dim, R, sqrt), StagePath(s, x, y, ids, kk, dim, R, sqrt), kk, dim, R)
    decreases kk
  {
    if kk > 0 {
      StageValidPrev(s, x, y, ids, kk, dim, R, sqrt);
      StageRunPath(s, x, y, ids, kk - 1, dim, R, sqrt);
      StagePathStep(s, x, y, ids, kk, dim, R, sqrt);
    }
  }

  /** The inductive step of StageRunPath, from kk - 1 steps to kk:
      PathStep applied to that step. */
  lemma StagePathStep(s: State, x: seq<seq<real>>, y: seq<real>, ids: seq<nat>, kk: nat, dim: nat, R: real,
                      sqrt: real -> real)
    requires Shaped(s, dim) && Data(x, y, ids, dim) && R > 0.0 && IsSqrt(sqrt) && 0 < kk && s.t + kk <= |ids|
    requires StageValid(s, x, y, ids, kk - 1, dim, R, sqrt)
    requires PathFacts(s, StageRun(s, x, y, ids, kk - 1, dim, R, sqrt), StagePath(s, x, y, ids, kk - 1, dim, R, sqrt),
                       kk - 1, dim, R)
    ensures PathFacts(s, StageRun(s, x, y, ids, kk, dim, R, sqrt), StagePath(s, x, y, ids, kk, dim, R, sqrt), kk, dim, R)
  {
    StageValidLast(s, x, y, ids, kk - 1, dim, R, sqrt);
    var cur := StageRun(s, x, y, ids, kk - 1, dim, R, sqrt);
    PathStep(s, cur, StagePath(s, x, y, ids, kk - 1, dim, R, sqrt), kk - 1, x[ids[cur.t]], y[ids[cur.t]], dim, R, sqrt);
  }

  /** A stage keeps the state ready, every iterate it visits lies in the box
      and near the checkpoint, and the stage average is the arithmetic mean
      of those iterates. */
  lemma StageRunMean(s: State, x: seq<seq<real>>, y: seq<real>, ids: seq<nat>, n0: nat, dim: nat,
                     R: real, sqrt: real -> real)
    requires Ready(s, x, y, ids, dim, R, sqrt) && s.t + n0 <= |ids|
    ensures Ready(StageRun(s, x, y, ids, n0, dim, R, sqrt), x, y, ids, dim, R, sqrt)
    ensures var path := StagePath(s, x, y, ids, n0, dim, R, sqrt);
      (forall j :: 0 <= j < n0 ==>
        |path[j].v| == dim + 2 && InBox(path[j].v, dim, R) && NearCheckpoint(path[j], s.v1, s.alpha1, s.paraR, s.D)) &&
      (n0 > 0 ==> StageRun(s, x, y, ids, n0, dim, R, sqrt).vAve == Mean(Primal(path), dim + 2))
  {
    StageRunValid(s, x, y, ids, n0, dim, R, sqrt);
    StageValidLast(s, x, y, ids, n0, dim, R, sqrt);
    StageRunSeen(s, x, y, ids, n0, dim, R, sqrt);
    StageRunPath(s, x, y, ids, n0, dim, R, sqrt);
  }

  /** A stage keeps the state ready. */
  lemma StageRunReady(s: State, x: seq<seq<real>>, y: seq<real>, ids: seq<nat>, n0: nat, dim: nat,
                      R: real, sqrt: real -> real)
    requires Ready(s, x, y, ids, dim, R, sqrt) && s.t + n0 <= |ids|
    ensures Ready(StageRun(s, x, y, ids, n0, dim, R, sqrt), x, y, ids, dim, R, sqrt)
  {
    StageRunValid(s, x, y, ids, n0, dim, R, sqrt);
    StageValidLast(s, x, y, ids, n0, dim, R, sqrt);
    StageRunSeen(s, x, y, ids, n0, dim, R, sqrt);
  }

  /** Lines 68-114 inside a stage: the step on example ids[cur.t]. */
  method StageStep(s: State, cur: State, ghost path: seq<Iterate>, kk: nat, x: seq<seq<real>>, y: seq<real>,
                   ids: seq<nat>, dim: nat, R: real, sqrt: real -> real)
    returns (next: State, ghost path': seq<Iterate>)
    requires Ready(s, x, y, ids, dim, R, sqrt) && s.t + kk < |ids|
    requires cur == StageRun(s, x, y, ids, kk, dim, R, sqrt) && path == StagePath(s, x, y, ids, kk, dim, R, sqrt)
    ensures next == StageRun(s, x, y, ids, kk + 1, dim, R, sqrt) && path' == StagePath(s, x, y, ids, kk + 1, dim, R, sqrt)
  {
    var i := ids[cur.t];
    next := Step(cur, kk, x[i], y[i], dim, R, sqrt);
    path' := path + [Iterate(next.v, next.alpha)];
  }

  /** Lines 64-114, one stage: restart from the checkpoint and take n0 steps
      on the next n0 examples. The result is StageRun and the iterates
      visited (ghost) are StagePath. */
  method RunStage(s: State, x: seq<seq<real>>, y: seq<real>, ids: seq<nat>, n0: nat,
                  dim: nat, R: real, sqrt: real -> real) returns (r: State, ghost path: seq<Iterate>)
    requires Ready(s, x, y, ids, dim, R, sqrt) && s.t + n0 <= |ids|
    ensures r == StageRun(s, x, y, ids, n0, dim, R, sqrt) && path == StagePath(s, x, y, ids, n0, dim, R, sqrt)
  {
    r := s.(v := s.v1, alpha := s.alpha1, vSum := Zeros(dim + 2));
    path := [];
    var kk := 0;
    while kk < n0
      invariant kk <= n0
      invariant r == StageRun(s, x, y, ids, kk, dim, R, sqrt) && path == StagePath(s, x, y, ids, kk, dim, R, sqrt)
    {
      r, path := StageStep(s, r, path, kk, x, y, ids, dim, R, sqrt);
      kk := kk + 1;
    }
  }

  /** Lines 64-136, one stage and its retuning: the stage run from s closed
      by EndStage. */
  method Stage(s: State, x: seq<seq<real>>, y: seq<real>, ids: seq<nat>, n0: nat, dim: nat, R: real,
               sqrt: real -> real, log: real -> real) returns (r: State, ghost path: seq<Iterate>)
    requires Ready(s, x, y, ids, dim, R, sqrt) && s.t + n0 <= |ids| && log(12.0 / Delta) >= 0.0
    ensures Valid(StageRun(s, x, y, ids, n0, dim, R, sqrt), dim, R)
    ensures r == EndStage(StageRun(s, x, y, ids, n0, dim, R, sqrt), n0, dim, R, sqrt, log)
    ensures path == StagePath(s, x, y, ids, n0, dim, R, sqrt)
    ensures n0 > 0 ==> MeanOfBoxed(r.vAve, path, dim, R)
  {
    var mid;
    mid, path := RunStage(s, x, y, ids, n0, dim, R, sqrt);
    StageRunMean(s, x, y, ids, n0, dim, R, sqrt);
    r := EndStage(mid, n0, dim, R, sqrt, log);
  }

  /** The state after k stages of n0 steps from the initial state: each
      stage runs from where the previous one ended and is closed by EndStage. */
  function Stages(x: seq<seq<real>>, y: seq<real>, ids: seq<nat>, eta0: real, R: real, n0: nat, k: nat, dim: nat,
                  sqrt: real -> real, log: real -> real): (s: State)
    requires Data(x, y, ids, dim) && IsSqrt(sqrt) && log(12.0 / Delta) >= 0.0 && R > 0.0 && k * n0 <= |ids|
    ensures Ready(s, x, y, ids, dim, R, sqrt) && s.t == k * n0
    decreases k
  {
    if k == 0 then
      assert ids[..0] == [];
      Init(dim, eta0, R, sqrt)
    else
      assert (k - 1) * n0 + n0 == k * n0;
      var prev := Stages(x, y, ids, eta0, R, n0, k - 1, dim, sqrt, log);
      StageRunReady(prev, x, y, ids, n0, dim, R, sqrt);
      EndStage(StageRun(prev, x, y, ids, n0, dim, R, sqrt), n0, dim, R, sqrt, log)
  }

  /** 2 to the power k. */
  function Pow2(k: nat): (r: real)
    ensures r >= 1.0
  {
    if k == 0 then 1.0 else 2.0 * Pow2(k - 1)
  }

  /** p halved k times. */
  function Halved(p: real, k: nat): (r: real)
    ensures r == p / Pow2(k)
  {
    if k == 0 then p
    else
      HalfOfQuotient(p, Pow2(k - 1));
      Halved(p, k - 1) / 2.0
  }

  /** Halving p / q is dividing p by 2 q. */
  lemma HalfOfQuotient(p: real, q: real)
    requires q > 0.0
    ensures p / q / 2.0 == p / (2.0 * q)
  {
    var a := p / q;
    assert a * q == p;
    assert (a / 2.0) * (2.0 * q) == a * q;
  }

  /** Over the stages, the primal radius halves each stage and the step size
      never grows; with no step per stage the average stays zero. */
  lemma {:induction false} StagesRetune(x: seq<seq<real>>, y: seq<real>, ids: seq<nat>, eta0: real, R: real, n0: nat,
                                        k: nat, dim: nat, sqrt: real -> real, log: real -> real)
    requires Data(x, y, ids, dim) && IsSqrt(sqrt) && log(12.0 / Delta) >= 0.0 && R > 0.0 && k * n0 <= |ids|
    ensures var s := Stages(x, y, ids, eta0, R, n0, k, dim, sqrt, log);
      s.eta <= eta0 && s.paraR == Halved(Init(dim, eta0, R, sqrt).paraR, k) && (n0 == 0 ==> s.vAve == Zeros(dim + 2))
    decreases k
  {
    if k > 0 {
      assert (k - 1) * n0 + n0 == k * n0;
      StagesRetune(x, y, ids, eta0, R, n0, k - 1, dim, sqrt, log);
      StageRetune(x, y, ids, eta0, R, n0, k, dim, sqrt, log);
    }
  }

  /** One stage and its retuning halve the primal radius, do not grow the
      step size, and with no step leave the average alone. */
  lemma StageRetune(x: seq<seq<real>>, y: seq<real>, ids: seq<nat>, eta0: real, R: real, n0: nat,
                    k: nat, dim: nat, sqrt: real -> real, log: real -> real)
    requires Data(x, y, ids, dim) && IsSqrt(sqrt) && log(12.0 / Delta) >= 0.0 && R > 0.0 && 0 < k && k * n0 <= |ids|
    ensures (k - 1) * n0 <= |ids|
    ensures var prev := Stages(x, y, ids, eta0, R, n0, k - 1, dim, sqrt, log);
      var s := Stages(x, y, ids, eta0, R, n0, k, dim, sqrt, log);
      s.eta <= prev.eta && s.paraR == prev.paraR / 2.0 && (n0 == 0 ==> s.vAve == prev.vAve)
  {
    assert (k - 1) * n0 + n0 == k * n0;
  }

  /** Lines 58-59: with n0 = n / m examples per stage, the m stages fit in the
      n examples, so every read ids[t] is in bounds. */
  lemma StagesFit(n: nat, m: nat, k: nat)
    requires k < m
    ensures k * (n / m) + n / m == (k + 1) * (n / m) <= n
  {
    var q := n / m;
    assert (k + 1) * q == k * q + q;
    MulMonotone(k + 1, m, q);
    assert m * q + n % m == n;
  }

  /** StagesFit for the last stage: all m stages of q = n / m examples fit
      in the n examples. */
  lemma StagesFitLast(n: nat, m: nat, q: nat)
    requires 0 < m && q == n / m
    ensures (m - 1) * q <= n && (m - 1) * q + q == m * q <= n
  {
    StagesFit(n, m, m - 1);
  }

  lemma {:induction false} MulMonotone(a: nat, b: nat, q: nat)
    requires a <= b
    ensures a * q <= b * q
  {
    if a < b {
      MulMonotone(a, b - 1, q);
      assert (b - 1) * q + q == b * q;
    }
  }

  /** Lines 50-136 on the main path: from the initial state, `stages` stages
      of n0 = |ids| / stages steps each. The final state is Stages, and
      its average the arithmetic mean of the iterates `last` (ghost) of
      the last stage, each of them in the box. */
  method RunStages(x: seq<seq<real>>, y: seq<real>, ids: seq<nat>, eta0: real, R: real, stages: nat, n0: nat,
                   dim: nat, sqrt: real -> real, log: real -> real) returns (s: State, ghost last: seq<Iterate>)
    requires Data(x, y, ids, dim) && IsSqrt(sqrt) && log(12.0 / Delta) >= 0.0 && R > 0.0
    requires stages > 0 && n0 == |ids| / stages
    ensures stages * n0 <= |ids|
    ensures s == Stages(x, y, ids, eta0, R, n0, stages, dim, sqrt, log)
    ensures n0 > 0 ==> |last| == n0 && MeanOfBoxed(s.vAve, last, dim, R)
  {
    s := Stages(x, y, ids, eta0, R, n0, 0, dim, sqrt, log);  // Init, the state of lines 50-63
    last := [];
    var k := 0;
    while k < stages
      invariant k <= stages && k * n0 <= |ids|
      invariant s == Stages(x, y, ids, eta0, R, n0, k, dim, sqrt, log)
      invariant k > 0 && n0 > 0 ==> |last| == n0 && MeanOfBoxed(s.vAve, last, dim, R)
    {
      StagesFit(|ids|, stages, k);
      s, last := NextStage(s, x, y, ids, eta0, R, n0, k, dim, sqrt, log);
      k := k + 1;
    }
  }

  /** The loop body of RunStages: stage k + 1 from the state after k stages. */
  method NextStage(s: State, x: seq<seq<real>>, y: seq<real>, ids: seq<nat>, eta0: real, R: real, n0: nat, k: nat,
                   dim: nat, sqrt: real -> real, log: real -> real) returns (r: State, ghost path: seq<Iterate>)
    requires Data(x, y, ids, dim) && IsSqrt(sqrt) && log(12.0 / Delta) >= 0.0 && R > 0.0
    requires k * n0 <= |ids| && k * n0 + n0 == (k + 1) * n0 <= |ids|
    requires s == Stages(x, y, ids, eta0, R, n0, k, dim, sqrt, log)
    ensures r == Stages(x, y, ids, eta0, R, n0, k + 1, dim, sqrt, log)
    ensures n0 > 0 ==> |path| == n0 && MeanOfBoxed(r.vAve, path, dim, R)
  {
    r, path := Stage(s, x, y, ids, n0, dim, R, sqrt, log);
  }

  /** The state `auc_fs` ends in on its main path: m stages of |ids| / m
      steps each from the initial state. */
  function Trained(x: seq<seq<real>>, y: seq<real>, ids: seq<nat>, eta0: real, R: real, m: nat, dim: nat,
                   sqrt: real -> real, log: real -> real): (s: State)
    requires Data(x, y, ids, dim) && IsSqrt(sqrt) && log(12.0 / Delta) >= 0.0 && R > 0.0 && m > 0
    ensures Valid(s, dim, R) && s.t == m * (|ids| / m)
  {
    StagesFitLast(|ids|, m, |ids| / m);
    Stages(x, y, ids, eta0, R, |ids| / m, m, dim, sqrt, log)
  }

  /** With fewer examples than stages no step is taken and the average
      stays zero. */
  lemma TrainedZero(x: seq<seq<real>>, y: seq<real>, ids: seq<nat>, eta0: real, R: real, m: nat, dim: nat,
                    sqrt: real -> real, log: real -> real)
    requires Data(x, y, ids, dim) && IsSqrt(sqrt) && log(12.0 / Delta) >= 0.0 && R > 0.0 && m > 0 && |ids| / m == 0
    ensures Trained(x, y, ids, eta0, R, m, dim, sqrt, log).vAve == Zeros(dim + 2)
  {
    StagesRetune(x, y, ids, eta0, R, 0, m, dim, sqrt, log);
  }

  /** Lines 42-137: the FSAUC optimiser on the examples ids of (x, y), in m
      stages of n0 = |ids| / m steps each, with initial step size eta0 and
      radius R. None stands for the exceptions the source raises: the
      division by m = 0 on line 59, and the failing L1-ball projection
      (no threshold found) once a step is taken with R <= 0. Otherwise the
      result is the w-part of the average the run Trained describes ends
      with, the arithmetic mean of the iterates `last` (ghost) of its last
      stage, each of them in the box. */
  method AucFs(x: seq<seq<real>>, y: seq<real>, ids: seq<nat>, eta0: real, R: real, m: int, dim: nat,
               sqrt: real -> real, log: real -> real)
    returns (r: Option<seq<real>>, ghost last: seq<Iterate>)
    requires Data(x, y, ids, dim) && IsSqrt(sqrt) && log(12.0 / Delta) >= 0.0
    ensures m == 0 ==> r == None
    ensures m < 0 ==> r == Some(Zeros(dim))
    ensures m > 0 && |ids| / m == 0 ==> r == Some(Zeros(dim))
    ensures m > 0 && |ids| / m > 0 && R <= 0.0 ==> r == None
    ensures m > 0 && R > 0.0 ==>
      r == Some(Trained(x, y, ids, eta0, R, m, dim, sqrt, log).vAve[..dim]) && L1(r.value) <= R
    ensures m > 0 && R > 0.0 && |ids| / m > 0 ==>
      |last| == |ids| / m && MeanOfBoxed(Trained(x, y, ids, eta0, R, m, dim, sqrt, log).vAve, last, dim, R)
  {
    last := [];
    if m == 0 {
      return None, last;
    }
    if m < 0 {
      return Some(Zeros(dim)), last;
    }
    var stages: nat := m;
    var n0: nat := |ids| / stages;
    if R <= 0.0 {
      if n0 > 0 {
        // Lines 68-92 of the first step: descend from the zero iterate on
        // example ids[0] and project the weights onto the L1 ball of radius
        // R, which finds no threshold when R <= 0.
        var i := ids[0];
        var p := if y[i] == 1.0 then 1.0 else 0.0;
        var moved := Descend(Zeros(dim + 2), 0.0, Gradient(x[i], Zeros(dim + 2), 0.0, p, y[i] == 1.0), eta0);
        ProjectSucceedsIff(moved.v[..dim], R);
        match ProjectOntoL1Ball(moved.v[..dim], R)
        case NoThreshold =>
          return None, last;
        case Projected(_) =>
          assert false;
      }
      return Some(Zeros(dim)), last;
    }
    var w;
    w, last := TrainedWeights(x, y, ids, eta0, R, stages, dim, sqrt, log);
    r := Some(w);
  }

  /** Lines 50-137 of AucFs when R > 0: the stage loop, then the w-part of
      the average the run Trained ends with. */
  method TrainedWeights(x: seq<seq<real>>, y: seq<real>, ids: seq<nat>, eta0: real, R: real, m: nat, dim: nat,
                        sqrt: real -> real, log: real -> real)
    returns (w: seq<real>, ghost last: seq<Iterate>)
    requires Data(x, y, ids, dim) && IsSqrt(sqrt) && log(12.0 / Delta) >= 0.0 && R > 0.0 && m > 0
    ensures w == Trained(x, y, ids, eta0, R, m, dim, sqrt, log).vAve[..dim] && L1(w) <= R
    ensures |ids| / m == 0 ==> w == Zeros(dim)
    ensures |ids| / m > 0 ==>
      |last| == |ids| / m && MeanOfBoxed(Trained(x, y, ids, eta0, R, m, dim, sqrt, log).vAve, last, dim, R)
  {
    var s;
    s, last := RunStages(x, y, ids, eta0, R, m, |ids| / m, dim, sqrt, log);
    if |ids| / m == 0 {
      TrainedZero(x, y, ids, eta0, R, m, dim, sqrt, log);
      assert Zeros(dim + 2)[..dim] == Zeros(dim);
    }
    w := s.vAve[..dim];
  }
}
