# sparse-auc: a verified model of the AUC optimisers and their helpers

This project models the core of the sparse-auc experiments: the FSAUC
optimiser (`auc_fs` with its L1-ball projection), the C kernels behind the
SOLAM family of online AUC maximisers, and the small helpers of the
experiment scripts that feed these optimisers and score what they return.

- **FSAUC** (`FsAuc`, `FsAucStages`, `L1Ball`). This is the stage-wise stochastic
  primal-dual AUC maximiser. Each step does three things:
  - it takes a label-dependent gradient step on the square-loss saddle
    objective;
  - it applies a fixed chain of projections: the L1 ball, the two offset
    clips, the dual clip, the Euclidean ball around the stage checkpoint
    and the interval around the dual checkpoint;
  - it folds the iterate into the stage average.

  At each stage boundary the primal radius halves. D, beta and the step
  size are retuned, falling back to a sentinel of 1e7 when their
  statistical bound is vacuous. The checkpoint then moves to the stage
  average. One step is the function StepState; a stage is the fold
  StageRun of steps from the checkpoint, and the whole run the fold Stages
  of stages, each closed by EndStage. The loops are methods proved to
  compute these folds, and lemmas prove what the folds keep: every state
  valid, the counters those of the examples seen, and each stage average
  the mean of its iterates. The projection is a pure function with its
  lemmas.
- **The C kernels**:
  - `SparseKernels`: the sparse inner product and the sparse scatter-add.
  - `Select`: the in-place Floyd–Rivest selection, which places the k-th
    largest entry.
  - `HardThreshold`: keeps the k largest magnitudes and zeroes every tie
    after the first.
  - `Solam` and `Drivers`: the SOLAM, STOHT-AM and DA-SOLAM drivers on
    dense and packed sparse rows. The model covers:
    - the running positive rate;
    - the projection onto the feasible region;
    - the clip on alpha;
    - the step-size-weighted running average;
    - the copy of the result.

    One step is the function Next. A run is the fold Run of Next over the
    rows visited, from Initial; Iterates and StepSizes are the iterates
    each step starts from and the step sizes it uses. The loop methods
    (Pass, Passes, Train) and the drivers state their final state and
    their result as that fold, and lemmas about Next give the region,
    rate and average facts.
  - `Spam`: the SPAM dispatcher and its kernels.
- **The script helpers**:
  - `GetIdx`: the visiting order, as shuffles laid end to end.
  - `SparseData`: the CSR-style row gather and the sparse scoring loop of
    `pred_auc`. The copies in `test_sparse.py:32-63` and
    `test_high_dim_data.py:33-64` are identical.
  - `ModelSelect`: the arg-max model selection of `get_model` and
    `get_model_para`.
  - `Metrics`: the set-based precision, recall and F-measure, and the
    support scoring of `test_solam`.

All arithmetic is over `real`. `sqrt` and `log` are parameters, about
which only their defining property is assumed (`IsSqrt`, and a
non-negative `log(12 / delta)`). Randomness, the shuffles in particular,
is an input.

Behaviour of the code worth noting:

- `ProjectOntoL1Ball` takes the identity branch only when the L1 norm is
  strictly below b. Over the reals the sort branch gives theta = 0 on the
  sphere, so the result is the same (`L1Ball.IdentityInside`). The code
  fails outright whenever b <= 0: its threshold index set is then empty
  (`L1Ball.ProjectSucceedsIff`). This happens for every b <= 0, not just
  for a zero vector.
- The gradient follows the code's offsets: a positive example uses
  `v[dim]` and a negative one uses `v[dim + 1]`.
- The offset and dual clips rescale by `R / |x|`. Over the reals this
  equals clipping to `[-R, R]` (`FsAuc.Clip`).
- The number of stages `m` is an input, not computed from `log2`:
  - for `m == 0`, line 59 divides by zero;
  - for `m < 0`, no stage runs and the result is the zero vector.

## Model

| member | source | states |
|---|---|---|
| L1Ball.AbsAll | baselines/icml18_fsauc/auc_python/auc_fs.py:141 | each entry is the magnitude of the input entry at the same position |
| L1Ball.SortDesc | baselines/icml18_fsauc/auc_python/auc_fs.py:145 | the result is sorted descending and is a permutation of the input |
| L1Ball.LastAbove | baselines/icml18_fsauc/auc_python/auc_fs.py:147 | the index found satisfies the threshold test and no later index does; None means no index below n does |
| L1Ball.Excess | baselines/icml18_fsauc/auc_python/auc_fs.py:149 | each entry is the positive part of the entry less theta |
| L1Ball.SoftThreshold | baselines/icml18_fsauc/auc_python/auc_fs.py:149 | each entry is the sign of the input entry times its shrunk magnitude |
| L1Ball.ProjectOntoL1Ball | baselines/icml18_fsauc/auc_python/auc_fs.py:140-150 | a successful projection has the input's length; the failing `nonzero(...)[0][-1]` is the NoThreshold outcome |
| L1Ball.ProjectSucceedsIff | baselines/icml18_fsauc/auc_python/auc_fs.py:140-149 | the projection finds a threshold index exactly when b > 0: index 0 qualifies for b > 0, and for b <= 0 none does |
| L1Ball.IdentityInside | baselines/icml18_fsauc/auc_python/auc_fs.py:142-149 | for b > 0, an input with L1 norm at most b, the sphere included, comes back unchanged |
| L1Ball.ProjectOntoSphere | baselines/icml18_fsauc/auc_python/auc_fs.py:144-149 | outside the open ball the projection lands exactly on the sphere of radius b |
| L1Ball.ProjectShrinks | baselines/icml18_fsauc/auc_python/auc_fs.py:140-150 | for b > 0 the result lies in the L1 ball of radius b, and each entry shrinks in magnitude and is zero or keeps the input's sign |
| L1Ball.ThresholdSplits | baselines/icml18_fsauc/auc_python/auc_fs.py:145-148 | theta is non-negative, and (rho + 1) theta = S_rho - b; the rho + 1 largest magnitudes exceed theta and the others do not |
| L1Ball.ThetaTimesCount | baselines/icml18_fsauc/auc_python/auc_fs.py:148 | rho + 1 copies of theta add up to the prefix sum S_rho less b |
| L1Ball.SortBranch | baselines/icml18_fsauc/auc_python/auc_fs.py:144-149 | the sort branch picks rho and theta with the splitting facts above, and its result is the soft threshold at theta |
| L1Ball.SortedMagnitudes | baselines/icml18_fsauc/auc_python/auc_fs.py:145 | the sorted magnitudes are non-negative |
| L1Ball.SoftThresholdShrinks | baselines/icml18_fsauc/auc_python/auc_fs.py:149 | for theta >= 0 the soft threshold has the summed excesses as its L1 norm, and every entry shrinks towards 0 without changing sign |
| L1Ball.ExcessSumIsRadius | baselines/icml18_fsauc/auc_python/auc_fs.py:147-149 | with theta splitting the magnitudes at rho, the excesses over theta sum to exactly b |
| L1Ball.MeanVanishesOnSphere | baselines/icml18_fsauc/auc_python/auc_fs.py:148 | when the magnitudes already sum to b, theta is 0 |
| L1Ball.SoftThresholdZero | baselines/icml18_fsauc/auc_python/auc_fs.py:149 | shrinking by 0 changes nothing |
| L1Ball.SumPermutation | baselines/icml18_fsauc/auc_python/auc_fs.py:145-146 | the sum depends only on the multiset of the entries, so sorting keeps the L1 norm |
| L1Ball.SumExcessPermutation | baselines/icml18_fsauc/auc_python/auc_fs.py:149 | the summed excesses depend only on the multiset of the entries |
| L1Ball.L1IsSumOfAbs | baselines/icml18_fsauc/auc_python/auc_fs.py:141-142 | `nm.sum()` is the L1 norm |
| FsAuc.Clip | baselines/icml18_fsauc/auc_python/auc_fs.py:93-101 | the result has magnitude at most c; inside [-c, c] it is unchanged, outside it is sign(x) c |
| FsAuc.BallProjectIsLerp | baselines/icml18_fsauc/auc_python/auc_fs.py:103-107 | the ball step moves v to a point on the segment from v1 to v, and leaves v in place inside the ball |
| FsAuc.BallProjectRadius | baselines/icml18_fsauc/auc_python/auc_fs.py:103-107 | after the ball step, v is within paraR of v1 in the Euclidean norm |
| FsAuc.ProjectDual | baselines/icml18_fsauc/auc_python/auc_fs.py:99-112 | after the dual clip and the interval step, alpha is within D of alpha1 |
| FsAuc.DualBoundNotKept | baselines/icml18_fsauc/auc_python/auc_fs.py:99-112 | the clip to 2R does not survive the interval step: alpha1 = 10, R = 1 and D = 1 give a dual of 9 |
| FsAuc.ProjectIterate | baselines/icml18_fsauc/auc_python/auc_fs.py:92-112 | the projection chain keeps the length dim + 2 |
| FsAuc.ProjectIterateRegion | baselines/icml18_fsauc/auc_python/auc_fs.py:92-112 | after the chain, v is within paraR of v1 and alpha within D of alpha1; when v1 is in the box of radius R, so is v |
| FsAuc.Gradient | baselines/icml18_fsauc/auc_python/auc_fs.py:75-85 | only the offset of the example's own class gets a nonzero gradient entry |
| FsAuc.GradientEntries | baselines/icml18_fsauc/auc_python/auc_fs.py:75-85 | weight entries are the example times the class coefficient at the current score; the own offset gets its coefficient and the other 0; the dual gets the dual coefficient |
| FsAuc.ScoreAfterStep | baselines/icml18_fsauc/auc_python/auc_fs.py:70 | moving weight i by h moves the score by x[i] h |
| FsAuc.PositiveScoreStep | baselines/icml18_fsauc/auc_python/auc_fs.py:75 | for a positive example, the weight coefficient is half the derivative of the objective in the score |
| FsAuc.PositiveOffsetStep | baselines/icml18_fsauc/auc_python/auc_fs.py:76 | the positive offset entry is half the derivative of the objective in that offset |
| FsAuc.PositiveDualStep | baselines/icml18_fsauc/auc_python/auc_fs.py:78 | the positive dual entry is half the derivative of the objective in alpha |
| FsAuc.NegativeScoreStep | baselines/icml18_fsauc/auc_python/auc_fs.py:82 | for a negative example, the weight coefficient is half the derivative of the objective in the score |
| FsAuc.NegativeOffsetStep | baselines/icml18_fsauc/auc_python/auc_fs.py:84 | the negative offset entry is half the derivative of the objective in that offset |
| FsAuc.NegativeDualStep | baselines/icml18_fsauc/auc_python/auc_fs.py:85 | the negative dual entry is half the derivative of the objective in alpha |
| FsAuc.BoxConvex | baselines/icml18_fsauc/auc_python/auc_fs.py:103-107 | the box of the L1 and offset bounds is convex, so moving towards an in-box checkpoint stays in it |
| FsAuc.CountPositives | baselines/icml18_fsauc/auc_python/auc_fs.py:71-72 | the positives counted never outnumber the examples |
| FsAuc.ClassMean | baselines/icml18_fsauc/auc_python/auc_fs.py:131-134 | a class mean is kept from before while its class has not been seen |
| FsAuc.ClassMeanTimesCount | baselines/icml18_fsauc/auc_python/auc_fs.py:131-134 | a class mean taken count times gives back the class sum |
| FsAuc.NextDualRadius | baselines/icml18_fsauc/auc_python/auc_fs.py:117-122 | D is positive; it is the sentinel exactly when the deviation term is not positive, and otherwise exceeds 2 sqrt(2) paraR |
| FsAuc.NextBeta | baselines/icml18_fsauc/auc_python/auc_fs.py:123-128 | beta is at least 9; it is the sentinel exactly when its bound is vacuous (including n0 = 0), and otherwise exceeds 9 |
| FsAuc.NextEta | baselines/icml18_fsauc/auc_python/auc_fs.py:129 | the step size never grows; it stays positive and shrinks exactly when beta grew less than fourfold |
| FsAuc.EtaShrinks | baselines/icml18_fsauc/auc_python/auc_fs.py:129 | sqrt(beta_new / beta) eta / 2 is below eta exactly when beta_new < 4 beta |
| FsAuc.Init | baselines/icml18_fsauc/auc_python/auc_fs.py:50-63 | the start state satisfies the state invariant, with no example counted, zero class sums and paraR = 2 sqrt(3) R |
| FsAuc.PrevalenceInUnit | baselines/icml18_fsauc/auc_python/auc_fs.py:73 | a prevalence sp / t with sp <= t lies in [0, 1] |
| FsAuc.Descend | baselines/icml18_fsauc/auc_python/auc_fs.py:87-88 | the gradient step keeps the length of the iterate |
| FsAuc.Advance | baselines/icml18_fsauc/auc_python/auc_fs.py:70-112 | after a step and its projections the iterate is near the checkpoint, and in the box whenever the checkpoint is |
| FsAuc.Observe | baselines/icml18_fsauc/auc_python/auc_fs.py:71-86 | counting an example raises sp only for label 1, adds it to its class sum, and sets the prevalence to sp / (t + 1) in [0, 1]; nothing else changes |
| FsAuc.StepAverage | baselines/icml18_fsauc/auc_python/auc_fs.py:113-114 | the running sum stays in the box scaled by the step count, and the average stays in the box |
| FsAuc.StepValid | baselines/icml18_fsauc/auc_python/auc_fs.py:68-114 | a step keeps the state invariant; the new iterate is in the box and near the checkpoint, and the running sum of kk + 1 iterates is in the box scaled by kk + 1 |
| FsAuc.Step | baselines/icml18_fsauc/auc_python/auc_fs.py:68-114 | the loop body computes StepState: the example counted, the iterate moved as Advance says, and added to the running sum and average |
| FsAuc.SeenExtend | baselines/icml18_fsauc/auc_python/auc_fs.py:68-81 | visiting example t adds it to the positive count and to its class sum |
| FsAuc.Primal | baselines/icml18_fsauc/auc_python/auc_fs.py:113 | the primal parts of the iterates, in order |
| FsAuc.StageRun | baselines/icml18_fsauc/auc_python/auc_fs.py:65-114 | the first kk steps of a stage visit examples ids[t] to ids[t + kk - 1] and change only the per-step fields |
| FsAuc.SeenAfterStep | baselines/icml18_fsauc/auc_python/auc_fs.py:68-86 | after a step the counters and class sums are those of the first t + 1 examples of ids |
| FsAuc.PathExtend | baselines/icml18_fsauc/auc_python/auc_fs.py:113 | appending an in-region iterate keeps all iterates in the region and adds it to the running sum |
| FsAuc.PathStep | baselines/icml18_fsauc/auc_python/auc_fs.py:68-114 | a step from a valid state extends the facts about the stage's iterates by the new iterate: in the box, near the checkpoint, in the running sum and average |
| FsAuc.EndStage | baselines/icml18_fsauc/auc_python/auc_fs.py:115-136 | at the boundary paraR halves, D, beta and eta follow their updates with eta not growing, class means refresh, and the checkpoint becomes the stage average with alpha1 = <m_neg - m_pos, v_ave[:dim]> |
| FsAucStages.StageRunValid | baselines/icml18_fsauc/auc_python/auc_fs.py:64-114 | from a valid state, every state of the stage's step chain is valid, with the running sum of kk iterates in the box scaled by kk |
| FsAucStages.StageRunSeen | baselines/icml18_fsauc/auc_python/auc_fs.py:68-86 | along the step chain the counters and class sums stay those of the examples visited |
| FsAucStages.StageRunPath | baselines/icml18_fsauc/auc_python/auc_fs.py:65-114 | the iterates of the step chain lie in the box and near the checkpoint, and the running sum and average are theirs |
| FsAucStages.StageRunMean | baselines/icml18_fsauc/auc_python/auc_fs.py:64-114 | a stage keeps the state ready, and the stage average is the arithmetic mean of its iterates, each in the box and near the checkpoint |
| FsAucStages.StageStep | baselines/icml18_fsauc/auc_python/auc_fs.py:67-114 | one inner-loop pass takes the step chain from kk to kk + 1 steps and appends the new iterate |
| FsAucStages.RunStage | baselines/icml18_fsauc/auc_python/auc_fs.py:64-114 | the inner loop's result is the step chain StageRun after n0 steps, its iterates StagePath |
| FsAucStages.Stage | baselines/icml18_fsauc/auc_python/auc_fs.py:64-136 | a stage and its retuning is EndStage of the step chain; with n0 > 0 the new average is the mean of the stage's iterates, all in the box |
| FsAucStages.Stages | baselines/icml18_fsauc/auc_python/auc_fs.py:64-136 | each stage runs from where the previous one ended; after k stages the state is valid and k n0 examples have been visited |
| FsAucStages.Halved | baselines/icml18_fsauc/auc_python/auc_fs.py:115 | halving k times divides by 2^k |
| FsAucStages.StageRetune | baselines/icml18_fsauc/auc_python/auc_fs.py:115-130 | one stage halves paraR, does not grow eta, and with no step leaves the average alone |
| FsAucStages.StagesRetune | baselines/icml18_fsauc/auc_python/auc_fs.py:64-136 | after k stages paraR is the initial radius halved k times, eta is at most its initial value, and with n0 = 0 the average is zero |
| FsAucStages.StagesFit | baselines/icml18_fsauc/auc_python/auc_fs.py:58-68 | with n0 = n / m, stage k reads only examples below (k + 1) n0 <= n, so `ids[t]` is in bounds |
| FsAucStages.StagesFitLast | baselines/icml18_fsauc/auc_python/auc_fs.py:58-68 | all m stages of n0 = n / m steps fit in the n examples |
| FsAucStages.NextStage | baselines/icml18_fsauc/auc_python/auc_fs.py:64-136 | one pass of the stage loop takes the fold Stages from k to k + 1 stages, the new average being the mean of the stage's iterates |
| FsAucStages.RunStages | baselines/icml18_fsauc/auc_python/auc_fs.py:50-136 | the stage loop computes the fold Stages from the initial state; with n0 > 0 its average is the mean of the last stage's iterates, each in the box |
| FsAucStages.Trained | baselines/icml18_fsauc/auc_python/auc_fs.py:42-136 | the state of the main path, m stages of n / m steps, is valid and has visited m (n / m) examples |
| FsAucStages.TrainedZero | baselines/icml18_fsauc/auc_python/auc_fs.py:63-114 | with fewer examples than stages no step is taken and the returned average is zero |
| FsAucStages.TrainedWeights | baselines/icml18_fsauc/auc_python/auc_fs.py:50-137 | with R > 0 and m > 0 stages, the result is the w-part of the average of the fold Trained, inside the L1 ball of radius R; zero when no stage has a step; otherwise the average is the mean of the last stage's iterates, each in the box |
| FsAucStages.AucFs | baselines/icml18_fsauc/auc_python/auc_fs.py:42-137 | m = 0 fails (division by zero); m < 0, or n0 = 0, gives the zero vector; R <= 0 with a step fails in the projection; otherwise the result is the w-part of the average of the fold Stages, inside the L1 ball of radius R, and the mean of the last stage's iterates, each in the box |
| GetIdx.GetIdx | baselines/icml18_fsauc/auc_python/get_idx.py:19-24 | the array has nData * nPass entries and holds the shuffles laid end to end |
| GetIdx.PermutationLengths | baselines/icml18_fsauc/auc_python/get_idx.py:22 | each shuffle of 0 .. n - 1 has n entries |
| GetIdx.ConcatLength | baselines/icml18_fsauc/auc_python/get_idx.py:20 | nPass blocks of nData entries make nData * nPass entries |
| GetIdx.ConcatPrefix | baselines/icml18_fsauc/auc_python/get_idx.py:21-22 | the first i blocks are a prefix of the whole array |
| GetIdx.ConcatBlock | baselines/icml18_fsauc/auc_python/get_idx.py:21-22 | block i, entries i n .. (i + 1) n, is the i-th shuffle |
| GetIdx.ConcatInRange | baselines/icml18_fsauc/auc_python/get_idx.py:22 | every entry is a row index below nData |
| GetIdx.ConcatCounts | baselines/icml18_fsauc/auc_python/get_idx.py:20-24 | every index below nData occurs exactly nPass times and nothing else occurs (so nPass = 0 gives an empty array) |
| GetIdx.RangeCount | baselines/icml18_fsauc/auc_python/get_idx.py:22 | 0 .. n - 1 holds each x below n once and nothing else |
| SparseKernels.Densify | algo_wrapper/auc_opt_methods.c:28-33 | the dense vector a sparse row stands for has length n |
| SparseKernels.DensifyEntry | algo_wrapper/auc_opt_methods.c:28-33 | entry j of the dense vector is the sum of the values listed at j; an unlisted position holds 0 |
| SparseKernels.SparseDotIsDot | algo_wrapper/auc_opt_methods.c:19-25 | the sparse inner product equals the dense inner product with the densified row |
| SparseKernels.SparseDot | algo_wrapper/auc_opt_methods.c:19-25 | the accumulator loop returns the sum over the x_len listed entries of value times the dense entry at its position |
| SparseKernels.SparseDaxpy | algo_wrapper/auc_opt_methods.c:28-33 | every entry of y grows by alpha times the values listed at its position: repeats accumulate, and unlisted entries keep their value |
| Select.Swap | algo_wrapper/auc_opt_methods.c:64-77 | two entries are exchanged and the multiset is kept |
| Select.ScanForward | algo_wrapper/auc_opt_methods.c:70 | the scan stops at the first entry not above t, which exists at or before j |
| Select.ScanBackward | algo_wrapper/auc_opt_methods.c:71 | the scan stops at the first entry not below t, which exists at or after i |
| Select.CrossingStep | algo_wrapper/auc_opt_methods.c:68-72 | an exchange and the two scans keep the partition-loop invariant |
| Select.CrossingDone | algo_wrapper/auc_opt_methods.c:73-78 | once i and j cross, placing t at j or j + 1 finishes the partition |
| Select.SwapWithin | algo_wrapper/auc_opt_methods.c:64-77 | an exchange inside [l, r] keeps a rearrangement of [l, r] one |
| Select.ParkPivot | algo_wrapper/auc_opt_methods.c:56-67 | t is the old a[k], it is parked at l or r, and the loop invariant holds at the start |
| Select.Cross | algo_wrapper/auc_opt_methods.c:68-72 | the partition loop ends with i and j crossed and the invariant kept, having only rearranged [l, r] |
| Select.PlacePivot | algo_wrapper/auc_opt_methods.c:73-78 | t ends at j1, with entries before it at least t and entries after it at most t |
| Select.Partition | algo_wrapper/auc_opt_methods.c:56-78 | one partition of [l, r] about the old a[k]: larger entries first, smaller after, only [l, r] rearranged |
| Select.SliceMultiset | algo_wrapper/auc_opt_methods.c:36-90 | a rearrangement of [lo, hi] permutes the entries of that slice |
| Select.BoundsKept | algo_wrapper/auc_opt_methods.c:36-90 | a rearrangement of [lo, hi] keeps any bound that held for all of its entries |
| Select.PermutesWithinTrans | algo_wrapper/auc_opt_methods.c:39-89 | rearrangements of the same range compose |
| Select.PermutesWithinWiden | algo_wrapper/auc_opt_methods.c:54 | a rearrangement of the sampled sub-range is one of the whole range |
| Select.NarrowStep | algo_wrapper/auc_opt_methods.c:83-88 | one round narrows [l, r] around k and keeps the selection-loop invariant |
| Select.NarrowedDone | algo_wrapper/auc_opt_methods.c:39 | when the range is empty, position k holds the k-th largest of the range |
| Select.FloydRivestSelect | algo_wrapper/auc_opt_methods.c:36-90 | only [l, r] is rearranged; entries before k in it are at least a[k] and entries after k at most a[k] (descending order, despite the "smallest" comment) |
| HardThreshold.CountAbove | algo_wrapper/auc_opt_methods.c:97-98 | at most |s| entries exceed tau |
| HardThreshold.CountAtLeast | algo_wrapper/auc_opt_methods.c:97-98 | at most |s| entries reach tau |
| HardThreshold.CountNonzero | algo_wrapper/auc_opt_methods.c:100-108 | at most |s| entries are nonzero |
| HardThreshold.CountConcat | algo_wrapper/auc_opt_methods.c:97-98 | the counts of a concatenation are the sums of the counts |
| HardThreshold.CountsOfPermutation | algo_wrapper/auc_opt_methods.c:97-98 | the counts depend only on the multiset, so selection does not change them |
| HardThreshold.KthLargestUnique | algo_wrapper/auc_opt_methods.c:97-98 | the k-th largest value is unique |
| HardThreshold.SelectedIsKth | algo_wrapper/auc_opt_methods.c:97-98 | an array partitioned at k - 1 holds its k-th largest entry there |
| HardThreshold.KthIsSorted | algo_wrapper/auc_opt_methods.c:97-98 | tau is the k-th largest exactly when it is entry k - 1 of the descending sort |
| HardThreshold.TieBeforeIff | algo_wrapper/auc_opt_methods.c:99-107 | `flag` is set exactly when some earlier entry has magnitude tau |
| HardThreshold.Thresholded | algo_wrapper/auc_opt_methods.c:100-108 | the second loop keeps the length |
| HardThreshold.ThresholdedEntries | algo_wrapper/auc_opt_methods.c:100-108 | entries above tau are kept and entries below it zeroed; of the entries at tau, the first is kept and every later one zeroed |
| HardThreshold.NonzerosLeft | algo_wrapper/auc_opt_methods.c:100-108 | the nonzeros left are the entries above tau plus the first tie, when tau > 0 |
| HardThreshold.AtMostK | algo_wrapper/auc_opt_methods.c:92-111 | at most k nonzeros remain; fewer exactly when tau is 0 or fewer than k - 1 entries exceed tau |
| HardThreshold.TiesExist | algo_wrapper/auc_opt_methods.c:97-98 | more entries at or above tau than above it means one equals tau |
| HardThreshold.ThresholdedNormSq | algo_wrapper/auc_opt_methods.c:100-108 | zeroing entries never increases the squared norm |
| HardThreshold.Magnitudes | algo_wrapper/auc_opt_methods.c:93-96 | the fresh buffer holds the magnitudes of the first n entries |
| HardThreshold.ApplyThreshold | algo_wrapper/auc_opt_methods.c:99-108 | the first n entries become their thresholded version and the rest are untouched |
| HardThreshold.HardThresholding | algo_wrapper/auc_opt_methods.c:92-111 | returns 0; tau is the k-th largest magnitude; arr[0..n) is thresholded at tau and arr[n..] untouched |
| Solam.Features | algo_wrapper/auc_opt_methods.c:162 | the dense feature vector of a dense or packed sparse row has nDim entries |
| Solam.RowScore | algo_wrapper/auc_opt_methods.c:170 | vt_dot, from `cblas_ddot` or `_sparse_dot`, is the score of the row's features |
| Solam.GradientBuffer | algo_wrapper/auc_opt_methods.c:169-175 | v_p_dv is the row scaled by the weight, followed by the two offset entries |
| Solam.ScaledRow | algo_wrapper/auc_opt_methods.c:169-173 | a fresh zeroed buffer with the row times the weight added into its first nDim entries |
| Solam.DensifyPadded | algo_wrapper/auc_opt_methods.c:312 | scattering into a buffer with two extra slots leaves the first nDim as in the plain dense row |
| Solam.InitialOnSphere | algo_wrapper/auc_opt_methods.c:140-145 | the initial weights lie on the sphere of radius sr |
| Solam.StepSize | algo_wrapper/auc_opt_methods.c:164 | n_ga = sc / sqrt(n_t) is positive |
| Solam.RateStep | algo_wrapper/auc_opt_methods.c:165-181 | the new rate times the new clock counts one more than before exactly for a positive row |
| Solam.RateInUnit | algo_wrapper/auc_opt_methods.c:165-181 | a rate that counts at most t of t rows lies in [0, 1] |
| Solam.GradientIsTwiceFsAuc | algo_wrapper/auc_opt_methods.c:171-193 | the SOLAM gradient is exactly twice the FSAUC gradient at the same point and rate |
| Solam.FactorsDouble | algo_wrapper/auc_opt_methods.c:171-193 | each factor the drivers write is twice the FSAUC coefficient |
| Solam.StepIsFsAucDescent | algo_wrapper/auc_opt_methods.c:176-193 | for SOLAM and STOHT-AM, the point before projection is the FSAUC descent step of size 2 n_ga |
| Solam.DescentMatches | algo_wrapper/auc_opt_methods.c:176-179 | doubling the gradient and halving the step size gives the same candidate |
| Solam.Project | algo_wrapper/auc_opt_methods.c:196-205 | each offset is lowered to sr only from above and otherwise unchanged |
| Solam.ProjectInRegion | algo_wrapper/auc_opt_methods.c:196-205 | the projection lands in the region: Euclidean ball of radius sr, offsets at most sr |
| Solam.ProjectRescales | algo_wrapper/auc_opt_methods.c:196-199 | the weights are scaled by a factor in (0, 1], and land on the sphere when it is below 1 |
| Solam.ProjectFactor | algo_wrapper/auc_opt_methods.c:196-199 | the factor is 1 inside the ball and sr / norm outside it |
| Solam.RescaledNorm | algo_wrapper/auc_opt_methods.c:196-199 | scaling by that factor lands inside the ball, on the sphere when rescaled |
| Solam.RescaleOntoSphere | algo_wrapper/auc_opt_methods.c:198 | scaling by sr / norm puts the weights on the sphere |
| Solam.ProjectFixesRegion | algo_wrapper/auc_opt_methods.c:196-205 | points of the region are left unchanged |
| Solam.ProjectIdempotent | algo_wrapper/auc_opt_methods.c:196-205 | projecting twice is projecting once |
| Solam.ClipDual | algo_wrapper/auc_opt_methods.c:207-212 | the dual has magnitude at most 2 sr; it is unchanged inside the bound and sign(alpha) 2 sr outside |
| Solam.SparsifyKeeps | algo_wrapper/auc_opt_methods.c:518 | thresholding with length n_dim keeps the offsets and the region, and leaves at most `para_s` nonzero weights |
| Solam.ThresholdKeeps | algo_wrapper/auc_opt_methods.c:518 | the same holds for any threshold that is the k-th largest weight magnitude |
| Solam.Average | algo_wrapper/auc_opt_methods.c:214-218 | the running average keeps the length |
| Solam.Next | algo_wrapper/auc_opt_methods.c:161-229 | one step keeps the state shapes and advances the clock |
| Solam.Update | algo_wrapper/auc_opt_methods.c:196-229 | the rest of a step keeps the state shapes and advances the clock |
| Solam.NextInRegion | algo_wrapper/auc_opt_methods.c:196-212 | after every step the iterate is in the region and the dual within 2 sr, whatever the state before |
| Solam.UpdateInRegion | algo_wrapper/auc_opt_methods.c:196-212 | the same, once the gradient is known |
| Solam.NextFacts | algo_wrapper/auc_opt_methods.c:164-229 | a step counts a positive row in p t, adds n_ga to the total weight, folds the pre-step iterate and dual into the weighted averages, and keeps their bounds |
| Solam.UpdateFacts | algo_wrapper/auc_opt_methods.c:196-229 | the same facts for the rest of a step |
| Solam.StepAverages | algo_wrapper/auc_opt_methods.c:213-218 | scaled back by the new total weight, the average is the old weighted sum plus n_ga times the pre-step iterate, and stays in the region |
| Solam.StepScalars | algo_wrapper/auc_opt_methods.c:214-222 | the rate counts the positive rows, and the dual average is the weighted sum of duals and stays within 2 sr |
| Solam.StepFactsJoin | algo_wrapper/auc_opt_methods.c:213-229 | the separate step facts together give StepFacts |
| Solam.AverageWeights | algo_wrapper/auc_opt_methods.c:216-218 | the weighted mean, scaled back by its total weight, is the old weighted sum plus n_ga times the pre-step iterate |
| Solam.AverageEntry | algo_wrapper/auc_opt_methods.c:216-218 | entry by entry, the same identity |
| Solam.AverageIsConvex | algo_wrapper/auc_opt_methods.c:216-218 | the two averaging weights are non-negative and sum to 1, and the first step takes the new point alone |
| Solam.AverageInRegion | algo_wrapper/auc_opt_methods.c:216-218 | the average of points of the region is in the region |
| Solam.MixInRegion | algo_wrapper/auc_opt_methods.c:216-218 | a convex combination of points of the region is in the region |
| Solam.AverageDual | algo_wrapper/auc_opt_methods.c:220 | the dual average, scaled back, is the old sum plus n_ga alpha, and stays within 2 sr |
| Solam.DualBound | algo_wrapper/auc_opt_methods.c:220 | a weighted mean of duals within 2 sr is within 2 sr |
| Solam.GradientAt | algo_wrapper/auc_opt_methods.c:165-193 | the gradient the drivers form on a row is the SOLAM gradient at the row's features |
| Solam.Step | algo_wrapper/auc_opt_methods.c:161-229 | the loop body on one row computes Next on the row's features |
| Solam.Finish | algo_wrapper/auc_opt_methods.c:195-229 | the step after the gradient computes Update |
| Solam.Constrain | algo_wrapper/auc_opt_methods.c:840-856 | the projection followed, for the thresholding variants, by `_hard_thresholding` |
| Solam.Threshold | algo_wrapper/auc_opt_methods.c:518 | `_hard_thresholding` on a buffer of the candidate computes Sparsify |
| Solam.ThresholdParts | algo_wrapper/auc_opt_methods.c:518 | thresholded weights with untouched offsets are ThresholdWeights |
| Solam.RepeatEmpty | algo_wrapper/auc_opt_methods.c:157-161 | nothing is visited exactly when there are no passes or no rows |
| Solam.RepeatNext | algo_wrapper/auc_opt_methods.c:157-161 | one more pass visits the order once more |
| Solam.PositiveCount | algo_wrapper/auc_opt_methods.c:165 | the positive rows seen never outnumber the rows seen |
| Solam.WeightedSum | algo_wrapper/auc_opt_methods.c:216-218 | the step-size-weighted sum of the iterates has their length |
| Solam.InitialTracked | algo_wrapper/auc_opt_methods.c:134-148 | the initial state satisfies the drivers' invariant with nothing seen |
| Solam.TrackedStep | algo_wrapper/auc_opt_methods.c:161-229 | a step keeps the invariant, recording the row, its pre-step iterate, dual and step size |
| Solam.TrackedRate | algo_wrapper/auc_opt_methods.c:222 | p t stays the number of positive rows seen |
| Solam.TrackedTotal | algo_wrapper/auc_opt_methods.c:214 | the total weight stays the sum of the step sizes |
| Solam.TrackedWeights | algo_wrapper/auc_opt_methods.c:216-218 | the scaled average stays the step-size-weighted sum of the pre-step iterates |
| Solam.TrackedDuals | algo_wrapper/auc_opt_methods.c:220 | the scaled dual average stays the step-size-weighted sum of the pre-step duals |
| Solam.TrackedBounds | algo_wrapper/auc_opt_methods.c:196-212 | every recorded iterate is in the region, every dual within 2 sr, every step size positive |
| Solam.TrainStep | algo_wrapper/auc_opt_methods.c:161-229 | a Step on row id is Next on that row, keeps the drivers' invariant, and extends the run from the start by row id, recording its pre-step iterate and step size |
| Solam.TrackedOutput | algo_wrapper/auc_opt_methods.c:233-235 | after the loops the average lies in the region and, scaled by the total weight, is the weighted sum of the pre-step iterates |
| Solam.SplitOffsets | algo_wrapper/auc_opt_methods.c:233-235 | the buffer is the weights followed by the two offsets |
| Solam.DataPrefix | algo_wrapper/auc_opt_methods.c:161-162 | the rows a prefix of the visit order names are valid |
| Solam.DataAppend | algo_wrapper/auc_opt_methods.c:161-162 | appending a valid row to the visit order keeps every named row valid |
| Solam.Run | algo_wrapper/auc_opt_methods.c:157-230 | the state after one Next per visited row, in order; it has taken one step per row |
| Solam.RunSome | algo_wrapper/auc_opt_methods.c:157-230 | a run over a non-empty visit order has taken one step per row |
| Solam.RunLast | algo_wrapper/auc_opt_methods.c:161-229 | the last step of a run is Next on the last row from the run before it |
| Solam.RunExtend | algo_wrapper/auc_opt_methods.c:161-229 | the run over the rows seen and then row id is Next on row id from the run over the rows seen |
| Solam.Iterates | algo_wrapper/auc_opt_methods.c:216-218 | the pre-step iterates of a run, one per row visited |
| Solam.IteratesAt | algo_wrapper/auc_opt_methods.c:216-218 | entry i is the iterate the run reaches after its first i rows |
| Solam.IteratesExtend | algo_wrapper/auc_opt_methods.c:216-218 | one more row appends the iterate its step starts from |
| Solam.StepSizes | algo_wrapper/auc_opt_methods.c:163 | the step sizes of n steps, one per step |
| Solam.StepSizesAt | algo_wrapper/auc_opt_methods.c:163 | entry i is n_ga at n_t = t0 + i + 1 |
| Solam.OnRunStart | algo_wrapper/auc_opt_methods.c:134-148 | before any row, the run is its start, with nothing recorded |
| Solam.OnRunStep | algo_wrapper/auc_opt_methods.c:161-229 | one step appends the run's pre-step iterate and its step size to the record |
| Solam.Output | algo_wrapper/auc_opt_methods.c:233-235 | the results are the averaged iterate split into nDim weights and the two offsets |
| Solam.Passes | algo_wrapper/auc_opt_methods.c:157-232 | nPass passes visit the order nPass times; the state is Run from st0 over the rows visited, with its iterates and step sizes, and the invariant holds |
| Solam.Pass | algo_wrapper/auc_opt_methods.c:161-230 | one pass continues the run by the order, once, and keeps the invariant |
| Solam.Train | algo_wrapper/auc_opt_methods.c:134-235 | the rows visited are the order repeated nPass times; the final state is Run from Initial over them; the result is None exactly when no step ran and otherwise that state's averaged iterate (Output); the recorded iterates and step sizes are Iterates and StepSizes of that run; the result lies in the region and is the step-size-weighted mean of those iterates, and p t counts the positive rows |
| Drivers.DenseRows | algo_wrapper/auc_opt_methods.c:162 | the dense buffer yields one row of nDim features per label |
| Drivers.DenseRowAt | algo_wrapper/auc_opt_methods.c:162 | row r is the nDim entries from r * nDim |
| Drivers.PackedRow | algo_wrapper/auc_opt_methods.c:298-300 | row j has s_len = x_indices[j * max_nonzero] entries, positions below nDim |
| Drivers.PackedRows | algo_wrapper/auc_opt_methods.c:297-300 | rows 0 .. num_tr - 1 of the packed buffers, in stored order |
| Drivers.AlgoDense | algo_wrapper/auc_opt_methods.c:114-245 | `algo_solam`, `algo_stoht_am` and `algo_da_solam_func` visit rand_id[0 .. num_tr) nPass times; the result is none when no step ran and otherwise the Output of Run from Initial over the dense rows in that order; it is in the region and is the step-size-weighted mean of that run's pre-step iterates |
| Drivers.AlgoSolamSparse | algo_wrapper/auc_opt_methods.c:247-412 | `algo_solam_sparse` visits rows 0 .. num_tr - 1 in stored order nPass times; the result is the Output of Run over the packed rows, with the same guarantees |
| Spam.DispatchAsWritten | algo_wrapper/auc_opt_methods.c:974-985 | as written, a nonzero is_sparse selects the dense kernel |
| Spam.Dispatch | algo_wrapper/auc_opt_methods.c:974-985 | the intended dispatch: a nonzero is_sparse selects the sparse kernel |
| Spam.DispatchInverted | algo_wrapper/auc_opt_methods.c:974-985 | the written dispatch sends every input to the other kernel; sparse data (is_sparse = 1) reaches the dense one |
| Spam.DenseSpam | algo_wrapper/auc_opt_methods.c:916-958 | `_algo_spam` returns true and writes nothing into results |
| Spam.SparseSpam | algo_wrapper/auc_opt_methods.c:960-972 | `_algo_spam_sparse` returns true |
| Spam.AlgoSpam | algo_wrapper/auc_opt_methods.c:974-985 | the corrected dispatcher runs the kernel Dispatch names and reports success |
| SparseData.Picked | test_sparse.py:35 | the rows picked are tr_ind[sub_tr_ind[i]], in order |
| SparseData.Gather | test_sparse.py:32-48 | one offset, length and label per row picked, and value and index buffers of the same length |
| SparseData.GatherRows | test_sparse.py:36-47 | gathered row i has the length and the label of the row it came from |
| SparseData.GatherOffsets | test_sparse.py:34-43 | the offsets are the exclusive prefix sums of the lengths, and both buffers hold the sum of the lengths |
| SparseData.PrefixSumSteps | test_sparse.py:34-43 | the first offset is 0 and each next one is the previous offset plus the previous length |
| SparseData.AppendKeeps | test_sparse.py:38-42 | appending a row leaves the rows already gathered in place |
| SparseData.AppendNew | test_sparse.py:38-42 | the appended row sits at the old end of both buffers |
| SparseData.GatherLast | test_sparse.py:35-43 | a gather is the gather of all rows but the last, with the last row appended |
| SparseData.GatherSlicesLast | test_sparse.py:38-39 | the last gathered row holds the slices of the last row picked |
| SparseData.GatherSlices | test_sparse.py:36-39 | the slice of gathered row i is the slice of its source row, in both buffers |
| SparseData.GetDataByInd | test_sparse.py:32-48 | the loop with its running prev_posi builds exactly the gather of the rows picked |
| SparseData.Values | test_sparse.py:53 | a weight vector without NaN or infinity is a vector of reals of the same length |
| SparseData.RowFeatures | test_sparse.py:58-62 | the dense features of a stored row |
| SparseData.RowScores | test_sparse.py:57-62 | one score per row picked |
| SparseData.RowScore | test_sparse.py:59-62 | summing value times weight over a row's slices gives its score |
| SparseData.GatheredScores | test_sparse.py:57-62 | one score per gathered row |
| SparseData.GatheredRow | test_sparse.py:59-62 | gathered row i lies in the buffers and lists positions of the weights |
| SparseData.GatheredScoresMatch | test_sparse.py:54-62 | scored on the gathered buffers, each row gets the score of the row it came from |
| SparseData.ScoreRows | test_sparse.py:56-62 | y_pred_wt[i] is the sum over gathered row i of value times weight |
| SparseData.PredAuc | test_sparse.py:51-63 | a NaN or infinity in wt gives the 0.0 outcome and nothing else does; otherwise the labels of the rows picked and their scores are handed to the AUC routine |
| ModelSelect.Mean | test_high_dim_data.py:82 | no mean exactly for an empty array; otherwise the mean times the count is the sum |
| ModelSelect.Pick | test_high_dim_data.py:80-90 | the record held is one of the records |
| ModelSelect.PickIsFirstMax | test_high_dim_data.py:80-90 | the record held is the first with the largest mean AUC, provided that mean is above 0.0; with none above 0.0, nothing is held and the mean stays 0.0 |
| ModelSelect.SelectBest | test_high_dim_data.py:80-90 | the loop holds the value and mean of Pick's choice |
| ModelSelect.GetModelAsWritten | test_sparse.py:234-242 | as written, only the first entry can be selected, and only when the one shared mean is above 0.0; a missing auc_arr fails |
| ModelSelect.SecondEntryCanWin | test_sparse.py:236-240 | with per-entry AUCs, a later entry with a larger mean is selected |
| ModelSelect.GetModelPara | test_high_dim_data.py:77-112 | the listed methods read positions 5 and 6, or 5, 6 and 7, of the selected parameters; KeyError when nothing was selected; IndexError for a short tuple; any other method gets the whole selection |
| Metrics.AsSet | test_simu.py:103 | order and repeats are dropped |
| Metrics.PreRecFm | test_simu.py:98-111 | all three scores lie in [0, 1]; precision is 0 for empty predictions and recall is 0 for empty truth; the F-measure is positive exactly when both are |
| Metrics.PreRecFmOfSets | test_simu.py:103 | inputs with the same members score the same |
| Metrics.SubsetCard | test_simu.py:105-107 | the intersection has no more members than either set |
| Metrics.RatioBounds | test_simu.py:104-108 | a guarded ratio of a part to its whole lies in [0, 1], and is positive exactly when the part is nonempty |
| Metrics.F1Bounds | test_simu.py:109-110 | the F-measure lies in [0, 1], is positive exactly when both scores are, and lies between min and max of the two |
| Metrics.F1Between | test_simu.py:110 | the harmonic mean of two values lies between them |
| Metrics.Threshold | test_simu.py:179 | weights of magnitude below 0.001 are zeroed, the others kept |
| Metrics.Support | test_simu.py:180 | the nonzero positions, ascending |
| Metrics.SolamScores | test_simu.py:179-191 | an empty subset raises ZeroDivisionError; precision is positive exactly when the support meets the subset, and 0 for an empty support; every large weight is in the support |
| Metrics.DistinctCard | test_simu.py:181 | a list without repeats has as many members as entries |
| Metrics.SolamMatchesPreRecFm | test_simu.py:179-191 | for a nonempty subset without repeats, the scores are those of `node_pre_rec_fm` with the subset as truth and the support as prediction |
| Metrics.SolamRecallCountsRepeats | test_simu.py:186 | recall divides by the list length: subset [0, 0] with support {0} gives recall 1/2, against 1 from the set-based scores |

## Left out

- Floating point: all arithmetic is over `real`. Rounding, overflow and NaN/Inf propagation are not modelled. The NaN/Inf guard of `pred_auc` is the `NotFinite` case of an abstract `Double`. The NaN mean of an empty `auc_arr` is a `None` mean, which no comparison accepts.
- `sqrt`, `log`, `log2` and `exp` are not defined. `sqrt` and `log` are parameters. `sqrt` is assumed to be the non-negative square root; `log(12 / delta)` is assumed non-negative.
- The stage count formula of `auc_fs` (line 58) is not modelled; `m` is an input.
- `time_s`, `x_te`, `y_te` and `options` entries other than `ids`, `eta` and `beta` are unused by `auc_fs` and are left out. So is the module-level experiment script of `auc_fs.py`.
- FsAucStages.AucFs: requires every entry of `ids` to name a row. Python would wrap a negative index or raise on one that is too large.
- Randomness: the shuffles of `get_idx` (`np.random.permutation`) are an input, constrained only to be permutations.
- `roc_auc_score` is library code and is not part of this model. `SparseData.PredAuc` returns the labels and scores it would be given.
- SparseData.GetDataByInd: requires every picked row to lie inside the buffers. Python would silently clamp an out-of-range slice, and numpy would wrap negative indices.
- SparseData.PredAuc: requires every listed feature to be a position of `wt`. Python raises IndexError otherwise.
- Select.FloydRivestSelect: the sampling branch for ranges longer than 600 (lines 40-55) computes its sub-range from `log`, `exp` and `sqrt`. It is modelled as a parameter `sample` that returns a sub-range inside the current one, containing k and shorter than it. Which pivot it yields is not modelled.
- HardThreshold.HardThresholding: requires 1 <= k <= n. Other values index `temp_arr` out of bounds in C, which is undefined behaviour.
- Solam.Train: requires positive sr and sc. With sc <= 0 the step size is not positive, and with sr <= 0 the feasible region is empty.
- Drivers.AlgoDense: when no step runs (nPass < 1 or num_tr = 0), the C drivers copy out a buffer they never wrote. The model returns no result instead of that garbage.
- Drivers.AlgoSolamSparse: the count in slot 0 of each packed row is required to fit the buffers and to name feature positions below n_dim. C does not check this.
- `algo_stoht_am_sparse` (lines 561-750) is left out. It processes rows in blocks of `block_size` and sums the block's gradients; only its `_hard_thresholding` call shape (line 703) is shared with the modelled variants.
- The three dense drivers are one method (`Drivers.AlgoDense`) with a variant. The differences between them are covered:
  - STOHT-AM and DA-SOLAM threshold after projecting;
  - DA-SOLAM projects the scaled dual average instead of the gradient step.

  The model does not claim that the three C functions differ nowhere else.
- The `if (false)` debug `printf` blocks, `openblas_set_num_threads`, `malloc` and `free`, and the memory they leak are left out.
- `main_wrapper.c` is CPython/NumPy argument marshalling and is not part of this model.
- Spam.SpamResults.constructor only stands for the caller's zeroed result buffers. Neither SPAM kernel writes to them.
- ModelSelect.GetModelAsWritten: the walk over the keys of `ms[(run_id, fold_id)][method]` is a sequence of entries. Loading the pickle and the outer lookups are left out. The only KeyError modelled is the missing `auc_arr`.
- ModelSelect.GetModelPara: every record is assumed to hold `para` and `auc_arr`. Unpickling from disk is left out.
- The cross-validation sweeps, `multiprocessing` fan-out, pickle/CSV/.mat I/O and plotting in the scripts are orchestration and are left out. This includes the `cv_*`, `run_*` and `show_*` functions, the rest of `test_*`, and `cv_simu_01.py`, `test_on_00_simu.py`, `test_high_dim_colon.py` and `cv_low_dim_bc.py`.
- The convergence and AUC-quality claims of the algorithms are statistical results about the data and are not modelled.

## Findings

| source | as written | input that shows it | evidently intended | confidence | as-written member | corrected member |
|---|---|---|---|---|---|---|
| algo_wrapper/auc_opt_methods.c:974-985 | a nonzero `is_sparse` runs the dense kernel `_algo_spam` on `x_tr`, and zero runs the sparse one; the branch comments are swapped too | `is_sparse = 1`: sparse data reaches the dense kernel | sparse data goes to the sparse kernel, dense data to the dense one | high; not executed | Spam.DispatchInverted | Spam.AlgoSpam |
| test_sparse.py:236-242 | each iteration takes the mean of the same `ms[...][method]['auc_arr']` instead of the entry's own AUCs, so only the first key can be selected | two entries whose own AUCs are [0.5] and [0.9]: the corrected selection picks the second, while the code as written can only return the first | keep the entry with the largest mean of its own AUCs, as `get_model_para` does | medium; not executed | ModelSelect.GetModelAsWritten | ModelSelect.SelectBest |
