# DSN training-loop bookkeeping in Dafny

This project models the control and bookkeeping skeleton of
`dsn/train_dsn.py`. The file trains a degenerate solution network (DSN) by
augmented-Lagrangian (AL) optimisation.

- `train_dsn` allocates the diagnostic arrays. It then runs up to `k_max`
  epochs of `max_iters` gradient steps each.
- Every `check_rate` global steps it logs diagnostics into the next slot,
  `check_it`.
- It records every step's gradient row in a ring buffer.
- At the end of each epoch it updates the Lagrange multiplier `lambda` by
  `c * R`. It may quadruple the penalty `c`. For a `feasible` behaviour it
  stops early once the predicate holds.
- `initialize_nf` swaps in the feasible region of a bounded behaviour. It
  retries training with a doubling step budget until a run ends on the
  feasible set, then restores the behaviour.

Everything numerical (TensorFlow session results, the residual `R`, the
Welch t-test `(t, p)`, the uniform draw `u`, the feasibility predicate's
inputs) comes from an `Oracle`: `step(s)` for global step `s`, and
`epoch(k)` for the end of epoch `k`.

Files:
- `types.dfy` (module `DsnTypes`): vectors, snapshots, oracles, behaviours.
- `schedule.dfy` (module `AlSchedule`): the specification functions and
  the lemmas about them.
  - Check steps and slot counts.
  - The ring buffer.
  - The `c`/`lambda` sequences.
  - Epoch counts and early stopping.
- `trainer.dfy` (module `TrainDsn`): class `Trainer`. It holds the
  preallocated arrays and the loop state of `train_dsn`. Its methods are
  proved against the functions of `AlSchedule`.
- `init_nf.dfy` (module `FeasibilityInit`): class `System` and the retry
  loop of `initialize_nf`.

The run's failure modes are results, not preconditions:
- `DiagnosticIndexOutOfRange`: numpy raises IndexError on `Hs[check_it]`
  when the check steps outnumber the allocated slots.
- `CurIndUnbound`: the final save reads `cur_ind`, which is never bound
  when `k_max == 0` or `max_iters == 0`.

The main consequence, proved in `AlSchedule.DiagnosticLogOverflows`: the
arrays hold every check step of a full run exactly when `check_rate == 1`
or `k_max * (max_iters % check_rate) + 1 < check_rate`. For example,
`k_max = 2`, `max_iters = 150`, `check_rate = 100` allocates 3 slots and
writes slot 3 (`AlSchedule.OverflowExample`). `initialize_nf` uses budgets
that are multiples of `check_rate`, so its runs never raise
(`FeasibilityInit.TrainFeasible`).

## Model

| member | source | states |
|---|---|---|
| TrainDsn.Trainer.constructor | dsn/train_dsn.py:194-234 | There are `k_max * (max_iters // check_rate) + 1` diagnostic slots. The gradient log has `2 * COST_GRAD_LAG` (200) rows, or one per slot in debug mode (`GradLogLen`). There are `k_max + 1` snapshot slots, or one per slot in debug mode. Every array is zero, `c == 10 ** c_init_order`, `lambda == 0`, `cs == lambdas == []`, `epoch_inds == [0]` and `check_it == 0`. |
| AlSchedule.CheckStepsExact | dsn/train_dsn.py:255-368 | After steps `1..n`, slot 0 holds step 0. The other used slots hold exactly the steps `s` with `(s + 1) % check_rate == 0`, in increasing order. |
| AlSchedule.CheckStepsCount | dsn/train_dsn.py:295-304 | After steps `1..n`, `check_it` is `1 + n` when `check_rate == 1`, and `1 + (n + 1) // check_rate` otherwise. |
| AlSchedule.CheckStepsPrefix | dsn/train_dsn.py:366-368 | Running more steps only appends slots. |
| AlSchedule.DiagnosticSlotsNeeded | dsn/train_dsn.py:195 | A full run of `k_max * max_iters` steps needs the allocated slots plus `(k_max * (max_iters % check_rate) + 1) // check_rate` more when `check_rate >= 2`, and exactly the allocated slots when `check_rate == 1`. |
| AlSchedule.DiagnosticLogFilled | dsn/train_dsn.py:195 | When `max_iters % check_rate == 0`, a full run uses every slot and needs no more. |
| AlSchedule.DiagnosticLogOverflows | dsn/train_dsn.py:195 | A full run needs more slots than are allocated if and only if `check_rate >= 2` and `k_max * (max_iters % check_rate) + 1 >= check_rate`. |
| AlSchedule.OverflowExample | dsn/train_dsn.py:303 | `k_max = 2`, `max_iters = 150`, `check_rate = 100` allocates 3 slots, but step 299 writes slot 3. |
| AlSchedule.RunFits | dsn/train_dsn.py:303-304 | When `max_iters % check_rate == 0`, the check steps of any `e <= k_max` epochs fit in the slots. |
| AlSchedule.RingRowsDistinct | dsn/train_dsn.py:374 | Two global steps less than the buffer length apart use different rows. |
| AlSchedule.RingStep | dsn/train_dsn.py:374 | The step a ring row holds is at most the last step, less than one buffer length behind it, and maps to that row. |
| AlSchedule.RingStepNext | dsn/train_dsn.py:374-378 | Writing step `s` at row `s % len` makes `s` the latest step of that row. Every other row keeps its latest step. |
| TrainDsn.Trainer.LogGrads | dsn/train_dsn.py:374-378 | After step `s`, every ring row holds the gradient row (and, in debug mode, the parameter row) of the latest step `<= s` that maps to it. Rows no step has reached are still zero. |
| TrainDsn.Trainer.LogDiagnostics | dsn/train_dsn.py:303-368 | Writing slot `check_it` fails exactly when the slot does not exist. Otherwise `H`, mean `T_x`, the cost (and the snapshot in debug mode) of the step go to that slot, and `check_it` grows by exactly one. |
| TrainDsn.Trainer.Step | dsn/train_dsn.py:295-378 | One inner step logs diagnostics exactly when `(cur_ind + 1) % check_rate == 0`, then its gradient row. It fails exactly when its check steps outnumber the slots. |
| TrainDsn.Trainer.RunEpoch | dsn/train_dsn.py:284-386 | Epoch `k` runs `cur_ind = total_its + i` for `i < max_iters`, that is steps `1 + k * max_iters .. (k + 1) * max_iters`. Afterwards the slots and the ring buffer hold the diagnostics and gradients of those steps. It fails exactly when the check steps up to the epoch's end outnumber the slots. |
| TrainDsn.Trainer.LogInitialState | dsn/train_dsn.py:242-267 | Step 0 goes to slot 0, ring row 0 and snapshot slot 0. Then `check_it == 1`, `total_its == 1`, and `R2s` stays zero. |
| TrainDsn.Trainer.BeginEpoch | dsn/train_dsn.py:268-271 | `cs` and `lambdas` each gain exactly one entry, the `c` and `lambda` in force for epoch `k`. |
| TrainDsn.Trainer.LogEpochSnapshot | dsn/train_dsn.py:391-394 | Outside debug mode, the snapshot at the end of epoch `k` goes to snapshot slot `k + 1`. |
| TrainDsn.Trainer.FinishEpoch | dsn/train_dsn.py:396-439 | `lambda` becomes `lambda + c * R` with the `c` of the epoch. `total_its` grows by `i` and `epoch_inds` gains `total_its - 1`. A holding feasibility predicate stops the run before `c` changes. Otherwise `c` becomes `4 * c` if and only if `u < 1 - p / 2` and `t > 0`. |
| TrainDsn.Trainer.Epoch | dsn/train_dsn.py:268-439 | One outer iteration takes the logs, counters and AL state from `k` epochs to `k + 1`. It fails exactly when the epoch's check steps outnumber the slots. |
| TrainDsn.Trainer.RunEpochs | dsn/train_dsn.py:268-418 | The outer loop runs exactly `EpochsRun` epochs: all `k_max`, or up to the first whose feasibility predicate holds. It fails if and only if their check steps outnumber the slots. `stopped` is true exactly when some epoch reached the feasible set. |
| TrainDsn.Trainer.Run | dsn/train_dsn.py:236-478 | For `min_iters >= 20` and, in debug mode, a batch of 1000 draws (see "## Left out"), the run raises if and only if the check steps outnumber the slots (IndexError) or `k_max == 0` or `max_iters == 0` (unbound `cur_ind`). Otherwise the final logs, counters, `cs`, `lambdas`, `c` and `lambda` are those after `EpochsRun` epochs. The result carries the feasibility flag exactly for a `feasible` behaviour, and `R2s` stays zero. |
| AlSchedule.Pow10 | dsn/train_dsn.py:88 | `c_init = 10 ** c_init_order` is positive, and at least 1 for a non-negative order. |
| AlSchedule.CAt | dsn/train_dsn.py:233 | The penalty in force during any epoch is at least a positive `c_init`. |
| AlSchedule.CStep | dsn/train_dsn.py:435-439 | Each epoch either keeps `c` or multiplies it by exactly 4. It multiplies if and only if the test finds the penalty too weak. |
| AlSchedule.CIsPowerOfFour | dsn/train_dsn.py:431-439 | `c` is `c_init * 4 ** r`, where `r` counts the epochs whose test raised it. |
| AlSchedule.CNonDecreasing | dsn/train_dsn.py:233 | For a positive `c_init`, `c` is positive and never decreases across epochs. |
| AlSchedule.LambdaAt | dsn/train_dsn.py:234 | `lambda` always has one entry per sufficient statistic. |
| AlSchedule.LambdaIsWeightedSum | dsn/train_dsn.py:396-397 | Entry `i` of `lambda` after `k` epochs is `sum_{j<k} c_j * R_j[i]`, each residual weighted by its epoch's `c`. |
| AlSchedule.StepsOfIsProduct | dsn/train_dsn.py:408 | `e` full epochs take `e * max_iters` steps. |
| AlSchedule.StepsOfMonotone | dsn/train_dsn.py:408 | More epochs take no fewer steps. |
| AlSchedule.EpochEnds | dsn/train_dsn.py:215 | `epoch_inds` has one entry more than the epochs run. |
| AlSchedule.EpochEndsAt | dsn/train_dsn.py:408-409 | Entry `j` of `epoch_inds` is `j * max_iters`, the last global step of epoch `j - 1`. |
| AlSchedule.CHistoryAt | dsn/train_dsn.py:270 | Entry `j` of `cs` is the `c` in force during epoch `j`. |
| AlSchedule.LambdaHistoryAt | dsn/train_dsn.py:271 | Entry `j` of `lambdas` is the `lambda` in force during epoch `j`. |
| AlSchedule.EpochsFrom | dsn/train_dsn.py:413-417 | From epoch `k`, the run continues up to and including the first epoch whose predicate holds, or to `k_max`. |
| AlSchedule.EpochsRun | dsn/train_dsn.py:268-417 | The number of epochs run is at most `k_max`, and positive when `k_max > 0`. No epoch before the last stops the run. Fewer than `k_max` run only if the last one stops it. Some epoch reaches the feasible set if and only if the last one run does. |
| AlSchedule.NoneStopsMeansAll | dsn/train_dsn.py:413-417 | The recursive "no earlier epoch stopped" predicate holds if and only if no epoch before `k` stopped the run. |
| AlSchedule.EpochsRunAtLeast | dsn/train_dsn.py:268-417 | An epoch `k < k_max` that no earlier epoch stopped does run. |
| AlSchedule.EpochsRunUnique | dsn/train_dsn.py:268-417 | The early-stop conditions determine the number of epochs run. |
| AlSchedule.EpochOverflowFinal | dsn/train_dsn.py:303 | If the slots overflow during an epoch that runs, the whole run overflows. |
| FeasibilityInit.FeasibleBehaviorStops | dsn/train_dsn.py:489-494 | The swapped-in behaviour ends a training run at exactly the epochs whose statistics satisfy the `is_feasible` predicate of the original behaviour. |
| FeasibilityInit.AttemptMaxItersFit | dsn/train_dsn.py:511-532 | Every retry budget (5000, doubled after each run) is at least 5000 and a multiple of `check_rate = 100`. |
| FeasibilityInit.AttemptMaxItersIncreasing | dsn/train_dsn.py:511-532 | The retry budgets strictly increase, so each retry has a budget of its own. |
| FeasibilityInit.TrainFeasible | dsn/train_dsn.py:508-531 | A feasibility run (`k_max = 20`, `check_rate = 100`, `c_init_order = 0`, not debug) with such a budget never raises. It returns exactly whether one of its epochs reached the feasible set. |
| FeasibilityInit.RetryUntilFeasible | dsn/train_dsn.py:511-532 | Retry `t` trains with `max_iters == AttemptMaxIters(t)`. The loop stops at the first retry whose run ends on the feasible set: that run is feasible, and every earlier one is not. |
| FeasibilityInit.InitializeNf | dsn/train_dsn.py:486-534 | With bounds, the system's behaviour, `mu`, labels, `num_suff_stats` and behaviour string are switched to the feasible behaviour. Unless already initialized, retry `t` trains with `max_iters == AttemptMaxIters(t)` (5000, then doubled after each run), and the retries stop at the first run that ends on the feasible set: that run is feasible and every earlier one is not. Only the behaviour is restored at the end: the other four fields keep their feasible-phase values. Without bounds nothing changes. |

## Left out

- TensorFlow graph construction, the session's numerics (entropy, cost,
  gradients, samples), the Adam optimizer and its reset: these become
  oracle values.
- The Welch t-test, the `norms`/`new_norms` estimates and `np.random`: the
  test's `t`, `p`, the draw `u` and the residual `R` are oracle values. The
  `norms` and `new_norms` arrays are therefore not modelled.
- Floating point: the model works with exact reals, so `c`, `lambda` and
  the test comparison are exact.
- Checkpoint, summary and log I/O: `np.savez`, `saver.save`, the
  TensorBoard writer, `os.makedirs`, timing and printing.
- The `stop_early` convergence test: it is switched off in the source, so
  its branch never runs.
- `check_rate == 0`: it raises ZeroDivisionError when the arrays are
  sized. `TrainDsn.Trainer.constructor` requires `check_rate > 0` instead
  of modelling that error.
- Array shapes beyond one dimension: a snapshot (`Zs`, `log_q_zs` and
  `T_xs` of one slot) is one value, and `param_vals` is an empty array
  where the source has `None`.
- `initialize_nf` without bounds calls `initialize_gauss_nf`, which only
  writes to disk; `get_initdir` and `check_init` are file-system helpers,
  and `check_init` becomes the `initialized` parameter.
- `FeasibilityInit.InitializeNf`: the retry loop may run forever in the
  source. The model requires that some retry's run reaches the feasible
  set. The method returns the number of runs, not the directory
  path. The result of a run is taken to depend on its budget only
  (`runs(max_iters)`).
- `TrainDsn.Trainer.Run`: the model has no `min_iters`. The source's only
  use of it is `assert(min_iters >= 20 and TB_SAVE_EVERY >= 20)` at line
  358. That assert runs at the first step of an epoch with `i > 20` and
  `cur_ind % 50 == 0`, and raises AssertionError when `min_iters < 20`.
  The model describes runs with `min_iters >= 20`, for which the assert
  always passes; the default is 1000 and `initialize_nf` passes 2500.
- `TrainDsn.Trainer.Run`: in debug mode the source copies the sample of
  each check step, of batch size `n`, into a 1000-draw slot of `Zs` (lines
  307-309). numpy raises ValueError when `n` is neither 1000 nor 1. The
  model describes debug runs with `n == 1000`, where every snapshot fits
  its slot.
- Negative hyperparameters: `k_max`, `max_iters` and `check_rate` are
  natural numbers in the model. The source accepts any integer. A negative
  `max_iters` can give zero slots, and then the initial log raises
  IndexError (lines 250-255). A negative `k_max` can make `np.zeros` raise ValueError.
- The call `initialize_nf(...)` at line 103, at the start of `train_dsn`:
  `TrainDsn.Trainer` models the training that follows that call. Its
  `numSuffStats` and `behavior` are the system's values after that call
  returns. For a behaviour with bounds, `FeasibilityInit.InitializeNf`
  states those values: the restored behaviour, but the feasible behaviour's
  `num_suff_stats`, `mu`, labels and behaviour string. These are what lines
  154, 210, 226 and 234 read.
- `compute_mu`, `get_T_x_labels` and `get_behavior_str` belong to the
  system classes. These are not part of this model and are given as
  functions of the behaviour (`StatisticModel`).
