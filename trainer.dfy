/**
 * The bookkeeping of `train_dsn`: the diagnostic arrays it allocates, the
 * counters of its nested epoch / step loops, the gradient ring buffer, and
 * the augmented-Lagrangian state `c` and `lambda`. Every numerical result
 * comes from an `Oracle`.
 */
module TrainDsn {
  import opened DsnTypes
  import opened AlSchedule

  /** Number of gradient samples the (disabled) convergence test looks back over. */
  const COST_GRAD_LAG: nat := 100

  /** Rows of the gradient ring buffer `cost_grad_vals`. */
  function GradLogLen(db: bool, kMax: nat, maxIters: nat, checkRate: nat): (n: nat)
    requires checkRate > 0
    ensures n > 0
    ensures !db ==> n == 2 * COST_GRAD_LAG
  {
    if db then NumDiagnosticChecks(kMax, maxIters, checkRate) else 2 * COST_GRAD_LAG
  }

  /** Why a run raises instead of returning. */
  datatype TrainError =
    | DiagnosticIndexOutOfRange(index: nat)  // numpy IndexError on `Hs[check_it]`
    | CurIndUnbound                          // `cur_ind` read by the final save but never assigned

  /** A run's result: the feasibility flag is returned only for a `feasible` behaviour. */
  datatype Outcome = Trained(feasible: Option<bool>) | Failed(error: TrainError)

  class Trainer {
    // Hyperparameters of the run.
    const kMax: nat
    const maxIters: nat
    const checkRate: nat
    const db: bool
    const behavior: Behavior
    const numSuffStats: nat
    const nParams: nat
    const cInit: real
    const gradLogLen: nat

    // The diagnostic log.
    const costs: array<real>
    const hs: array<real>
    const r2s: array<real>
    const meanTxs: array<Vec>
    const costGradVals: array<Vec>
    const paramVals: array<Vec>      // `param_vals`; empty (numpy `None`) unless `db`
    const zs: array<Snapshot>        // `Zs`, `log_q_zs` and `T_xs`, written together

    // Augmented-Lagrangian state and its history.
    var c: real
    var lambda: Vec
    var cs: seq<real>
    var lambdas: seq<Vec>
    var epochInds: seq<nat>

    // Counters.
    var checkIt: nat
    var totalIts: nat

    /** The global step whose diagnostics each used slot holds. */
    ghost var checkSteps: seq<nat>

    /** Sizes and identities of the arrays; they never change after allocation. */
    ghost predicate Shape() {
      && checkRate > 0 && cInit > 0.0
      && costs.Length == NumDiagnosticChecks(kMax, maxIters, checkRate)
      && hs.Length == costs.Length && r2s.Length == costs.Length && meanTxs.Length == costs.Length
      && gradLogLen == GradLogLen(db, kMax, maxIters, checkRate)
      && costGradVals.Length == gradLogLen
      && paramVals.Length == (if db then gradLogLen else 0)
      && zs.Length == (if db then costs.Length else kMax + 1)
      && costs != hs && costs != r2s && hs != r2s
      && meanTxs != costGradVals && meanTxs != paramVals && costGradVals != paramVals
    }

    /**
     * Slot `j < check_it` of `costs`, `Hs`, `mean_T_xs` (and, in debug mode,
     * of the snapshots) holds the diagnostics of global step
     * `checkSteps[j]`; the slots after it still hold zeros.
     */
    ghost predicate DiagLogged(o: Oracle)
      requires Shape()
      reads this`checkIt, this`checkSteps, costs, hs, meanTxs, zs
    {
      var steps := checkSteps;
      var n := costs.Length;
      && checkIt == |steps| <= n
      && costs[..] == seq(n, j requires 0 <= j < n => if j < |steps| then o.step(steps[j]).cost else 0.0)
      && hs[..] == seq(n, j requires 0 <= j < n => if j < |steps| then o.step(steps[j]).h else 0.0)
      && meanTxs[..] == seq(n, j requires 0 <= j < n => if j < |steps| then o.step(steps[j]).meanTx else Zeros(numSuffStats))
      && (db ==> zs[..] == seq(n, j requires 0 <= j < n => if j < |steps| then o.step(steps[j]).snap else Blank))
    }

    /**
     * After global steps `0..last`, ring row `j` holds the gradient row (and,
     * in debug mode, the parameter row) of the latest of those steps that
     * maps to it, `RingStep(last, gradLogLen, j)`; rows no step has reached
     * yet still hold zeros. Before any step (`last == -1`) every row holds
     * zeros.
     */
    ghost predicate RingLogged(o: Oracle, last: int)
      requires Shape()
      reads costGradVals, paramVals
    {
      var len := gradLogLen;
      && costGradVals[..] == seq(len, j requires 0 <= j < len =>
           if j <= last then o.step(RingStep(last, len, j)).grad else Zeros(nParams))
      && (db ==>
            paramVals[..] == seq(len, j requires 0 <= j < len =>
              if j <= last then o.step(RingStep(last, len, j)).params else Zeros(nParams)))
    }

    /**
     * Outside debug mode, snapshot slot 0 holds the initial state and slot
     * `k + 1` the end of epoch `k`, for the `e` epochs finished so far.
     */
    ghost predicate EpochSnapsLogged(o: Oracle, e: nat)
      requires Shape()
      reads zs
    {
      !db ==>
        && e <= kMax
        && zs[..] == seq(kMax + 1, j requires 0 <= j <= kMax =>
             if j == 0 then o.step(0).snap else if j <= e then o.epoch(j - 1).snap else Blank)
    }

    /** The state right after allocation, before the session starts. */
    ghost predicate Initial()
      reads this, costs, hs, r2s, meanTxs, zs, costGradVals, paramVals
    {
      && Shape()
      && c == cInit && lambda == Zeros(numSuffStats)
      && cs == [] && lambdas == [] && epochInds == [0]
      && checkIt == 0 && checkSteps == [] && totalIts == 0
      && (forall j :: 0 <= j < costs.Length ==>
            costs[j] == 0.0 && hs[j] == 0.0 && r2s[j] == 0.0 && meanTxs[j] == Zeros(numSuffStats))
      && (forall j :: 0 <= j < zs.Length ==> zs[j] == Blank)
      && (forall j :: 0 <= j < costGradVals.Length ==> costGradVals[j] == Zeros(nParams))
      && (forall j :: 0 <= j < paramVals.Length ==> paramVals[j] == Zeros(nParams))
    }

    /**
     * Allocation: `k_max * (max_iters // check_rate) + 1` diagnostic slots, a
     * gradient log of `2 * COST_GRAD_LAG` rows (`num_diagnostic_checks` rows
     * in debug mode), `k_max + 1` snapshot slots (one per diagnostic slot in
     * debug mode), `c = 10 ** c_init_order`, `lambda = 0`, `epoch_inds = [0]`.
     */
    constructor (kMax: nat, maxIters: nat, checkRate: nat, db: bool, behavior: Behavior,
                 numSuffStats: nat, nParams: nat, cInitOrder: int)
      requires checkRate > 0
      ensures this.kMax == kMax && this.maxIters == maxIters && this.checkRate == checkRate
      ensures this.db == db && this.behavior == behavior
      ensures this.numSuffStats == numSuffStats && this.nParams == nParams
      ensures cInit == Pow10(cInitOrder)
      ensures Initial()
      ensures costs.Length == kMax * (maxIters / checkRate) + 1
      ensures costGradVals.Length == if db then costs.Length else 2 * COST_GRAD_LAG
      ensures zs.Length == if db then costs.Length else kMax + 1
      ensures fresh(costs) && fresh(hs) && fresh(r2s) && fresh(meanTxs)
      ensures fresh(costGradVals) && fresh(paramVals) && fresh(zs)
    {
      this.kMax := kMax;
      this.maxIters := maxIters;
      this.checkRate := checkRate;
      this.db := db;
      this.behavior := behavior;
      this.numSuffStats := numSuffStats;
      this.nParams := nParams;
      cInit := Pow10(cInitOrder);
      var n := NumDiagnosticChecks(kMax, maxIters, checkRate);
      var logLen := GradLogLen(db, kMax, maxIters, checkRate);
      gradLogLen := logLen;
      costGradVals := new Vec[logLen](_ => Zeros(nParams));
      paramVals := new Vec[if db then logLen else 0](_ => Zeros(nParams));
      costs := new real[n](_ => 0.0);
      hs := new real[n](_ => 0.0);
      r2s := new real[n](_ => 0.0);
      meanTxs := new Vec[n](_ => Zeros(numSuffStats));
      zs := new Snapshot[if db then n else kMax + 1](_ => Blank);
      c := Pow10(cInitOrder);
      lambda := Zeros(numSuffStats);
      cs := [];
      lambdas := [];
      epochInds := [0];
      checkIt := 0;
      checkSteps := [];
      totalIts := 0;
    }

    /**
     * `log_grads`: the gradient row of global step `s` (and, in debug mode,
     * its parameter row) overwrites ring row `s % gradLogLen`.
     */
    method LogGrads(o: Oracle, s: nat)
      requires Shape() && RingLogged(o, s - 1)
      modifies costGradVals, paramVals
      ensures RingLogged(o, s)
    {
      var row := s % gradLogLen;
      costGradVals[row] := o.step(s).grad;
      if db {
        paramVals[row] := o.step(s).params;
      }
      forall j | 0 <= j < gradLogLen
        ensures costGradVals[j] == if j <= s then o.step(RingStep(s, gradLogLen, j)).grad else Zeros(nParams)
        ensures db ==> paramVals[j] == if j <= s then o.step(RingStep(s, gradLogLen, j)).params else Zeros(nParams)
      {
        if j <= s {
          RingStepNext(s, gradLogLen, j);
        } else {
          DivModUnique(s, gradLogLen, 0, s);
        }
      }
    }

    /**
     * The diagnostics of global step `s`: `H`, mean `T_x` (and, in debug
     * mode, the snapshot) go to slot `check_it`, which raises a numpy
     * IndexError when that slot does not exist; after the gradient step the
     * cost goes to the same slot and `check_it` advances by exactly one.
     */
    method LogDiagnostics(o: Oracle, s: nat, ghost e: nat) returns (ok: bool)
      requires Shape() && DiagLogged(o) && EpochSnapsLogged(o, e)
      modifies this`checkIt, this`checkSteps, costs, hs, meanTxs, zs
      ensures ok <==> old(checkIt) < costs.Length
      ensures ok ==> DiagLogged(o) && checkIt == old(checkIt) + 1 && checkSteps == old(checkSteps) + [s]
      ensures EpochSnapsLogged(o, e)
    {
      if checkIt >= hs.Length {
        return false;
      }
      var d := o.step(s);
      ghost var steps := checkSteps + [s];
      ghost var n := costs.Length;
      hs[checkIt] := d.h;
      assert hs[..] == seq(n, j requires 0 <= j < n => if j < |steps| then o.step(steps[j]).h else 0.0);
      meanTxs[checkIt] := d.meanTx;
      assert meanTxs[..] == seq(n, j requires 0 <= j < n => if j < |steps| then o.step(steps[j]).meanTx else Zeros(numSuffStats));
      if db {
        zs[checkIt] := d.snap;
        assert zs[..] == seq(n, j requires 0 <= j < n => if j < |steps| then o.step(steps[j]).snap else Blank);
      }
      costs[checkIt] := d.cost;
      assert costs[..] == seq(n, j requires 0 <= j < n => if j < |steps| then o.step(steps[j]).cost else 0.0);
      checkIt := checkIt + 1;
      checkSteps := steps;
      ok := true;
    }

    /**
     * One pass of the inner loop at global step `s`: the diagnostics of a
     * check step, then the gradient row. Fails exactly when `s` is a check
     * step that needs a slot beyond the diagnostic arrays.
     */
    method Step(o: Oracle, s: nat, ghost e: nat) returns (ok: bool)
      requires Shape() && s >= 1
      requires DiagLogged(o) && checkSteps == CheckSteps(s - 1, checkRate)
      requires RingLogged(o, s - 1) && EpochSnapsLogged(o, e)
      modifies this`checkIt, this`checkSteps, costs, hs, meanTxs, zs, costGradVals, paramVals
      ensures ok <==> |CheckSteps(s, checkRate)| <= costs.Length
      ensures ok ==> DiagLogged(o) && checkSteps == CheckSteps(s, checkRate)
      ensures ok ==> RingLogged(o, s)
      ensures EpochSnapsLogged(o, e)
    {
      ok := true;
      if (s + 1) % checkRate == 0 {
        ok := LogDiagnostics(o, s, e);
        if !ok {
          return;
        }
      }
      LogGrads(o, s);
    }

    /**
     * The inner loop of epoch `k`: global steps `total_its + i` for `i` in
     * `0..max_iters`, so the epoch covers the steps right after the previous
     * epoch's last one, without gaps or overlaps. Fails exactly when the
     * check steps up to the end of the epoch need more slots than exist.
     */
    method RunEpoch(o: Oracle, k: nat) returns (ok: bool, i: nat)
      requires Shape() && StepsLogged(o, k) && EpochSnapsLogged(o, k) && Counted(k)
      modifies this`checkIt, this`checkSteps, costs, hs, meanTxs, zs, costGradVals, paramVals
      ensures ok <==> |CheckSteps(StepsOf(k + 1, maxIters), checkRate)| <= costs.Length
      ensures ok ==> i == maxIters && StepsLogged(o, k + 1)
      ensures EpochSnapsLogged(o, k)
    {
      ghost var last := totalIts - 1 + maxIters;
      assert last == StepsOf(k + 1, maxIters);
      i := 0;
      while i < maxIters
        invariant i <= maxIters
        invariant DiagLogged(o) && checkSteps == CheckSteps(totalIts - 1 + i, checkRate)
        invariant RingLogged(o, totalIts - 1 + i) && EpochSnapsLogged(o, k)
      {
        var curInd := totalIts + i;
        var stepOk := Step(o, curInd, k);
        if !stepOk {
          CheckStepsPrefix(curInd, last, checkRate);
          return false, i;
        }
        i := i + 1;
      }
      ok := true;
    }

    /**
     * Outside debug mode, the end of epoch `k` stores its 1000-draw
     * snapshot in snapshot slot `k + 1`.
     */
    method LogEpochSnapshot(o: Oracle, k: nat)
      requires Shape() && k < kMax
      requires StepsLogged(o, k + 1) && EpochSnapsLogged(o, k)
      modifies zs
      ensures Logged(o, k + 1)
    {
      if !db {
        zs[k + 1] := o.epoch(k).snap;
      }
    }

    /**
     * The start of epoch `k`: `cs` and `lambdas` each gain the `c` and
     * `lambda` the epoch runs with.
     */
    method BeginEpoch(o: Oracle, k: nat)
      requires Shaped(o, numSuffStats)
      requires AlHistory(o, k) && NoneStops(behavior, o, k)
      modifies this`cs, this`lambdas
      ensures AlBegun(o, k)
    {
      cs := cs + [c];
      lambdas := lambdas + [lambda];
    }

    /**
     * The end of epoch `k` after its `i` steps: `lambda` gains `c * R`,
     * `total_its` advances by `i` and `epoch_inds` records the epoch's last
     * global step; a `feasible` behaviour whose predicate holds stops the run
     * before `c` adapts, and otherwise `c` is multiplied by 4 when the test
     * finds the penalty too weak.
     */
    method FinishEpoch(o: Oracle, k: nat, i: nat) returns (stop: bool)
      requires Shaped(o, numSuffStats) && i == maxIters
      requires Counted(k) && AlBegun(o, k)
      modifies this`c, this`lambda, this`totalIts, this`epochInds
      ensures Counted(k + 1) && AlHistory(o, k + 1)
      ensures stop == Stops(behavior, o.epoch(k))
      ensures lambda == AddScaled(old(lambda), old(c), o.epoch(k).r)
      ensures c == if stop then old(c) else NextC(old(c), o.epoch(k))
    {
      var d := o.epoch(k);
      lambda := AddScaled(lambda, c, d.r);
      totalIts := totalIts + i;
      epochInds := epochInds + [totalIts - 1];
      stop := false;
      if behavior.Feasible? {
        stop := behavior.isFeasible(d.snap.tx);
      }
      if !stop && d.u < 1.0 - d.p / 2.0 && d.t > 0.0 {
        c := 4.0 * c;
      }
    }

    /** The AL state of the run after `e` epochs (see `AlState`). */
    ghost predicate AlHistory(o: Oracle, e: nat)
      requires Shaped(o, numSuffStats)
      reads this`c, this`lambda, this`cs, this`lambdas
    {
      AlState(numSuffStats, cInit, behavior, o, e, c, lambda, cs, lambdas)
    }

    /**
     * The AL state once epoch `k` has begun and appended the `c` and
     * `lambda` it runs with: those of epoch `k`, recorded in both histories.
     */
    ghost predicate AlBegun(o: Oracle, k: nat)
      requires Shaped(o, numSuffStats)
      reads this`c, this`lambda, this`cs, this`lambdas
    {
      && c == CAt(cInit, o, k)
      && lambda == LambdaAt(numSuffStats, cInit, o, k)
      && cs == CHistory(cInit, o, k + 1)
      && lambdas == LambdaHistory(numSuffStats, cInit, o, k + 1)
    }

    /**
     * The counters after `e` epochs: `total_its == 1 + e * max_iters`, and
     * `epoch_inds` records `0` and the last global step of each epoch.
     */
    ghost predicate Counted(e: nat)
      reads this`totalIts, this`epochInds
    {
      totalIts == 1 + StepsOf(e, maxIters) && epochInds == EpochEnds(e, maxIters)
    }

    /** The diagnostic log and the ring buffer after the steps of `e` full epochs. */
    ghost predicate StepsLogged(o: Oracle, e: nat)
      requires Shape()
      reads this`checkIt, this`checkSteps, costs, hs, meanTxs, zs, costGradVals, paramVals
    {
      && DiagLogged(o) && checkSteps == CheckSteps(StepsOf(e, maxIters), checkRate)
      && RingLogged(o, StepsOf(e, maxIters))
    }

    /** The diagnostic log, ring buffer and snapshots after `e` full epochs. */
    ghost predicate Logged(o: Oracle, e: nat)
      requires Shape()
      reads this`checkIt, this`checkSteps, costs, hs, meanTxs, zs, costGradVals, paramVals
    {
      StepsLogged(o, e) && EpochSnapsLogged(o, e)
    }

    /**
     * The session's first evaluation (global step 0): its gradient row goes to
     * ring row 0, its diagnostics to slot 0, its snapshot to snapshot slot 0;
     * `check_it` becomes 1 and `total_its` 1.
     */
    method LogInitialState(o: Oracle)
      requires Initial() && Shaped(o, numSuffStats)
      modifies this`checkIt, this`checkSteps, this`totalIts, costs, hs, meanTxs, zs, costGradVals, paramVals
      ensures Shape()
      ensures Logged(o, 0) && AlHistory(o, 0) && Counted(0)
      ensures forall j :: 0 <= j < r2s.Length ==> r2s[j] == 0.0
    {
      if !db {
        zs[0] := o.step(0).snap;
      }
      var ok := LogDiagnostics(o, 0, 0);
      assert ok;
      LogGrads(o, 0);
      totalIts := 1;
      assert checkSteps == CheckSteps(StepsOf(0, maxIters), checkRate);
    }

    /**
     * One iteration of the outer loop, epoch `k`: `cs` and `lambdas` each
     * gain one entry, the current `c` and `lambda`; the inner loop runs the
     * epoch's `max_iters` steps; the epoch ends. Fails exactly when the
     * check steps up to the end of this epoch need more slots than exist.
     */
    method Epoch(o: Oracle, k: nat) returns (ok: bool, stop: bool)
      requires Shape() && k < kMax && Shaped(o, numSuffStats)
      requires Logged(o, k) && AlHistory(o, k) && Counted(k)
      requires NoneStops(behavior, o, k)
      modifies this, costs, hs, meanTxs, zs, costGradVals, paramVals
      ensures ok <==> |CheckSteps(StepsOf(k + 1, maxIters), checkRate)| <= costs.Length
      ensures ok ==> Logged(o, k + 1) && AlHistory(o, k + 1) && Counted(k + 1)
      ensures ok ==> stop == Stops(behavior, o.epoch(k))
    {
      stop := false;
      BeginEpoch(o, k);
      var i;
      ok, i := RunEpoch(o, k);
      if !ok {
        return;
      }
      LogEpochSnapshot(o, k);
      stop := FinishEpoch(o, k, i);
    }

    /**
     * The outer loop: epochs `0, 1, ...` until `k_max` epochs have run or a
     * `feasible` behaviour's predicate holds. It fails exactly when the check
     * steps of the `EpochsRun` epochs the behaviour lets run need more slots
     * than the diagnostic arrays have; otherwise it has run exactly those
     * epochs, and `stopped` tells whether one of them reached the feasible set.
     */
    method RunEpochs(o: Oracle) returns (ok: bool, k: nat, stopped: bool)
      requires Shape() && Shaped(o, numSuffStats)
      requires Logged(o, 0) && AlHistory(o, 0) && Counted(0)
      modifies this, costs, hs, meanTxs, zs, costGradVals, paramVals
      ensures ok <==> |CheckSteps(StepsOf(EpochsRun(behavior, o, kMax), maxIters), checkRate)| <= costs.Length
      ensures ok ==> k == EpochsRun(behavior, o, kMax)
      ensures ok ==> Logged(o, k) && AlHistory(o, k) && Counted(k)
      ensures ok ==> stopped == exists j :: 0 <= j < kMax && Stops(behavior, o.epoch(j))
    {
      k := 0;
      stopped := false;
      while k < kMax && !stopped
        invariant k <= kMax
        invariant stopped ==> k > 0 && NoneStops(behavior, o, k - 1) && Stops(behavior, o.epoch(k - 1))
        invariant !stopped ==> NoneStops(behavior, o, k)
        invariant Logged(o, k) && AlHistory(o, k) && Counted(k)
      {
        var epochOk, stop := Epoch(o, k);
        if !epochOk {
          EpochOverflowFinal(behavior, o, kMax, k, maxIters, checkRate);
          return false, k, stopped;
        }
        stopped := stop;
        k := k + 1;
      }
      EpochsRunUnique(behavior, o, kMax, k);
      ok := true;
    }

    /**
     * A whole run: the initial log, then the epochs. With
     * `e == EpochsRun(...)`, the number of epochs the behaviour lets run, it
     * raises an IndexError exactly when the check steps of those epochs need
     * more slots than the diagnostic arrays have, and otherwise fails only
     * when no inner step ever ran (`cur_ind` unbound). A run that returns has
     * logged every check step, the most recent gradients and the epoch
     * snapshots, and holds the AL history of its `e` epochs; for a `feasible`
     * behaviour it reports whether some epoch reached the feasible set.
     */
    method Run(o: Oracle) returns (r: Outcome)
      requires Initial() && Shaped(o, numSuffStats)
      modifies this, costs, hs, meanTxs, zs, costGradVals, paramVals
      ensures Shape()
      ensures var e := EpochsRun(behavior, o, kMax);
        r.Failed? <==> |CheckSteps(StepsOf(e, maxIters), checkRate)| > costs.Length || kMax == 0 || maxIters == 0
      ensures var e := EpochsRun(behavior, o, kMax);
        r.Failed? ==> r.error == if |CheckSteps(StepsOf(e, maxIters), checkRate)| > costs.Length
                                 then DiagnosticIndexOutOfRange(costs.Length) else CurIndUnbound
      ensures var e := EpochsRun(behavior, o, kMax);
        r.Trained? ==> Logged(o, e) && AlHistory(o, e) && Counted(e)
      ensures r.Trained? ==>
        r.feasible == if behavior.Feasible?
                      then Some(exists j :: 0 <= j < kMax && Stops(behavior, o.epoch(j)))
                      else None
      ensures forall j :: 0 <= j < r2s.Length ==> r2s[j] == 0.0
    {
      LogInitialState(o);
      var ok, k, stopped := RunEpochs(o);
      if !ok {
        return Failed(DiagnosticIndexOutOfRange(costs.Length));
      }
      if kMax == 0 || maxIters == 0 {
        return Failed(CurIndUnbound);
      }
      r := Trained(if behavior.Feasible? then Some(stopped) else None);
    }
  }
}
