/**
 * `initialize_nf` for a behaviour with inequality bounds: train towards the
 * feasible region of the bounds, retrying with twice the step budget until a
 * run ends on the feasible set, then put the original behaviour back.
 */
module FeasibilityInit {
  import opened DsnTypes
  import opened AlSchedule
  import opened TrainDsn

  // Hyperparameters of the feasibility runs.
  const K_MAX: nat := 20
  const FIRST_MAX_ITERS: nat := 5000
  const CHECK_RATE: nat := 100
  const C_INIT_ORDER: int := 0

  /**
   * What a system derives from its behaviour: `compute_mu`,
   * `get_T_x_labels` and `get_behavior_str` of the system's class.
   */
  datatype StatisticModel = StatisticModel(
    computeMu: Behavior -> Vec,
    tXLabels: Behavior -> seq<string>,
    behaviorStr: Behavior -> string)

  /** The fields of a system that `initialize_nf` reads and rewrites. */
  class System {
    var behavior: Behavior
    var mu: Vec
    var tXLabels: seq<string>
    var numSuffStats: nat
    var behaviorStr: string
    const stats: StatisticModel

    constructor (behavior: Behavior, stats: StatisticModel)
      ensures this.behavior == behavior && this.stats == stats
      ensures mu == stats.computeMu(behavior) && tXLabels == stats.tXLabels(behavior)
      ensures numSuffStats == |tXLabels| && behaviorStr == stats.behaviorStr(behavior)
    {
      this.behavior := behavior;
      this.stats := stats;
      mu := stats.computeMu(behavior);
      tXLabels := stats.tXLabels(behavior);
      numSuffStats := |stats.tXLabels(behavior)|;
      behaviorStr := stats.behaviorStr(behavior);
    }
  }

  /** The `feasible` behaviour built from the feasible region of a bounded behaviour. */
  function FeasibleBehavior(bounds: Bounds): (f: Behavior)
    ensures f.Feasible? && !f.HasBounds()
  {
    Feasible(bounds.feasibleMeans, bounds.feasibleVariances, bounds.isFeasible)
  }

  /**
   * The swapped-in behaviour ends a run exactly at the epochs whose
   * statistics satisfy the predicate of the original behaviour's region.
   */
  lemma FeasibleBehaviorStops(bounds: Bounds, d: EpochDraw)
    ensures Stops(FeasibleBehavior(bounds), d) <==> bounds.isFeasible(d.snap.tx)
  {
  }

  /** The `max_iters` of feasibility run `t`: 5000, doubled after every run. */
  function AttemptMaxIters(t: nat): nat {
    if t == 0 then FIRST_MAX_ITERS else 2 * AttemptMaxIters(t - 1)
  }

  /** Every budget is a positive multiple of `check_rate`. */
  lemma {:induction false} AttemptMaxItersFit(t: nat)
    ensures AttemptMaxIters(t) >= FIRST_MAX_ITERS && AttemptMaxIters(t) % CHECK_RATE == 0
  {
    if t > 0 {
      AttemptMaxItersFit(t - 1);
      var m := AttemptMaxIters(t - 1);
      DivModUnique(2 * m, CHECK_RATE, 2 * (m / CHECK_RATE), 0);
    }
  }

  /** Budgets strictly grow, so no two retries share one. */
  lemma {:induction false} AttemptMaxItersIncreasing(t: nat, u: nat)
    requires t < u
    ensures AttemptMaxIters(t) < AttemptMaxIters(u)
    decreases u
  {
    AttemptMaxItersFit(u - 1);
    if t < u - 1 {
      AttemptMaxItersIncreasing(t, u - 1);
    }
  }

  /** A feasibility run ends on the feasible set when some epoch's predicate holds. */
  predicate ReachesFeasible(f: Behavior, o: Oracle) {
    exists j :: 0 <= j < K_MAX && Stops(f, o.epoch(j))
  }

  /**
   * One feasibility run with the given budget: it cannot raise, and it
   * reports whether it ended on the feasible set.
   */
  method TrainFeasible(f: Behavior, numSuffStats: nat, nParams: nat, maxIters: nat, o: Oracle)
    returns (isFeasible: bool)
    requires f.Feasible? && Shaped(o, numSuffStats)
    requires maxIters > 0 && maxIters % CHECK_RATE == 0
    ensures isFeasible == ReachesFeasible(f, o)
  {
    var trainer := new Trainer(K_MAX, maxIters, CHECK_RATE, false, f, numSuffStats, nParams, C_INIT_ORDER);
    RunFits(K_MAX, maxIters, CHECK_RATE, EpochsRun(f, o, K_MAX));
    var r := trainer.Run(o);
    assert r.Trained? && r.feasible.Some?;
    isFeasible := r.feasible.value;
  }

  /**
   * The retry loop of `initialize_nf`: retry `t` trains with budget
   * `AttemptMaxIters(t)` (5000, doubled after every run) until a run ends on
   * the feasible set. `runs(m)` is what the run with `max_iters == m`
   * yields. It ends once some retry's run is feasible, and then it has
   * stopped at the first such retry.
   */
  method RetryUntilFeasible(f: Behavior, numSuffStats: nat, nParams: nat, runs: nat -> Oracle)
    returns (tries: nat)
    requires f.Feasible? && forall m :: Shaped(runs(m), numSuffStats)
    requires exists t: nat :: ReachesFeasible(f, runs(AttemptMaxIters(t)))
    ensures tries > 0 && ReachesFeasible(f, runs(AttemptMaxIters(tries - 1)))
    ensures forall t :: 0 <= t < tries - 1 ==> !ReachesFeasible(f, runs(AttemptMaxIters(t)))
  {
    ghost var succeeds: nat :| ReachesFeasible(f, runs(AttemptMaxIters(succeeds)));
    tries := 0;
    var maxIters := FIRST_MAX_ITERS;
    var isFeasible := false;
    while !isFeasible
      invariant maxIters == AttemptMaxIters(tries)
      invariant !isFeasible ==> tries <= succeeds
      invariant isFeasible ==> 0 < tries <= succeeds + 1 && ReachesFeasible(f, runs(AttemptMaxIters(tries - 1)))
      invariant forall t :: 0 <= t < (if isFeasible then tries - 1 else tries) ==> !ReachesFeasible(f, runs(AttemptMaxIters(t)))
      decreases succeeds + 1 - tries
    {
      AttemptMaxItersFit(tries);
      isFeasible := TrainFeasible(f, numSuffStats, nParams, maxIters, runs(maxIters));
      tries := tries + 1;
      maxIters := 2 * maxIters;
    }
  }

  /**
   * `initialize_nf`. For a behaviour with bounds it swaps in the feasible
   * behaviour and the statistics derived from it; unless the feasibility
   * initialization is already on disk (`initialized`), it retries training
   * until a run ends on the feasible set; then it restores the behaviour
   * alone. A behaviour without bounds goes to the Gaussian initializer,
   * which writes only to disk.
   */
  method InitializeNf(system: System, initialized: bool, nParams: nat, runs: nat -> Oracle)
    returns (tries: nat)
    requires system.behavior.HasBounds() ==>
      var f := FeasibleBehavior(system.behavior.bounds.value);
      && (forall m :: Shaped(runs(m), |system.stats.tXLabels(f)|))
      && (!initialized ==> exists t: nat :: ReachesFeasible(f, runs(AttemptMaxIters(t))))
    modifies system
    ensures system.behavior == old(system.behavior)
    ensures !old(system.behavior.HasBounds()) ==>
      && tries == 0
      && system.mu == old(system.mu) && system.tXLabels == old(system.tXLabels)
      && system.numSuffStats == old(system.numSuffStats) && system.behaviorStr == old(system.behaviorStr)
    ensures old(system.behavior.HasBounds()) ==>
      var f := FeasibleBehavior(old(system.behavior).bounds.value);
      && system.mu == system.stats.computeMu(f)
      && system.tXLabels == system.stats.tXLabels(f)
      && system.numSuffStats == |system.tXLabels|
      && system.behaviorStr == system.stats.behaviorStr(f)
      && (initialized ==> tries == 0)
      && (!initialized ==>
            && tries > 0
            && ReachesFeasible(f, runs(AttemptMaxIters(tries - 1)))
            && forall t :: 0 <= t < tries - 1 ==> !ReachesFeasible(f, runs(AttemptMaxIters(t))))
  {
    tries := 0;
    if !system.behavior.HasBounds() {
      return;
    }
    var behavior := system.behavior;
    var f := FeasibleBehavior(behavior.bounds.value);
    system.behavior := f;
    system.mu := system.stats.computeMu(f);
    system.tXLabels := system.stats.tXLabels(f);
    system.numSuffStats := |system.tXLabels|;
    system.behaviorStr := system.stats.behaviorStr(f);
    if !initialized {
      tries := RetryUntilFeasible(f, system.numSuffStats, nParams, runs);
    }
    system.behavior := behavior;
  }
}
