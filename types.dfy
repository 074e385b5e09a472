/**
 * Values shared by the training loop and the feasibility initializer of a
 * degenerate solution network (DSN): vectors, behaviours, and the numerical
 * results that TensorFlow, scipy and numpy produce, which the model takes as
 * inputs ("oracles").
 */
module DsnTypes {

  datatype Option<+T> = None | Some(value: T)

  /** A row of a numpy array of floats, modelled with exact reals. */
  type Vec = seq<real>

  /** `np.zeros((n,))`. */
  function Zeros(n: nat): (z: Vec)
    ensures |z| == n
    ensures forall i :: 0 <= i < n ==> z[i] == 0.0
  {
    seq(n, _ => 0.0)
  }

  /** numpy's `l + c * r` on two vectors of the same shape. */
  function AddScaled(l: Vec, c: real, r: Vec): (s: Vec)
    requires |l| == |r|
    ensures |s| == |l|
    ensures forall i :: 0 <= i < |l| ==> s[i] == l[i] + c * r[i]
  {
    seq(|l|, i requires 0 <= i < |l| => l[i] + c * r[i])
  }

  /** One sample snapshot: `Z`, `log_q_z` and `T_x` of a 1000-draw batch. */
  datatype Snapshot = Snapshot(z: seq<Vec>, logQz: Vec, tx: seq<Vec>)

  /** A snapshot slot that still holds the zeros it was allocated with. */
  const Blank: Snapshot := Snapshot([], [], [])

  /**
   * What the TensorFlow session yields at global step `s` (step 0 is the
   * evaluation of the initial state): the diagnostics `H`, mean `T_x` and the
   * sample snapshot taken before the gradient step, then the cost, the
   * gradient row and (debug mode) the parameter row after it.
   */
  datatype StepDraw = StepDraw(h: real, meanTx: Vec, snap: Snapshot, cost: real, grad: Vec, params: Vec)

  /**
   * What an epoch's end yields: the 1000-draw snapshot, the mean centred
   * residual `_R`, and the Welch t-test result `(t, p)` and uniform draw `u`
   * that decide whether the penalty grows.
   */
  datatype EpochDraw = EpochDraw(snap: Snapshot, r: Vec, t: real, p: real, u: real)

  /** Every numerical result of one training run, indexed by position in the run. */
  datatype Oracle = Oracle(step: nat -> StepDraw, epoch: nat -> EpochDraw)

  /** Each epoch's residual has one entry per sufficient statistic. */
  ghost predicate Shaped(o: Oracle, numSuffStats: nat) {
    forall k: nat :: |o.epoch(k).r| == numSuffStats
  }

  /**
   * The feasible region of a behaviour with inequality bounds. The source
   * keeps `feasible_means`, `feasible_variances` and `is_feasible` as
   * top-level keys of the behaviour dictionary, next to its "bounds" key;
   * the model groups the three here and attaches them to the behaviour
   * exactly when that dictionary has a "bounds" key.
   */
  datatype Bounds = Bounds(feasibleMeans: Vec, feasibleVariances: Vec, isFeasible: seq<Vec> -> bool)

  /**
   * The behaviour dictionary of a system: either a `feasible` behaviour, whose
   * predicate over the raw statistics ends training early, or a target
   * behaviour of some other type (oscillation, hubfreq, difference, ...) with
   * its target parameters and, when the dictionary has a "bounds" key, the
   * feasible region. The source tells the two apart by the "type" key alone,
   * so a `Target` stands for a dictionary whose type is not "feasible":
   * `kind` is never "feasible".
   */
  datatype Behavior =
    | Feasible(means: Vec, variances: Vec, isFeasible: seq<Vec> -> bool)
    | Target(kind: string, params: map<string, Vec>, bounds: Option<Bounds>)
  {
    predicate HasBounds() {
      Target? && bounds.Some?
    }
  }
}
