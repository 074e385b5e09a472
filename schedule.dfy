/**
 * Specification functions of the augmented-Lagrangian (AL) training loop:
 * where its diagnostics go, how its penalty coefficient `c` and multiplier
 * `lambda` evolve from epoch to epoch, and how many epochs a run lasts.
 * The trainer's methods are proved against these functions; the lemmas here
 * state what the functions mean.
 */
module AlSchedule {
  import opened DsnTypes

  // ---------------------------------------------------------------------
  // Diagnostic slots
  // ---------------------------------------------------------------------

  /** Length of the diagnostic arrays `costs`, `Hs`, `R2s` and `mean_T_xs`. */
  function NumDiagnosticChecks(kMax: nat, maxIters: nat, checkRate: nat): (n: nat)
    requires checkRate > 0
    ensures n >= 1
  {
    kMax * (maxIters / checkRate) + 1
  }

  /** Global step `s` logs diagnostics when `(s + 1) % check_rate == 0`. */
  predicate IsCheck(s: nat, checkRate: nat)
    requires checkRate > 0
  {
    (s + 1) % checkRate == 0
  }

  /**
   * The global steps whose diagnostics have been logged once steps `1..n`
   * have run, in the order of their slots: slot 0 holds the initial state
   * (step 0), and slot `j > 0` the `j`-th check step.
   */
  function CheckSteps(n: nat, checkRate: nat): (cs: seq<nat>)
    requires checkRate > 0
    ensures |cs| >= 1 && cs[0] == 0
  {
    if n == 0 then [0]
    else CheckSteps(n - 1, checkRate) + (if IsCheck(n, checkRate) then [n] else [])
  }

  /**
   * `cs` lists, after the initial state, exactly the check steps among
   * steps `1..n`, in increasing order.
   */
  predicate SlotsExact(cs: seq<nat>, n: nat, checkRate: nat)
    requires checkRate > 0
  {
    && (forall j :: 1 <= j < |cs| ==> 1 <= cs[j] <= n && IsCheck(cs[j], checkRate))
    && (forall i, j :: 0 <= i < j < |cs| ==> cs[i] < cs[j])
    && (forall s :: 1 <= s <= n && IsCheck(s, checkRate) ==> s in cs)
  }

  /**
   * The slots after steps `1..n` hold exactly the check steps among them,
   * in increasing order, after the initial state.
   */
  lemma {:induction false} CheckStepsExact(n: nat, checkRate: nat)
    requires checkRate > 0
    ensures SlotsExact(CheckSteps(n, checkRate), n, checkRate)
  {
    if n > 0 {
      var prev := CheckSteps(n - 1, checkRate);
      var cs := CheckSteps(n, checkRate);
      CheckStepsExact(n - 1, checkRate);
      assert cs == prev + (if IsCheck(n, checkRate) then [n] else []);
      forall j | 1 <= j < |cs|
        ensures 1 <= cs[j] <= n && IsCheck(cs[j], checkRate)
      {
        if j < |prev| {
          assert cs[j] == prev[j];
          assert 1 <= prev[j] <= n - 1 && IsCheck(prev[j], checkRate);
        } else {
          assert IsCheck(n, checkRate) && cs[j] == n;
        }
      }
      forall i, j | 0 <= i < j < |cs|
        ensures cs[i] < cs[j]
      {
        if j == |prev| {
          assert prev[i] <= n - 1 by {
            if i > 0 {
              assert 1 <= prev[i] <= n - 1;
            }
          }
        }
      }
      forall s | 1 <= s <= n && IsCheck(s, checkRate)
        ensures s in cs
      {
        if s < n {
          assert s in prev;
        } else {
          assert cs[|prev|] == n;
        }
      }
    }
  }

  /** Running further only appends slots. */
  lemma {:induction false} CheckStepsPrefix(m: nat, n: nat, checkRate: nat)
    requires checkRate > 0 && m <= n
    ensures CheckSteps(m, checkRate) <= CheckSteps(n, checkRate)
    ensures |CheckSteps(m, checkRate)| <= |CheckSteps(n, checkRate)|
    decreases n
  {
    if m < n {
      CheckStepsPrefix(m, n - 1, checkRate);
    }
  }

  lemma MulAtLeast(d: int, r: int)
    requires d >= 1 && r > 0
    ensures d * r >= r
  {
    assert d * r == r + (d - 1) * r;
  }

  /** Quotient and remainder are determined by `a == q * r + x`, `0 <= x < r`. */
  lemma DivModUnique(a: int, r: int, q: int, x: int)
    requires r > 0 && 0 <= x < r && a == q * r + x
    ensures a / r == q && a % r == x
  {
    var q0, x0 := a / r, a % r;
    assert a == q0 * r + x0;
    assert (q0 - q) * r == x - x0;
    if q0 > q {
      MulAtLeast(q0 - q, r);
    } else if q0 < q {
      MulAtLeast(q - q0, r);
    }
  }

  /** Adding one to `m` raises `m / r` by one exactly when `m + 1` is a multiple of `r`. */
  lemma DivSucc(m: nat, r: nat)
    requires r > 0
    ensures (m + 1) / r == m / r + (if (m + 1) % r == 0 then 1 else 0)
  {
    var q, x := m / r, m % r;
    if x + 1 < r {
      DivModUnique(m + 1, r, q, x + 1);
    } else {
      DivModUnique(m + 1, r, q + 1, 0);
    }
  }

  /**
   * `check_it` after steps `1..n`: one slot for the initial state plus one per
   * check step; for `check_rate >= 2` these are the multiples of `check_rate`
   * in `2..n+1`.
   */
  lemma {:induction false} CheckStepsCount(n: nat, checkRate: nat)
    requires checkRate > 0
    ensures |CheckSteps(n, checkRate)| == 1 + (if checkRate == 1 then n else (n + 1) / checkRate)
  {
    if n == 0 {
      if checkRate > 1 {
        DivModUnique(1, checkRate, 0, 1);
      }
    } else {
      CheckStepsCount(n - 1, checkRate);
      if checkRate > 1 {
        DivSucc(n, checkRate);
      }
    }
  }

  /** Multiplying by a natural number keeps the order. */
  lemma MulMonotone(a: nat, b: nat, m: nat)
    requires a <= b
    ensures a * m <= b * m
  {
    assert b * m == a * m + (b - a) * m;
  }

  /** `(a * r + b) / r == a + b / r` for non-negative `a`, `b`. */
  lemma DivAddMultiple(a: nat, b: nat, r: nat)
    requires r > 0
    ensures (a * r + b) / r == a + b / r
  {
    DivModUnique(a * r + b, r, a + b / r, b % r);
  }

  /** `(k * m + 1) / r`, split along `m == (m / r) * r + m % r`. */
  lemma ProductDiv(k: nat, m: nat, r: nat)
    requires r > 0
    ensures (k * m + 1) / r == k * (m / r) + (k * (m % r) + 1) / r
  {
    var q, x := m / r, m % r;
    assert m == q * r + x;
    assert k * m == k * (q * r) + k * x;
    assert k * (q * r) == (k * q) * r;
    DivAddMultiple(k * q, k * x + 1, r);
  }

  /**
   * The number of slots a full run of `k_max` epochs of `max_iters` steps
   * needs, against the `k_max * (max_iters // check_rate) + 1` allocated: the
   * surplus is `(k_max * (max_iters % check_rate) + 1) / check_rate` when
   * `check_rate >= 2`, and nothing when `check_rate == 1`.
   */
  lemma DiagnosticSlotsNeeded(kMax: nat, maxIters: nat, checkRate: nat)
    requires checkRate > 0
    ensures |CheckSteps(kMax * maxIters, checkRate)|
         == NumDiagnosticChecks(kMax, maxIters, checkRate)
            + (if checkRate == 1 then 0 else (kMax * (maxIters % checkRate) + 1) / checkRate)
  {
    CheckStepsCount(kMax * maxIters, checkRate);
    if checkRate == 1 {
      DivModUnique(maxIters, 1, maxIters, 0);
    } else {
      ProductDiv(kMax, maxIters, checkRate);
    }
  }

  /**
   * When `max_iters` is a multiple of `check_rate`, a full run fills the
   * diagnostic arrays exactly: every check step has a slot, and no slot is
   * left unused.
   */
  lemma DiagnosticLogFilled(kMax: nat, maxIters: nat, checkRate: nat)
    requires checkRate > 0 && maxIters % checkRate == 0
    ensures |CheckSteps(kMax * maxIters, checkRate)| == NumDiagnosticChecks(kMax, maxIters, checkRate)
  {
    DiagnosticSlotsNeeded(kMax, maxIters, checkRate);
    if checkRate > 1 {
      DivModUnique(1, checkRate, 0, 1);
    }
  }

  /**
   * A full run needs more slots than are allocated (so the write
   * `Hs[check_it]` fails) exactly when `check_rate >= 2` and
   * `k_max * (max_iters % check_rate) + 1 >= check_rate`.
   */
  lemma DiagnosticLogOverflows(kMax: nat, maxIters: nat, checkRate: nat)
    requires checkRate > 0
    ensures |CheckSteps(kMax * maxIters, checkRate)| > NumDiagnosticChecks(kMax, maxIters, checkRate)
        <==> checkRate > 1 && kMax * (maxIters % checkRate) + 1 >= checkRate
  {
    DiagnosticSlotsNeeded(kMax, maxIters, checkRate);
    if checkRate > 1 {
      var b := kMax * (maxIters % checkRate) + 1;
      if b >= checkRate {
        DivAddMultiple(1, b - checkRate, checkRate);
      } else {
        DivModUnique(b, checkRate, 0, b);
      }
    }
  }

  /**
   * `k_max = 2`, `max_iters = 150`, `check_rate = 100`: three slots are
   * allocated, but step 299 is the third check step and writes slot 3.
   */
  lemma OverflowExample()
    ensures NumDiagnosticChecks(2, 150, 100) == 3
    ensures |CheckSteps(300, 100)| == 4 && CheckSteps(300, 100)[3] == 299
  {
    DiagnosticLogOverflows(2, 150, 100);
    CheckStepsCount(300, 100);
    CheckStepsCount(298, 100);
    CheckStepsPrefix(299, 300, 100);
    assert |CheckSteps(299, 100)| == 4;
  }

  // ---------------------------------------------------------------------
  // Gradient ring buffer
  // ---------------------------------------------------------------------

  /**
   * Two global steps less than `len` apart use different rows of a ring
   * buffer of `len` rows written at `step % len`.
   */
  lemma RingRowsDistinct(s: nat, cur: nat, len: nat)
    requires s < cur && cur - s < len
    ensures s % len != cur % len
  {
    if s % len == cur % len {
      var d := cur / len - s / len;
      assert cur - s == d * len by {
        assert s == (s / len) * len + s % len;
        assert cur == (cur / len) * len + cur % len;
      }
      if d >= 1 {
        MulAtLeast(d, len);
      }
    }
  }

  /**
   * The latest of the global steps `0..last` that a ring buffer of `len`
   * rows, written at row `step % len`, holds in row `j`.
   */
  function RingStep(last: int, len: nat, j: nat): (t: nat)
    requires 0 < len && j < len && j <= last
    ensures t <= last && last - t < len && t % len == j
  {
    DivModUnique(last - (last - j) % len, len, (last - j) / len, j);
    last - (last - j) % len
  }

  /**
   * Writing step `s` into row `s % len` makes it the latest step of that row
   * and leaves every other row's latest step as it was after step `s - 1`.
   */
  lemma RingStepNext(s: nat, len: nat, j: nat)
    requires 0 < len && j < len && j <= s
    ensures j == s % len ==> RingStep(s, len, j) == s
    ensures j != s % len ==> j < s && RingStep(s, len, j) == RingStep(s - 1, len, j)
  {
    var t := RingStep(s, len, j);
    if t < s {
      if j == s % len {
        RingRowsDistinct(t, s, len);
      } else {
        var u := RingStep(s - 1, len, j);
        if u < t {
          RingRowsDistinct(u, t, len);
        } else if t < u {
          RingRowsDistinct(t, u, len);
        }
      }
    }
  }

  // ---------------------------------------------------------------------
  // Augmented-Lagrangian coefficients
  // ---------------------------------------------------------------------

  /** `10 ** e`, the initial penalty `c_init` for `c_init_order == e`. */
  function Pow10(e: int): (r: real)
    ensures r > 0.0
    ensures e >= 0 ==> r >= 1.0
    decreases if e < 0 then -e else e
  {
    if e == 0 then 1.0
    else if e > 0 then 10.0 * Pow10(e - 1)
    else Pow10(e + 1) / 10.0
  }

  function Pow4(n: nat): (r: real)
    ensures r >= 1.0
  {
    if n == 0 then 1.0 else 4.0 * Pow4(n - 1)
  }

  /**
   * The randomised test of an epoch's end: the constraint violation did not
   * shrink by the target factor, so the penalty was too weak.
   */
  predicate PenaltyTooWeak(d: EpochDraw) {
    d.u < 1.0 - d.p / 2.0 && d.t > 0.0
  }

  /** The penalty after an epoch that did not end the run. */
  function NextC(c: real, d: EpochDraw): real {
    if PenaltyTooWeak(d) then 4.0 * c else c
  }

  /** The penalty `c` in force during epoch `k`, given no earlier epoch ended the run. */
  function CAt(cInit: real, o: Oracle, k: nat): (c: real)
    ensures cInit > 0.0 ==> c >= cInit
  {
    if k == 0 then cInit else NextC(CAt(cInit, o, k - 1), o.epoch(k - 1))
  }

  /** The number of epochs before `k` whose test found the penalty too weak. */
  function Raises(o: Oracle, k: nat): (n: nat)
    ensures n <= k
  {
    if k == 0 then 0 else Raises(o, k - 1) + (if PenaltyTooWeak(o.epoch(k - 1)) then 1 else 0)
  }

  /** Each epoch either keeps `c` or multiplies it by exactly 4. */
  lemma CStep(cInit: real, o: Oracle, k: nat)
    ensures CAt(cInit, o, k + 1) == 4.0 * CAt(cInit, o, k) || CAt(cInit, o, k + 1) == CAt(cInit, o, k)
    ensures CAt(cInit, o, k + 1) == 4.0 * CAt(cInit, o, k) <== PenaltyTooWeak(o.epoch(k))
    ensures CAt(cInit, o, k + 1) == CAt(cInit, o, k) <== !PenaltyTooWeak(o.epoch(k))
  {
  }

  /** `c` is `c_init` times 4 to the number of raises so far. */
  lemma {:induction false} CIsPowerOfFour(cInit: real, o: Oracle, k: nat)
    ensures CAt(cInit, o, k) == cInit * Pow4(Raises(o, k))
  {
    if k > 0 {
      CIsPowerOfFour(cInit, o, k - 1);
    }
  }

  /** For a positive `c_init`, `c` never decreases. */
  lemma {:induction false} CNonDecreasing(cInit: real, o: Oracle, j: nat, k: nat)
    requires cInit > 0.0 && j <= k
    ensures 0.0 < CAt(cInit, o, j) <= CAt(cInit, o, k)
    decreases k
  {
    if j < k {
      CNonDecreasing(cInit, o, j, k - 1);
    }
  }

  /** The multiplier `lambda` in force during epoch `k`, given no earlier epoch ended the run. */
  function LambdaAt(n: nat, cInit: real, o: Oracle, k: nat): (l: Vec)
    requires Shaped(o, n)
    ensures |l| == n
  {
    if k == 0 then Zeros(n)
    else AddScaled(LambdaAt(n, cInit, o, k - 1), CAt(cInit, o, k - 1), o.epoch(k - 1).r)
  }

  /** `sum_{j < k} c_j * R_j[i]`: the penalty-weighted residuals of the first `k` epochs. */
  function WeightedResiduals(cInit: real, o: Oracle, k: nat, i: nat): real {
    if k == 0 then 0.0
    else WeightedResiduals(cInit, o, k - 1, i) + CAt(cInit, o, k - 1) * (if i < |o.epoch(k - 1).r| then o.epoch(k - 1).r[i] else 0.0)
  }

  /** Each entry of `lambda` is the sum of the residuals so far, each weighted by the `c` of its epoch. */
  lemma {:induction false} LambdaIsWeightedSum(n: nat, cInit: real, o: Oracle, k: nat, i: nat)
    requires Shaped(o, n) && i < n
    ensures LambdaAt(n, cInit, o, k)[i] == WeightedResiduals(cInit, o, k, i)
  {
    if k > 0 {
      LambdaIsWeightedSum(n, cInit, o, k - 1, i);
      assert |o.epoch(k - 1).r| == n;
    }
  }

  // ---------------------------------------------------------------------
  // Epochs
  // ---------------------------------------------------------------------

  /** The number of global steps taken by `e` full epochs of `max_iters` steps each. */
  function StepsOf(e: nat, maxIters: nat): nat {
    if e == 0 then 0 else StepsOf(e - 1, maxIters) + maxIters
  }

  lemma {:induction false} StepsOfIsProduct(e: nat, maxIters: nat)
    ensures StepsOf(e, maxIters) == e * maxIters
  {
    if e > 0 {
      StepsOfIsProduct(e - 1, maxIters);
      assert e * maxIters == (e - 1) * maxIters + maxIters;
    }
  }

  lemma {:induction false} StepsOfMonotone(j: nat, e: nat, maxIters: nat)
    requires j <= e
    ensures StepsOf(j, maxIters) <= StepsOf(e, maxIters)
  {
    if j < e {
      StepsOfMonotone(j, e - 1, maxIters);
    }
  }

  /** `epoch_inds` after `e` epochs: 0, then the last global step of each epoch. */
  function EpochEnds(e: nat, maxIters: nat): (ends: seq<nat>)
    ensures |ends| == e + 1
  {
    if e == 0 then [0] else EpochEnds(e - 1, maxIters) + [StepsOf(e, maxIters)]
  }

  /** Entry `j` of `epoch_inds` is `j * max_iters`. */
  lemma {:induction false} EpochEndsAt(e: nat, maxIters: nat, j: nat)
    requires j <= e
    ensures EpochEnds(e, maxIters)[j] == j * maxIters
  {
    if j < e {
      EpochEndsAt(e - 1, maxIters, j);
    } else {
      StepsOfIsProduct(j, maxIters);
    }
  }

  /** `cs` after `e` epochs: the `c` in force at the start of each. */
  function CHistory(cInit: real, o: Oracle, e: nat): (cs: seq<real>)
    ensures |cs| == e
  {
    if e == 0 then [] else CHistory(cInit, o, e - 1) + [CAt(cInit, o, e - 1)]
  }

  lemma {:induction false} CHistoryAt(cInit: real, o: Oracle, e: nat, j: nat)
    requires j < e
    ensures CHistory(cInit, o, e)[j] == CAt(cInit, o, j)
  {
    if j < e - 1 {
      CHistoryAt(cInit, o, e - 1, j);
    }
  }

  /** `lambdas` after `e` epochs: the `lambda` in force at the start of each. */
  function LambdaHistory(n: nat, cInit: real, o: Oracle, e: nat): (ls: seq<Vec>)
    requires Shaped(o, n)
    ensures |ls| == e
  {
    if e == 0 then [] else LambdaHistory(n, cInit, o, e - 1) + [LambdaAt(n, cInit, o, e - 1)]
  }

  lemma {:induction false} LambdaHistoryAt(n: nat, cInit: real, o: Oracle, e: nat, j: nat)
    requires Shaped(o, n) && j < e
    ensures LambdaHistory(n, cInit, o, e)[j] == LambdaAt(n, cInit, o, j)
  {
    if j < e - 1 {
      LambdaHistoryAt(n, cInit, o, e - 1, j);
    }
  }

  /**
   * The AL state after `e` epochs: `cs` and `lambdas` hold one entry per
   * epoch, the `c` and `lambda` in force at its start; `lambda` has had
   * every epoch's update; `c` has had every epoch's adaptation except that
   * of an epoch which ended the run.
   */
  ghost predicate AlState(n: nat, cInit: real, b: Behavior, o: Oracle, e: nat,
                          c: real, lambda: Vec, cs: seq<real>, lambdas: seq<Vec>)
    requires Shaped(o, n)
  {
    && cs == CHistory(cInit, o, e)
    && lambdas == LambdaHistory(n, cInit, o, e)
    && lambda == LambdaAt(n, cInit, o, e)
    && c == (if e > 0 && Stops(b, o.epoch(e - 1)) then CAt(cInit, o, e - 1) else CAt(cInit, o, e))
  }

  /** A `feasible` behaviour whose predicate holds on the epoch-end statistics ends the run. */
  predicate Stops(b: Behavior, d: EpochDraw) {
    b.Feasible? && b.isFeasible(d.snap.tx)
  }

  function EpochsFrom(b: Behavior, o: Oracle, kMax: nat, k: nat): (e: nat)
    requires k <= kMax
    ensures k <= e <= kMax
    ensures k < kMax ==> k < e
    ensures forall j :: k <= j < e - 1 ==> !Stops(b, o.epoch(j))
    ensures e < kMax ==> Stops(b, o.epoch(e - 1))
    decreases kMax - k
  {
    if k == kMax then k
    else if Stops(b, o.epoch(k)) then k + 1
    else EpochsFrom(b, o, kMax, k + 1)
  }

  /**
   * The number of epochs a run of at most `k_max` epochs executes: up to and
   * including the first one whose statistics are feasible, or all of them.
   */
  function EpochsRun(b: Behavior, o: Oracle, kMax: nat): (e: nat)
    ensures e <= kMax && (kMax > 0 ==> e > 0)
    ensures forall j :: 0 <= j < e - 1 ==> !Stops(b, o.epoch(j))
    ensures e < kMax ==> Stops(b, o.epoch(e - 1))
    ensures (exists j :: 0 <= j < kMax && Stops(b, o.epoch(j))) <==> e > 0 && Stops(b, o.epoch(e - 1))
  {
    EpochsFrom(b, o, kMax, 0)
  }

  /** No epoch before epoch `k` stops the run. */
  predicate NoneStops(b: Behavior, o: Oracle, k: nat) {
    k == 0 || (NoneStops(b, o, k - 1) && !Stops(b, o.epoch(k - 1)))
  }

  lemma {:induction false} NoneStopsMeansAll(b: Behavior, o: Oracle, k: nat)
    ensures NoneStops(b, o, k) <==> forall j :: 0 <= j < k ==> !Stops(b, o.epoch(j))
  {
    if k > 0 {
      NoneStopsMeansAll(b, o, k - 1);
    }
  }

  /** A run whose first `k` epochs did not stop lasts beyond epoch `k` when `k < k_max`. */
  lemma EpochsRunAtLeast(b: Behavior, o: Oracle, kMax: nat, k: nat)
    requires k < kMax && NoneStops(b, o, k)
    ensures k + 1 <= EpochsRun(b, o, kMax)
  {
    NoneStopsMeansAll(b, o, k);
  }

  /** Any count with the three properties of `EpochsRun` is `EpochsRun`. */
  lemma EpochsRunUnique(b: Behavior, o: Oracle, kMax: nat, e: nat)
    requires e <= kMax && (kMax > 0 ==> e > 0)
    requires e > 0 ==> NoneStops(b, o, e - 1)
    requires e < kMax ==> Stops(b, o.epoch(e - 1))
    ensures EpochsRun(b, o, kMax) == e
  {
    if e > 0 {
      NoneStopsMeansAll(b, o, e - 1);
    }
  }

  /**
   * An epoch that runs needs no more check steps than the whole run: if the
   * diagnostic arrays overflow during epoch `k`, the run as a whole overflows.
   */
  lemma EpochOverflowFinal(b: Behavior, o: Oracle, kMax: nat, k: nat, maxIters: nat, checkRate: nat)
    requires checkRate > 0 && k < kMax && NoneStops(b, o, k)
    ensures |CheckSteps(StepsOf(k + 1, maxIters), checkRate)| <= |CheckSteps(StepsOf(EpochsRun(b, o, kMax), maxIters), checkRate)|
  {
    EpochsRunAtLeast(b, o, kMax, k);
    StepsOfMonotone(k + 1, EpochsRun(b, o, kMax), maxIters);
    CheckStepsPrefix(StepsOf(k + 1, maxIters), StepsOf(EpochsRun(b, o, kMax), maxIters), checkRate);
  }

  /**
   * When `max_iters` is a multiple of `check_rate`, the check steps of any
   * `e <= k_max` epochs fit in the diagnostic arrays: such a run never
   * raises the IndexError.
   */
  lemma RunFits(kMax: nat, maxIters: nat, checkRate: nat, e: nat)
    requires checkRate > 0 && maxIters % checkRate == 0 && e <= kMax
    ensures |CheckSteps(StepsOf(e, maxIters), checkRate)| <= NumDiagnosticChecks(kMax, maxIters, checkRate)
  {
    StepsOfIsProduct(e, maxIters);
    MulMonotone(e, kMax, maxIters);
    CheckStepsPrefix(e * maxIters, kMax * maxIters, checkRate);
    DiagnosticLogFilled(kMax, maxIters, checkRate);
  }
}
