/**
 * The normalization factor of GraphGroup::computeNormalizationFactor
 * (graph_group.cpp:167-215). The gradient is divided by this factor before the
 * update. The factor undoes cost scaling and may turn a summed loss into a
 * per-word mean. It also pulls an outlier gradient norm back to the running
 * average kept by the scheduler.
 *
 * Floats are modelled as reals. `log`, `exp`, `sqrt` and `isFinite` are
 * parameters of arbitrary value, so nothing is assumed about them.
 */
module GradientNorm {

  /** The maths library as the code sees it: nothing is assumed of these. */
  datatype MathOracles = MathOracles(
    log: real -> real,
    exp: real -> real,
    sqrt: real -> real,
    isFinite: real -> bool)

  /** (window, mean, variance) as returned by the scheduler's statistics getters. */
  datatype NormStats = NormStats(window: nat, mean: real, variance: real)

  /** What the computation reads from the scheduler. */
  datatype SchedulerView = SchedulerView(
    normStats: NormStats,      // getGradientNormStats()
    logNormStats: NormStats,   // getLogGradientNormStats()
    numberOfBatches: nat)      // numberOfBatches()

  /** The options read by the computation (fixed at construction). */
  datatype Config = Config(
    costScale: bool,                    // costScale_
    normalizeGradient: bool,            // option normalize-gradient
    dynamicScaling: bool,               // dynamicGradientScaling_
    dynamicScalingFactor: real,         // dynamicGradientScalingFactor_
    useLogs: bool)                      // dynamicGradientScalingUseLogs_

  /** Cost scale times word count: the factor before any outlier correction. */
  function BaseFactor(c: Config, costScaleFactor: real, updateTrgWords: nat): real
  {
    (if c.costScale then costScaleFactor else 1.0) * (if c.normalizeGradient then updateTrgWords as real else 1.0)
  }

  /** The statistics the chosen mode reads. */
  function Stats(c: Config, sched: SchedulerView): NormStats
  {
    if c.useLogs then sched.logNormStats else sched.normStats
  }

  /** The running average gradient norm, back in untransformed units (gNormAvg). */
  function AverageNorm(c: Config, ops: MathOracles, sched: SchedulerView): real
  {
    if c.useLogs then ops.exp(Stats(c, sched).mean) else Stats(c, sched).mean
  }

  /**
   * The divisions the rescaling path performs are by non-zero values: the
   * normalization by the cost-scale factor and the word count for a finite
   * norm under dynamic scaling, and the division by the average only for an
   * outlier.
   */
  predicate RescaleDefined(c: Config, ops: MathOracles, sched: SchedulerView, costScaleFactor: real, gNorm: real, updateTrgWords: nat)
  {
    c.dynamicScaling && ops.isFinite(gNorm) ==>
      && (c.costScale ==> costScaleFactor != 0.0) && updateTrgWords > 0
      && (IsOutlier(c, ops, sched, NormalizedNorm(c, costScaleFactor, gNorm, updateTrgWords)) ==> AverageNorm(c, ops, sched) != 0.0)
  }

  /** The gradient norm with cost scaling undone, per target word (lines 181-186). */
  function NormalizedNorm(c: Config, costScaleFactor: real, gNorm: real, updateTrgWords: nat): real
    requires c.costScale ==> costScaleFactor != 0.0
    requires updateTrgWords > 0
  {
    var unscaled := if c.costScale then gNorm / costScaleFactor else gNorm;
    unscaled / updateTrgWords as real
  }

  /** The outlier test of line 206, on the normalized norm. */
  predicate IsOutlier(c: Config, ops: MathOracles, sched: SchedulerView, norm: real)
  {
    var stats := Stats(c, sched);
    var transformed := if c.useLogs then ops.log(norm) else norm;
    sched.numberOfBatches >= stats.window
      && transformed - stats.mean > c.dynamicScalingFactor * ops.sqrt(stats.variance)
  }

  function ComputeNormalizationFactor(c: Config, ops: MathOracles, sched: SchedulerView, costScaleFactor: real, gNorm: real, updateTrgWords: nat): (r: real)
    requires RescaleDefined(c, ops, sched, costScaleFactor, gNorm, updateTrgWords)
    // a non-finite norm or disabled dynamic scaling: exactly the base factor
    ensures !ops.isFinite(gNorm) || !c.dynamicScaling ==> r == BaseFactor(c, costScaleFactor, updateTrgWords)
    // before the scheduler has seen a full window there is no rescaling
    ensures sched.numberOfBatches < Stats(c, sched).window ==> r == BaseFactor(c, costScaleFactor, updateTrgWords)
    // otherwise the base factor, or the base factor times normalized norm over average
    ensures c.dynamicScaling && ops.isFinite(gNorm) ==>
      var norm := NormalizedNorm(c, costScaleFactor, gNorm, updateTrgWords);
      && (IsOutlier(c, ops, sched, norm) ==> r == BaseFactor(c, costScaleFactor, updateTrgWords) * (norm / AverageNorm(c, ops, sched)))
      && (!IsOutlier(c, ops, sched, norm) ==> r == BaseFactor(c, costScaleFactor, updateTrgWords))
  {
    var factor := BaseFactor(c, costScaleFactor, updateTrgWords);
    if !ops.isFinite(gNorm) then factor
    else if !c.dynamicScaling then factor
    else
      var norm := NormalizedNorm(c, costScaleFactor, gNorm, updateTrgWords);
      if IsOutlier(c, ops, sched, norm) then factor * (norm / AverageNorm(c, ops, sched))
      else factor
  }

  /**
   * Scaling the raw norm and the cost-scale factor by the same positive k
   * (what a k-times larger loss scale does to the gradient) leaves the
   * normalized norm, and so the outlier decision, unchanged, and multiplies
   * the factor by k. The gradient, k times larger, is then divided by a k
   * times larger factor, and the update is the same.
   */
  lemma CostScaleInvariance(c: Config, ops: MathOracles, sched: SchedulerView, costScaleFactor: real, gNorm: real, updateTrgWords: nat, k: real)
    requires c.costScale && k > 0.0 && costScaleFactor != 0.0
    requires ops.isFinite(k * gNorm) == ops.isFinite(gNorm)
    requires RescaleDefined(c, ops, sched, costScaleFactor, gNorm, updateTrgWords)
    ensures RescaleDefined(c, ops, sched, k * costScaleFactor, k * gNorm, updateTrgWords)
    ensures updateTrgWords > 0 ==>
      NormalizedNorm(c, k * costScaleFactor, k * gNorm, updateTrgWords) == NormalizedNorm(c, costScaleFactor, gNorm, updateTrgWords)
    ensures ComputeNormalizationFactor(c, ops, sched, k * costScaleFactor, k * gNorm, updateTrgWords)
         == k * ComputeNormalizationFactor(c, ops, sched, costScaleFactor, gNorm, updateTrgWords)
  {
    var base := BaseFactor(c, costScaleFactor, updateTrgWords);
    BaseFactorScales(c, costScaleFactor, updateTrgWords, k);
    assert k * costScaleFactor != 0.0;
    if updateTrgWords > 0 {
      NormalizedNormInvariant(c, costScaleFactor, gNorm, updateTrgWords, k);
    }
    if c.dynamicScaling && ops.isFinite(gNorm) {
      var norm := NormalizedNorm(c, costScaleFactor, gNorm, updateTrgWords);
      if IsOutlier(c, ops, sched, norm) {
        MulAssoc(k, base, norm / AverageNorm(c, ops, sched));
      }
    }
  }

  /** With cost scaling on, the base factor is linear in the cost-scale factor. */
  lemma BaseFactorScales(c: Config, costScaleFactor: real, updateTrgWords: nat, k: real)
    requires c.costScale
    ensures BaseFactor(c, k * costScaleFactor, updateTrgWords) == k * BaseFactor(c, costScaleFactor, updateTrgWords)
  {
    var words := if c.normalizeGradient then updateTrgWords as real else 1.0;
    MulAssoc(k, costScaleFactor, words);
  }

  /** Scaling norm and cost-scale factor alike leaves the normalized norm as it was. */
  lemma NormalizedNormInvariant(c: Config, costScaleFactor: real, gNorm: real, updateTrgWords: nat, k: real)
    requires c.costScale && k != 0.0 && costScaleFactor != 0.0 && updateTrgWords > 0
    ensures k * costScaleFactor != 0.0
    ensures NormalizedNorm(c, k * costScaleFactor, k * gNorm, updateTrgWords) == NormalizedNorm(c, costScaleFactor, gNorm, updateTrgWords)
  {
    DivCancel(k, gNorm, costScaleFactor);
  }

  lemma MulAssoc(a: real, b: real, d: real)
    ensures (a * b) * d == a * (b * d)
  {
  }

  lemma DivCancel(k: real, x: real, y: real)
    requires k != 0.0 && y != 0.0
    ensures (k * x) / (k * y) == x / y
  {
    var q := x / y;
    assert x == q * y;
    assert k * x == q * (k * y);
  }

  /**
   * An outlier's extra factor is its normalized norm over the average, so the
   * normalized norm, divided by that extra factor, is the running average.
   */
  lemma OutlierRescaledToAverage(c: Config, ops: MathOracles, sched: SchedulerView, costScaleFactor: real, gNorm: real, updateTrgWords: nat)
    requires c.dynamicScaling && ops.isFinite(gNorm)
    requires RescaleDefined(c, ops, sched, costScaleFactor, gNorm, updateTrgWords)
    requires BaseFactor(c, costScaleFactor, updateTrgWords) != 0.0
    requires NormalizedNorm(c, costScaleFactor, gNorm, updateTrgWords) != 0.0
    requires IsOutlier(c, ops, sched, NormalizedNorm(c, costScaleFactor, gNorm, updateTrgWords))
    ensures var base := BaseFactor(c, costScaleFactor, updateTrgWords);
      var r := ComputeNormalizationFactor(c, ops, sched, costScaleFactor, gNorm, updateTrgWords);
      r != 0.0 && NormalizedNorm(c, costScaleFactor, gNorm, updateTrgWords) / (r / base) == AverageNorm(c, ops, sched)
  {
    var base := BaseFactor(c, costScaleFactor, updateTrgWords);
    var norm := NormalizedNorm(c, costScaleFactor, gNorm, updateTrgWords);
    var avg := AverageNorm(c, ops, sched);
    assert ComputeNormalizationFactor(c, ops, sched, costScaleFactor, gNorm, updateTrgWords) == base * (norm / avg);
    UndoRatio(norm, base, avg);
  }

  lemma UndoRatio(n: real, b: real, a: real)
    requires n != 0.0 && b != 0.0 && a != 0.0
    ensures b * (n / a) != 0.0 && n / ((b * (n / a)) / b) == a
  {
    var t := n / a;
    assert t != 0.0;
    assert (b * t) / b == t;
    assert n == t * a;
  }
}
