/**
 * The cost-scale controller of GraphGroup (graph_group.cpp, increaseCostScaleFactor
 * and decreaseCostScaleFactor). The loss is multiplied by `factor` before the
 * backward pass; the factor grows after a run of clean updates and shrinks when
 * NaN/Inf gradients become too frequent. Counters are "since the last reset".
 *
 * The float arithmetic of the source is modelled over `real`, and the size_t
 * counters as unbounded naturals.
 */
module CostScaling {
  import opened Arith

  /** The parsed `--cost-scaling` option (costScale_ and the costScale*_ fields). */
  datatype Config = Config(
    enabled: bool,        // costScale_
    freq: nat,            // costScaleFreq_
    multiplier: real,     // costScaleMultiplier_
    nanTolerance: real,   // costScaleNanTolerance_
    nanRange: nat,        // costScaleNanRange_
    factorMinimum: real)  // costScaleFactorMinimum_

  /** What the two updates need of the configuration when scaling is on:
      `noNanSeen_ % costScaleFreq_` needs a non-zero frequency and the
      decrease divides by the multiplier. */
  predicate Usable(c: Config)
  {
    c.enabled ==> c.freq > 0 && c.multiplier != 0.0
  }

  /** The mutable numerics: costScaleFactor_, nanSeen_ and noNanSeen_. */
  datatype Counters = Counters(factor: real, nanSeen: nat, noNanSeen: nat)

  function Total(s: Counters): nat
  {
    s.nanSeen + s.noNanSeen
  }

  /** Share of NaN/Inf updates since the last reset (the `nanPercent` of the decrease). */
  function NanPercent(s: Counters): (p: real)
    requires Total(s) > 0
    ensures 0.0 <= p <= 1.0
    ensures p == 1.0 <==> s.noNanSeen == 0
  {
    Share(s.nanSeen, Total(s));
    s.nanSeen as real / Total(s) as real
  }

  /** One call of increaseCostScaleFactor: one more clean update. */
  function Increase(c: Config, s: Counters): (r: Counters)
    requires c.enabled ==> c.freq > 0
    ensures !c.enabled ==> r == s
    ensures r.factor != s.factor ==> r.nanSeen == 0 && r.noNanSeen == 0
    ensures c.enabled ==> (Total(r) == 0 <==> (s.noNanSeen + 1) % c.freq == 0)
  {
    if !c.enabled then s
    else
      var noNanSeen := s.noNanSeen + 1;
      if noNanSeen % c.freq == 0 then Counters(s.factor * c.multiplier, 0, 0)
      else s.(noNanSeen := noNanSeen)
  }

  /** The test of the decrease, made after nanSeen_ was incremented:
      the observation window is full and the NaN share exceeds the tolerance. */
  predicate TooManyNans(c: Config, s: Counters)
    requires Total(s) > 0
  {
    Total(s) >= c.nanRange && NanPercent(s) > c.nanTolerance
  }

  /** One call of decreaseCostScaleFactor: one more update with NaN/Inf. */
  function Decrease(c: Config, s: Counters): (r: Counters)
    requires c.enabled ==> c.multiplier != 0.0
    ensures !c.enabled ==> r == s
    ensures r.factor != s.factor ==> s.factor > c.factorMinimum && r.nanSeen == 0 && r.noNanSeen == 0
  {
    if !c.enabled then s
    else
      var t := s.(nanSeen := s.nanSeen + 1);
      if TooManyNans(c, t) then
        var factor := if t.factor > c.factorMinimum then t.factor / c.multiplier else t.factor;
        Counters(factor, 0, 0)
      else t
  }

  /** `factor` multiplied n times by `multiplier`. */
  function MultipliedTimes(factor: real, multiplier: real, n: nat): real
  {
    if n == 0 then factor else MultipliedTimes(factor, multiplier, n - 1) * multiplier
  }

  /** k consecutive calls of increaseCostScaleFactor. */
  function IncreaseTimes(c: Config, s: Counters, k: nat): Counters
    requires c.enabled ==> c.freq > 0
  {
    if k == 0 then s else Increase(c, IncreaseTimes(c, s, k - 1))
  }

  /**
   * After k clean updates, starting from a state whose clean counter is below
   * the frequency, the factor has been multiplied exactly (n + k) / freq times
   * (n the starting clean count) and the clean counter is (n + k) mod freq; the
   * NaN counter survives only while no increase has happened.
   */
  lemma {:induction false} IncreaseTimesMultipliesPerFrequency(c: Config, s: Counters, k: nat)
    requires c.enabled && c.freq > 0
    requires s.noNanSeen < c.freq
    ensures IncreaseTimes(c, s, k).factor == MultipliedTimes(s.factor, c.multiplier, (s.noNanSeen + k) / c.freq)
    ensures IncreaseTimes(c, s, k).noNanSeen == (s.noNanSeen + k) % c.freq
    ensures IncreaseTimes(c, s, k).nanSeen == if s.noNanSeen + k < c.freq then s.nanSeen else 0
  {
    var n := s.noNanSeen;
    if k == 0 {
      DivModUnique(n, c.freq, 0, n);
    } else {
      IncreaseTimesMultipliesPerFrequency(c, s, k - 1);
      var p := IncreaseTimes(c, s, k - 1);
      IncreaseStep(c, s, p, n + k - 1);
      assert IncreaseTimes(c, s, k) == Increase(c, p);
    }
  }

  /** The inductive step of IncreaseTimesMultipliesPerFrequency, after a = n + k - 1 clean updates. */
  lemma IncreaseStep(c: Config, s: Counters, p: Counters, a: nat)
    requires c.enabled && c.freq > 0 && s.noNanSeen <= a
    requires p.factor == MultipliedTimes(s.factor, c.multiplier, a / c.freq)
    requires p.noNanSeen == a % c.freq
    requires p.nanSeen == if a < c.freq then s.nanSeen else 0
    ensures Increase(c, p).factor == MultipliedTimes(s.factor, c.multiplier, (a + 1) / c.freq)
    ensures Increase(c, p).noNanSeen == (a + 1) % c.freq
    ensures Increase(c, p).nanSeen == if a + 1 < c.freq then s.nanSeen else 0
  {
    if a % c.freq + 1 == c.freq {
      IncreaseStepWraps(c, s, p, a);
    } else {
      IncreaseStepCounts(c, s, p, a);
    }
  }

  /** The clean count reaches the frequency: the factor is multiplied and both counters reset. */
  lemma IncreaseStepWraps(c: Config, s: Counters, p: Counters, a: nat)
    requires c.enabled && c.freq > 0 && a % c.freq + 1 == c.freq
    requires p.factor == MultipliedTimes(s.factor, c.multiplier, a / c.freq)
    requires p.noNanSeen == a % c.freq
    ensures Increase(c, p).factor == MultipliedTimes(s.factor, c.multiplier, (a + 1) / c.freq)
    ensures Increase(c, p).noNanSeen == (a + 1) % c.freq
    ensures Increase(c, p).nanSeen == if a + 1 < c.freq then s.nanSeen else 0
  {
    DivModWrap(a, c.freq);
    DivModUnique(c.freq, c.freq, 1, 0);
    assert Increase(c, p) == Counters(p.factor * c.multiplier, 0, 0);
    ModAtMost(a, c.freq);
  }

  /** The clean count stays below the frequency: only the clean counter moves. */
  lemma IncreaseStepCounts(c: Config, s: Counters, p: Counters, a: nat)
    requires c.enabled && c.freq > 0 && a % c.freq + 1 < c.freq
    requires p.factor == MultipliedTimes(s.factor, c.multiplier, a / c.freq)
    requires p.noNanSeen == a % c.freq
    requires p.nanSeen == if a < c.freq then s.nanSeen else 0
    ensures Increase(c, p).factor == MultipliedTimes(s.factor, c.multiplier, (a + 1) / c.freq)
    ensures Increase(c, p).noNanSeen == (a + 1) % c.freq
    ensures Increase(c, p).nanSeen == if a + 1 < c.freq then s.nanSeen else 0
  {
    DivModCount(a, c.freq);
    DivModUnique(a % c.freq + 1, c.freq, 0, a % c.freq + 1);
    assert Increase(c, p) == p.(noNanSeen := a % c.freq + 1);
    if a < c.freq {
      DivModUnique(a, c.freq, 0, a);
    }
  }

  /** The clean counter stays below the frequency: a reachable-state invariant. */
  predicate BelowFrequency(c: Config, s: Counters)
  {
    c.freq > 0 && s.noNanSeen < c.freq
  }

  lemma IncreaseKeepsBelowFrequency(c: Config, s: Counters)
    requires BelowFrequency(c, s)
    ensures BelowFrequency(c, Increase(c, s))
  {
    if c.enabled && s.noNanSeen + 1 == c.freq {
      DivModUnique(c.freq, c.freq, 1, 0);
    }
  }

  lemma DecreaseKeepsBelowFrequency(c: Config, s: Counters)
    requires c.enabled ==> c.multiplier != 0.0
    requires BelowFrequency(c, s)
    ensures BelowFrequency(c, Decrease(c, s))
  {
  }

  /**
   * When scaling is on the NaN counter goes up by one, so the share of NaN
   * updates is well defined, and the counters are reset exactly when the
   * window is full and the tolerance is exceeded, whether or not the factor
   * could still be divided.
   */
  lemma DecreaseResetsExactlyWhenWarranted(c: Config, s: Counters)
    requires c.enabled && c.multiplier != 0.0
    ensures var t := s.(nanSeen := s.nanSeen + 1);
      && Total(t) >= 1
      && (TooManyNans(c, t) ==> Decrease(c, s) == Counters(if s.factor > c.factorMinimum then s.factor / c.multiplier else s.factor, 0, 0))
      && (!TooManyNans(c, t) ==> Decrease(c, s) == t)
      && (Decrease(c, s).nanSeen == 0 <==> TooManyNans(c, t))
      && (Decrease(c, s).factor < s.factor ==> TooManyNans(c, t))
  {
  }

  /** At or below the minimum a decrease never changes the factor. */
  lemma DecreaseStopsAtMinimum(c: Config, s: Counters)
    requires c.enabled ==> c.multiplier != 0.0
    requires s.factor <= c.factorMinimum
    ensures Decrease(c, s).factor == s.factor
  {
  }

  /** The floor holds after a decrease only when the factor was at least a multiplier above it. */
  lemma DecreaseKeepsFloorFromAbove(c: Config, s: Counters)
    requires c.enabled && c.multiplier > 0.0
    requires s.factor >= c.factorMinimum * c.multiplier
    ensures Decrease(c, s).factor >= c.factorMinimum || Decrease(c, s).factor == s.factor
  {
    var r := Decrease(c, s);
    if r.factor != s.factor {
      assert r.factor == s.factor / c.multiplier;
      assert r.factor * c.multiplier == s.factor;
    }
  }

  /** The source does not enforce the floor: one division can go below the minimum. */
  lemma DecreaseCanGoBelowMinimum()
    ensures exists c: Config, s: Counters ::
      Usable(c) && s.factor >= c.factorMinimum && Decrease(c, s).factor < c.factorMinimum
  {
    var c := Config(true, 2000, 2.0, 0.05, 50, 1.0);
    var s := Counters(1.5, 49, 0);
    assert NanPercent(s.(nanSeen := 50)) == 1.0;
    assert Decrease(c, s).factor == 0.75;
  }

  /**
   * Ten updates of which three had NaN/Inf, with range 10 and tolerance 0.3:
   * the share is exactly 0.3, which does not exceed the tolerance, so the
   * factor stays and the counters keep counting.
   */
  lemma ThreeInTenAtToleranceKeepsFactor(c: Config, s: Counters)
    requires c.enabled && c.multiplier != 0.0 && c.nanRange == 10 && c.nanTolerance == 0.3
    requires s.nanSeen == 2 && s.noNanSeen == 7
    ensures Decrease(c, s) == Counters(s.factor, 3, 7)
  {
    assert NanPercent(Counters(s.factor, 3, 7)) == 0.3;
  }
}
