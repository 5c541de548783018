/** The shape of the rate curve, the direction of its feedback, and arithmetic that cannot overflow. */
module RateCurve {
  import opened Outcomes
  import opened FixedPoint
  import opened PoolTypes
  import opened Interest
  import opened AccrualFacts

  /** The unmodulated sum of all segments below the maximum utilization. */
  function Plateau(ps: InterestRateParams): int {
    ps.rBase + ps.rOne + ps.rTwo
  }

  /** The curve in closed form over mathematical integers. */
  function Curve(ps: InterestRateParams, util: int, irMod: int): int
    requires ValidParams(ps)
  {
    if util <= ps.targetUtil then
      FloorDiv(((if ps.targetUtil > 0 then FloorDiv(util * ps.rOne, ps.targetUtil) else 0) + ps.rBase) * irMod,
        SCALAR_7)
    else if util <= ps.maxUtil then
      FloorDiv((FloorDiv((util - ps.targetUtil) * ps.rTwo, ps.maxUtil - ps.targetUtil) + ps.rOne + ps.rBase) * irMod,
        SCALAR_7)
    else
      (if ps.maxUtil < SCALAR_7 then FloorDiv((util - ps.maxUtil) * ps.rThree, SCALAR_7 - ps.maxUtil) else ps.rThree)
        + Plateau(ps)
  }

  /** A ramp stays between its two ends. */
  lemma RampRange(x: int, slope: int, range: int)
    requires 0 <= x <= range && 0 < range && 0 <= slope
    ensures 0 <= x * slope && 0 <= FloorDiv(x * slope, range) <= slope
  {
    MulMono2(0, x, 0, slope);
    FloorNonNegative(x * slope, range);
    MulMono(x, range, slope);
    MulCancel(FloorDiv(x * slope, range), slope, range);
  }

  lemma ModulatedDefined(rate: int, irMod: int)
    requires 0 <= rate < 4 * TWO_TO_THE_32 && 0 <= irMod <= MAX_IR_MOD
    ensures Modulated(rate, irMod) == Ok(FloorDiv(rate * irMod, SCALAR_7))
    ensures 0 <= FloorDiv(rate * irMod, SCALAR_7) <= 40 * TWO_TO_THE_32
  {
    MulMono2(0, rate, 0, irMod);
    MulMono2(rate, 4 * TWO_TO_THE_32, irMod, MAX_IR_MOD);
    FloorNonNegative(rate * irMod, SCALAR_7);
    MulCancel(FloorDiv(rate * irMod, SCALAR_7), 40 * TWO_TO_THE_32, SCALAR_7);
  }

  lemma RampDefined(x: int, slope: U32, range: int, base: U32)
    requires 0 <= x <= range <= SCALAR_7 && 0 < range
    ensures Ramp(x, slope, range, base) == Ok(FloorDiv(x * slope, range) + base)
    ensures 0 <= FloorDiv(x * slope, range) <= slope
  {
    RampRange(x, slope, range);
    MulMono2(x, SCALAR_7, slope, TWO_TO_THE_32);
  }

  /** For validated parameters no step of the rate calculation can fail, and it computes the curve. */
  lemma RateIsCurve(ps: InterestRateParams, util: int, irMod: int)
    requires ValidParams(ps) && 0 <= util <= SCALAR_7 && 0 <= irMod <= MAX_IR_MOD
    ensures InterestRate(ps, util, irMod) == Ok(Curve(ps, util, irMod))
    ensures 0 <= Curve(ps, util, irMod) <= 40 * TWO_TO_THE_32
  {
    if util <= ps.targetUtil {
      if ps.targetUtil > 0 {
        RampDefined(util, ps.rOne, ps.targetUtil, ps.rBase);
        ModulatedDefined(FloorDiv(util * ps.rOne, ps.targetUtil) + ps.rBase, irMod);
      } else {
        ModulatedDefined(ps.rBase, irMod);
      }
    } else if util <= ps.maxUtil {
      RampDefined(util - ps.targetUtil, ps.rTwo, ps.maxUtil - ps.targetUtil, ps.rOne);
      ModulatedDefined(FloorDiv((util - ps.targetUtil) * ps.rTwo, ps.maxUtil - ps.targetUtil) + ps.rOne + ps.rBase,
        irMod);
    } else {
      RampDefined(util - ps.maxUtil, ps.rThree, SCALAR_7 - ps.maxUtil, ps.rTwo);
    }
  }

  lemma RampMono(x: int, y: int, slope: int, range: int)
    requires 0 <= x <= y && 0 < range && 0 <= slope
    ensures FloorDiv(x * slope, range) <= FloorDiv(y * slope, range)
  {
    MulMono(x, y, slope);
    FloorMono(x * slope, y * slope, range);
  }

  lemma ModulatedMono(a: int, b: int, irMod: int)
    requires a <= b && 0 <= irMod
    ensures FloorDiv(a * irMod, SCALAR_7) <= FloorDiv(b * irMod, SCALAR_7)
  {
    MulMono(a, b, irMod);
    FloorMono(a * irMod, b * irMod, SCALAR_7);
  }

  /** The curve below the maximum utilization before the modifier is applied. */
  function Slope(ps: InterestRateParams, util: int): int
    requires ValidParams(ps)
  {
    if util > ps.targetUtil then FloorDiv((util - ps.targetUtil) * ps.rTwo, ps.maxUtil - ps.targetUtil) + ps.rOne
      + ps.rBase
    else (if ps.targetUtil > 0 then FloorDiv(util * ps.rOne, ps.targetUtil) else 0) + ps.rBase
  }

  lemma CurveIsSlope(ps: InterestRateParams, util: int, irMod: int)
    requires ValidParams(ps) && util <= ps.maxUtil
    ensures Curve(ps, util, irMod) == FloorDiv(Slope(ps, util) * irMod, SCALAR_7)
  {
    hide FloorDiv;
  }

  lemma SlopeRises(ps: InterestRateParams, u: int, v: int)
    requires ValidParams(ps) && 0 <= u <= v <= ps.maxUtil
    ensures Slope(ps, u) <= Slope(ps, v) <= Plateau(ps)
  {
    hide FloorDiv;
    var t, m := ps.targetUtil, ps.maxUtil;
    if v > t {
      RampRange(v - t, ps.rTwo, m - t);
      if u > t {
        RampMono(u - t, v - t, ps.rTwo, m - t);
      } else if t > 0 {
        RampRange(u, ps.rOne, t);
      }
    } else if t > 0 {
      RampRange(v, ps.rOne, t);
      RampMono(u, v, ps.rOne, t);
    }
  }

  /** Up to the maximum utilization the curve never falls, and stays below the modulated plateau. */
  lemma CurveRisesToMax(ps: InterestRateParams, u: int, v: int, irMod: int)
    requires ValidParams(ps) && 0 <= u <= v <= ps.maxUtil && 0 <= irMod
    ensures Curve(ps, u, irMod) <= Curve(ps, v, irMod) <= FloorDiv(Plateau(ps) * irMod, SCALAR_7)
  {
    hide Curve, Slope, Plateau, FloorDiv;
    CurveIsSlope(ps, u, irMod);
    CurveIsSlope(ps, v, irMod);
    SlopeRises(ps, u, v);
    ModulatedMono(Slope(ps, u), Slope(ps, v), irMod);
    ModulatedMono(Slope(ps, v), Plateau(ps), irMod);
  }

  /** The step into the last segment, where the modifier stops applying, is not a step down. */
  predicate RisesAtMax(ps: InterestRateParams, irMod: int) {
    ps.maxUtil < SCALAR_7 ==>
      FloorDiv(Plateau(ps) * irMod, SCALAR_7) <= Plateau(ps) + FloorDiv(ps.rThree, SCALAR_7 - ps.maxUtil)
  }

  /** With a modifier of at most 1.0 the step into the last segment is never down. */
  lemma NeutralModifierRises(ps: InterestRateParams, irMod: int)
    requires ValidParams(ps) && 0 <= irMod <= SCALAR_7
    ensures RisesAtMax(ps, irMod)
  {
    if ps.maxUtil < SCALAR_7 {
      MulMono(irMod, SCALAR_7, Plateau(ps));
      MulCancel(FloorDiv(Plateau(ps) * irMod, SCALAR_7), Plateau(ps), SCALAR_7);
      FloorNonNegative(ps.rThree, SCALAR_7 - ps.maxUtil);
    }
  }

  ghost predicate CurveMonotone(ps: InterestRateParams, irMod: int)
    requires ValidParams(ps)
  {
    forall u, v :: 0 <= u <= v <= SCALAR_7 ==> Curve(ps, u, irMod) <= Curve(ps, v, irMod)
  }

  /** At the maximum utilization the curve reaches the modulated plateau. */
  lemma CurveAtMax(ps: InterestRateParams, irMod: int)
    requires ValidParams(ps)
    ensures Curve(ps, ps.maxUtil, irMod) == FloorDiv(Plateau(ps) * irMod, SCALAR_7)
  {
    var range := ps.maxUtil - ps.targetUtil;
    FloorIsGreatest(range * ps.rTwo, range, ps.rTwo);
    RampRange(range, ps.rTwo, range);
    assert FloorDiv(range * ps.rTwo, range) + ps.rOne + ps.rBase == Plateau(ps);
  }

  lemma CurveAboveMax(ps: InterestRateParams, irMod: int, u: int, v: int)
    requires ValidParams(ps) && 0 <= irMod && RisesAtMax(ps, irMod) && 0 <= u <= v <= SCALAR_7 && v > ps.maxUtil
    ensures Curve(ps, u, irMod) <= Curve(ps, v, irMod)
  {
    var m := ps.maxUtil;
    if u > m {
      RampMono(u - m, v - m, ps.rThree, SCALAR_7 - m);
    } else {
      CurveRisesToMax(ps, u, m, irMod);
      RampMono(1, v - m, ps.rThree, SCALAR_7 - m);
    }
  }

  lemma CurveJustAboveMax(ps: InterestRateParams, irMod: int)
    requires ValidParams(ps) && ps.maxUtil < SCALAR_7
    ensures Curve(ps, ps.maxUtil + 1, irMod) == Plateau(ps) + FloorDiv(ps.rThree, SCALAR_7 - ps.maxUtil)
  {
    var m := ps.maxUtil;
    assert (m + 1 - m) * ps.rThree == ps.rThree;
  }

  lemma MonotoneRisesAtMax(ps: InterestRateParams, irMod: int)
    requires ValidParams(ps) && CurveMonotone(ps, irMod)
    ensures RisesAtMax(ps, irMod)
  {
    var m := ps.maxUtil;
    if m < SCALAR_7 {
      var below, above := Curve(ps, m, irMod), Curve(ps, m + 1, irMod);
      assert below <= above;
      CurveAtMax(ps, irMod);
      CurveJustAboveMax(ps, irMod);
    }
  }

  lemma CurveOrdered(ps: InterestRateParams, irMod: int, u: int, v: int)
    requires ValidParams(ps) && 0 <= irMod && RisesAtMax(ps, irMod) && 0 <= u <= v <= SCALAR_7
    ensures Curve(ps, u, irMod) <= Curve(ps, v, irMod)
  {
    if v <= ps.maxUtil {
      CurveRisesToMax(ps, u, v, irMod);
    } else {
      CurveAboveMax(ps, irMod, u, v);
    }
  }

  /** The borrow rate is non-decreasing over all utilizations exactly when it does not step
      down where the modifier stops applying. */
  lemma MonotoneIffRisesAtMax(ps: InterestRateParams, irMod: int)
    requires ValidParams(ps) && 0 <= irMod
    ensures CurveMonotone(ps, irMod) <==> RisesAtMax(ps, irMod)
  {
    if CurveMonotone(ps, irMod) {
      MonotoneRisesAtMax(ps, irMod);
    } else if RisesAtMax(ps, irMod) {
      var u, v :| 0 <= u <= v <= SCALAR_7 && Curve(ps, u, irMod) > Curve(ps, v, irMod);
      CurveOrdered(ps, irMod, u, v);
    }
  }

  /** A raised modifier makes the rate fall across the maximum utilization. */
  lemma RateCanFallAtMax()
    ensures InterestRate(DEFAULT_PARAMS, 9_500_000, 2 * SCALAR_7) == Ok(11_200_000)
    ensures InterestRate(DEFAULT_PARAMS, 9_500_001, 2 * SCALAR_7) == Ok(5_600_030)
  {
  }

  /** The modifier moves toward the side of the utilization gap: up above target, down below. */
  lemma IrModFollowsGap(ps: InterestRateParams, util: int, irMod: int, delta: int)
    requires delta >= 0 && MIN_IR_MOD <= irMod <= MAX_IR_MOD && NextIrMod(ps, util, irMod, delta).Ok?
    ensures MIN_IR_MOD <= NextIrMod(ps, util, irMod, delta).value <= MAX_IR_MOD
    ensures util >= ps.targetUtil ==> NextIrMod(ps, util, irMod, delta).value >= irMod
    ensures util <= ps.targetUtil ==> NextIrMod(ps, util, irMod, delta).value <= irMod
  {
    var gap := util - ps.targetUtil;
    if gap >= 0 {
      MulMono2(0, delta, 0, gap);
      MulMono2(0, delta * gap, 0, ps.reactivity);
      FloorNonNegative(delta * gap * ps.reactivity, SCALAR_7);
    }
    if gap <= 0 {
      MulMono2(0, delta, 0, -gap);
      assert delta * -gap == -(delta * gap);
      MulMono2(0, -(delta * gap), 0, ps.reactivity);
      assert -(delta * gap) * ps.reactivity == -(delta * gap * ps.reactivity);
      FloorNonNegative(-(delta * gap * ps.reactivity), SCALAR_7);
    }
  }

  // ---- Bounds under which no checked step of an accrual fails ----

  const MAX_SUPPLY: int := 10_000_000_000_000_000        // a thousand million tokens of 7 decimals
  const MAX_RATE: int := 1_000_000_000_000_000           // a thousand times the initial rate
  const MAX_ELAPSED: int := 1_000_000_000                // over thirty years of seconds
  const MAX_CREDIT: int := 1_000_000_000_000_000_000_000_000_000_000
  const MAX_GROWTH: int := 1_000_000_000_000_000_000     // of the accrual factor

  predicate WithinBounds(r: Reserve, now: nat) {
    && ReserveOk(r)
    && r.bSupply <= MAX_SUPPLY && r.dSupply <= MAX_SUPPLY
    && r.bRate <= MAX_RATE && r.dRate <= MAX_RATE
    && 0 <= r.backstopCredit <= MAX_CREDIT && 0 <= r.treasuryCredit <= MAX_CREDIT
    && now <= r.lastTime + MAX_ELAPSED
  }

  lemma ProductBound(a: int, amax: int, b: int, bmax: int)
    requires 0 <= a <= amax && 0 <= b <= bmax
    ensures 0 <= a * b <= amax * bmax
  {
    MulMono2(a, amax, b, bmax);
  }

  lemma QuotientBound(a: int, d: int, q: int)
    requires 0 <= a <= q * d && 0 < d
    ensures 0 <= FloorDiv(a, d) <= q && TruncDiv(a, d) == FloorDiv(a, d)
  {
    FloorNonNegative(a, d);
    MulCancel(FloorDiv(a, d), q, d);
  }

  lemma UtilizationDefined(r: Reserve, now: nat)
    requires WithinBounds(r, now)
    ensures Utilization(r).Ok?
  {
    ProductBound(r.bSupply, MAX_SUPPLY, r.bRate, MAX_RATE);
    ProductBound(r.dSupply, MAX_SUPPLY, r.dRate, MAX_RATE);
    QuotientBound(r.bSupply * r.bRate, SCALAR_12, MAX_SUPPLY * MAX_RATE);
    QuotientBound(r.dSupply * r.dRate, SCALAR_12, MAX_SUPPLY * MAX_RATE);
    var s, l := FloorDiv(r.bSupply * r.bRate, SCALAR_12), FloorDiv(r.dSupply * r.dRate, SCALAR_12);
    if r.bSupply != 0 && s != 0 && l < s {
      MulMono(1, s, l * SCALAR_7);
      QuotientBound(l * SCALAR_7, s, l * SCALAR_7);
    }
  }

  lemma FactorDefined(rate: int, delta: int)
    requires 0 <= rate <= 40 * TWO_TO_THE_32 && 0 <= delta <= MAX_ELAPSED
    ensures AccrualFactor(rate, delta).Ok? && SCALAR_12 <= AccrualFactor(rate, delta).value <= MAX_GROWTH
  {
    ProductBound(delta, MAX_ELAPSED, rate, 40 * TWO_TO_THE_32);
    QuotientBound(delta * rate * SCALAR_12, SECONDS_PER_YEAR * SCALAR_7, MAX_GROWTH - SCALAR_12);
  }

  lemma NextIrModDefined(ps: InterestRateParams, util: int, irMod: int, delta: int)
    requires 0 <= util <= SCALAR_7 && ps.targetUtil <= SCALAR_7
    requires MIN_IR_MOD <= irMod <= MAX_IR_MOD && 0 <= delta <= MAX_ELAPSED
    ensures NextIrMod(ps, util, irMod, delta).Ok?
  {
    var gap := util - ps.targetUtil;
    var side := if gap >= 0 then gap else -gap;
    ProductBound(delta, MAX_ELAPSED, side, SCALAR_7);
    ProductBound(delta * side, MAX_ELAPSED * SCALAR_7, ps.reactivity, TWO_TO_THE_32);
    assert delta * gap == if gap >= 0 then delta * side else -(delta * side);
    assert delta * gap * ps.reactivity == if gap >= 0 then delta * side * ps.reactivity
      else -(delta * side * ps.reactivity);
    QuotientBound(delta * side * ps.reactivity, SCALAR_7, MAX_ELAPSED * SCALAR_7 * TWO_TO_THE_32);
  }

  /** The debt rate after accrual, and the interest it earns, with their bounds. */
  lemma InterestDefined(r: Reserve, accrual: int, now: nat)
    requires WithinBounds(r, now) && SCALAR_12 <= accrual <= MAX_GROWTH
    ensures var dRate := FloorDiv(r.dRate * accrual, SCALAR_12);
            var interest := FloorDiv(r.dSupply * (dRate - r.dRate), SCALAR_12);
            && 0 <= r.dRate * accrual <= MAX_RATE * MAX_GROWTH
            && r.dRate <= dRate <= 1_000 * MAX_GROWTH && TruncDiv(r.dRate * accrual, SCALAR_12) == dRate
            && InterestEarned(r.dSupply, dRate - r.dRate) == Ok(interest)
            && 0 <= interest <= MAX_INTEREST
  {
    ProductBound(r.dRate, MAX_RATE, accrual, MAX_GROWTH);
    QuotientBound(r.dRate * accrual, SCALAR_12, 1_000 * MAX_GROWTH);
    DebtRateGrows(r.dRate, accrual);
    var increase := FloorDiv(r.dRate * accrual, SCALAR_12) - r.dRate;
    EarnedDefined(r.dSupply, increase);
  }

  const MAX_INTEREST: int := MAX_SUPPLY * 1_000_000_000

  lemma EarnedDefined(dSupply: int, increase: int)
    requires 0 <= dSupply <= MAX_SUPPLY && 0 <= increase <= 1_000 * MAX_GROWTH
    ensures InterestEarned(dSupply, increase) == Ok(FloorDiv(dSupply * increase, SCALAR_12))
    ensures 0 <= FloorDiv(dSupply * increase, SCALAR_12) <= MAX_INTEREST
  {
    hide FloorDiv, TruncDiv;
    ProductBound(dSupply, MAX_SUPPLY, increase, 1_000 * MAX_GROWTH);
    var product := dSupply * increase;
    assert 0 <= product <= MAX_INTEREST * SCALAR_12 <= I128_MAX;
    QuotientBound(product, SCALAR_12, MAX_INTEREST);
    if dSupply == 0 {
      assert product == 0;
      DivZero(SCALAR_12);
    }
  }

  lemma SpreadDefined(bSupply: int, bRate: int, lenders: int)
    requires 0 < bSupply <= MAX_SUPPLY && 0 <= bRate <= MAX_RATE && 0 <= lenders <= MAX_INTEREST
    ensures SpreadToLenders(bSupply, FloorDiv(bSupply * bRate, SCALAR_12), lenders).Ok?
  {
    ProductBound(bSupply, MAX_SUPPLY, bRate, MAX_RATE);
    QuotientBound(bSupply * bRate, SCALAR_12, MAX_SUPPLY * 1_000);
    var total := (FloorDiv(bSupply * bRate, SCALAR_12) + lenders) * SCALAR_12;
    MulMono(1, bSupply, total);
    QuotientBound(total, bSupply, total);
  }

  lemma SuppliedDefined(bSupply: int, bRate: int)
    requires 0 <= bSupply <= MAX_SUPPLY && 0 <= bRate <= MAX_RATE
    ensures CheckedMul(bSupply, bRate) == Ok(bSupply * bRate)
    ensures CheckedDiv(bSupply * bRate, SCALAR_12) == Ok(FloorDiv(bSupply * bRate, SCALAR_12))
  {
    ProductBound(bSupply, MAX_SUPPLY, bRate, MAX_RATE);
    QuotientBound(bSupply * bRate, SCALAR_12, MAX_SUPPLY * 1_000);
  }

  lemma ApplyDefined(r: Reserve, takeRate: int, reserveFactor: int, accrual: int, nextIrMod: int, now: nat)
    requires WithinBounds(r, now) && SCALAR_12 <= accrual <= MAX_GROWTH
    requires takeRate >= 0 && reserveFactor >= 0 && takeRate + reserveFactor <= SCALAR_7
    ensures ApplyAccrual(r, takeRate, reserveFactor, accrual, nextIrMod, now).Ok?
  {
    hide InterestEarned, Take, SpreadToLenders, FloorDiv, TruncDiv;
    SuppliedDefined(r.bSupply, r.bRate);
    InterestDefined(r, accrual, now);
    var dRate := FloorDiv(r.dRate * accrual, SCALAR_12);
    var interest := FloorDiv(r.dSupply * (dRate - r.dRate), SCALAR_12);
    SharesWithinInterest(interest, takeRate, reserveFactor);
    TakeDefined(interest, MAX_INTEREST, takeRate);
    TakeDefined(interest, MAX_INTEREST, reserveFactor);
    if r.bSupply > 0 {
      SpreadDefined(r.bSupply, r.bRate,
        interest - FloorDiv(interest * takeRate, SCALAR_7) - FloorDiv(interest * reserveFactor, SCALAR_7));
    }
  }

  lemma TakeDefined(interest: int, maxInterest: int, rate: int)
    requires 0 <= interest <= maxInterest && maxInterest * SCALAR_7 <= I128_MAX && 0 <= rate <= SCALAR_7
    ensures Take(interest, rate) == Ok(FloorDiv(interest * rate, SCALAR_7))
  {
    ProductBound(interest, maxInterest, rate, SCALAR_7);
    QuotientBound(interest * rate, SCALAR_7, maxInterest);
    assert interest == 0 || rate == 0 ==> interest * rate == 0;
  }

  /** Within the bounds every accrual succeeds: no checked `i128` step fails. */
  lemma AccrualNeverOverflows(r: Reserve, configured: Option<InterestRateParams>, takeRate: int, reserveFactor: int,
      now: nat)
    requires WithinBounds(r, now)
    requires configured.Some? ==> ValidParams(configured.value)
    requires takeRate >= 0 && reserveFactor >= 0 && takeRate + reserveFactor <= SCALAR_7
    ensures Accrue(r, configured, takeRate, reserveFactor, now).Ok?
  {
    if now > r.lastTime && r.bSupply != 0 {
      var ps := if configured.Some? then configured.value else DEFAULT_PARAMS;
      UtilizationDefined(r, now);
      UtilizationRange(r);
      var util := Utilization(r).value;
      var delta := now - r.lastTime;
      RateIsCurve(ps, util, r.irMod);
      FactorDefined(Curve(ps, util, r.irMod), delta);
      NextIrModDefined(ps, util, r.irMod, delta);
      ApplyDefined(r, takeRate, reserveFactor, AccrualFactor(Curve(ps, util, r.irMod), delta).value,
                   NextIrMod(ps, util, r.irMod, delta).value, now);
    }
  }
}
