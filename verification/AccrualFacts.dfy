/** What one accrual does to the rates and to the reserve's solvency margin. */
module AccrualFacts {
  import opened Outcomes
  import opened FixedPoint
  import opened PoolTypes
  import opened Interest

  /** Debt claims minus lender claims minus both protocol credits, at 12 extra decimals. */
  function Margin(r: Reserve): int {
    r.dSupply * r.dRate - r.bSupply * r.bRate - (r.backstopCredit + r.treasuryCredit) * SCALAR_12
  }

  lemma DebtRateGrows(dRate: int, accrual: int)
    requires dRate >= 0 && accrual >= SCALAR_12
    ensures FloorDiv(dRate * accrual, SCALAR_12) >= dRate
  {
    MulMono(SCALAR_12, accrual, dRate);
    FloorIsGreatest(dRate * accrual, SCALAR_12, dRate);
  }

  /** Two protocol shares that together are at most everything never take more than the interest. */
  lemma SharesWithinInterest(interest: int, takeRate: int, reserveFactor: int)
    requires interest >= 0 && takeRate >= 0 && reserveFactor >= 0 && takeRate + reserveFactor <= SCALAR_7
    ensures FloorDiv(interest * takeRate, SCALAR_7) >= 0 && FloorDiv(interest * reserveFactor, SCALAR_7) >= 0
    ensures FloorDiv(interest * takeRate, SCALAR_7) + FloorDiv(interest * reserveFactor, SCALAR_7) <= interest
  {
    MulMono2(0, interest, 0, takeRate);
    MulMono2(0, interest, 0, reserveFactor);
    FloorNonNegative(interest * takeRate, SCALAR_7);
    FloorNonNegative(interest * reserveFactor, SCALAR_7);
    var x, y := FloorDiv(interest * takeRate, SCALAR_7), FloorDiv(interest * reserveFactor, SCALAR_7);
    assert (x + y) * SCALAR_7 <= interest * SCALAR_7 by {
      MulMono(takeRate + reserveFactor, SCALAR_7, interest);
      assert interest * takeRate + interest * reserveFactor == interest * (takeRate + reserveFactor);
    }
    MulCancel(x + y, interest, SCALAR_7);
  }

  /** Spreading `accrued` over the lenders: claims grow by at most what was accrued, the rate
      never drops below 1.0, it drops at all only when nothing was accrued, and then by less
      than one underlying unit per bToken plus one. */
  lemma SpreadBounds(bSupply: int, bRate: int, accrued: int)
    requires bSupply > 0 && bRate >= SCALAR_12 && accrued >= 0
    ensures var supplied := FloorDiv(bSupply * bRate, SCALAR_12);
            var bRate' := FloorDiv((supplied + accrued) * SCALAR_12, bSupply);
            && supplied >= 0
            && bSupply * bRate' <= bSupply * bRate + accrued * SCALAR_12
            && bRate' >= SCALAR_12
            && (accrued >= 1 ==> bRate' >= bRate)
            && (bRate - bRate' - 1) * bSupply < SCALAR_12
  {
    var supplied := FloorDiv(bSupply * bRate, SCALAR_12);
    var total := (supplied + accrued) * SCALAR_12;
    var bRate' := FloorDiv(total, bSupply);
    MulMono(SCALAR_12, bRate, bSupply);
    FloorIsGreatest(bSupply * bRate, SCALAR_12, bSupply);
    FloorIsGreatest(total, bSupply, SCALAR_12);
    if accrued >= 1 {
      FloorIsGreatest(total, bSupply, bRate);
    }
    assert (bRate - bRate' - 1) * bSupply == bRate * bSupply - (bRate' + 1) * bSupply;
  }

  /** The factor is at least one: time and rates are not negative. */
  lemma AccrualAtLeastOne(rate: int, delta: int)
    requires rate >= 0 && delta >= 0 && AccrualFactor(rate, delta).Ok?
    ensures AccrualFactor(rate, delta).value >= SCALAR_12
  {
    MulMono2(0, delta, 0, rate);
    FloorNonNegative(delta * rate * SCALAR_12, SECONDS_PER_YEAR * SCALAR_7);
  }

  lemma RampNonNegative(x: int, slope: int, range: int, base: int)
    requires x >= 0 && slope >= 0 && range > 0 && base >= 0 && Ramp(x, slope, range, base).Ok?
    ensures Ramp(x, slope, range, base).value == FloorDiv(x * slope, range) + base >= base
  {
    MulMono2(0, x, 0, slope);
    FloorNonNegative(x * slope, range);
  }

  lemma ModulatedValue(rate: int, irMod: int)
    requires rate >= 0 && irMod >= 0 && Modulated(rate, irMod).Ok?
    ensures Modulated(rate, irMod).value == FloorDiv(rate * irMod, SCALAR_7) >= 0
  {
    MulMono2(0, rate, 0, irMod);
    FloorNonNegative(rate * irMod, SCALAR_7);
  }

  lemma RateNonNegative(ps: InterestRateParams, util: int, irMod: int)
    requires util >= 0 && irMod >= 0 && InterestRate(ps, util, irMod).Ok?
    ensures InterestRate(ps, util, irMod).value >= 0
  {
    if util <= ps.targetUtil {
      if ps.targetUtil > 0 {
        RampNonNegative(util, ps.rOne, ps.targetUtil, ps.rBase);
        ModulatedValue(Ramp(util, ps.rOne, ps.targetUtil, ps.rBase).value, irMod);
      } else {
        ModulatedValue(ps.rBase, irMod);
      }
    } else if util <= ps.maxUtil {
      RampNonNegative(util - ps.targetUtil, ps.rTwo, ps.maxUtil - ps.targetUtil, ps.rOne);
      ModulatedValue(Ramp(util - ps.targetUtil, ps.rTwo, ps.maxUtil - ps.targetUtil, ps.rOne).value + ps.rBase, irMod);
    } else if SCALAR_7 > ps.maxUtil {
      RampNonNegative(util - ps.maxUtil, ps.rThree, SCALAR_7 - ps.maxUtil, ps.rTwo);
    }
  }

  /** In range whatever the lenders' rate is: a negative total supply reads as fully used. */
  lemma UtilizationRange(r: Reserve)
    requires r.bSupply >= 0 && r.dSupply >= 0 && r.dRate >= 0 && Utilization(r).Ok?
    ensures 0 <= Utilization(r).value <= SCALAR_7
  {
    MulMono2(0, r.dSupply, 0, r.dRate);
    FloorNonNegative(r.dSupply * r.dRate, SCALAR_12);
    var l := FloorDiv(r.dSupply * r.dRate, SCALAR_12);
    if r.bSupply != 0 && r.bRate >= 0 {
      MulMono2(0, r.bSupply, 0, r.bRate);
      FloorNonNegative(r.bSupply * r.bRate, SCALAR_12);
      var s := FloorDiv(r.bSupply * r.bRate, SCALAR_12);
      if s != 0 && l < s {
        FloorNonNegative(l * SCALAR_7, s);
      }
    } else if r.bSupply != 0 {
      MulMono(r.bRate, 0, r.bSupply);
      NegativeQuotient(r.bSupply * r.bRate);
    }
  }

  lemma NegativeQuotient(x: int)
    requires x <= 0
    ensures TruncDiv(x, SCALAR_12) <= 0
  {
  }

  lemma NextIrModRange(ps: InterestRateParams, util: int, irMod: int, delta: int)
    requires NextIrMod(ps, util, irMod, delta).Ok?
    ensures MIN_IR_MOD <= NextIrMod(ps, util, irMod, delta).value <= MAX_IR_MOD
  {
  }

  /** What an accrual guarantees about the reserve it produces from `r`. */
  ghost predicate Accrued(r: Reserve, r': Reserve) {
    && ReserveOk(r')
    && r'.bSupply == r.bSupply && r'.dSupply == r.dSupply
    && r'.dRate >= r.dRate
    && r'.backstopCredit >= r.backstopCredit && r'.treasuryCredit >= r.treasuryCredit
    && Margin(r') >= Margin(r)
    && (r.bSupply == 0 ==> r'.bRate == r.bRate)
    && (r.bRate - r'.bRate - 1) * r.bSupply < SCALAR_12
  }

  /** Rust's division of a non-negative dividend is the floor. */
  lemma DivIsFloor(a: int, d: int)
    requires a >= 0 && d > 0 && CheckedDiv(a, d).Ok?
    ensures CheckedDiv(a, d).value == FloorDiv(a, d) >= 0
  {
    FloorNonNegative(a, d);
  }

  lemma EarnedValue(dSupply: int, increase: int)
    requires dSupply >= 0 && increase >= 0 && InterestEarned(dSupply, increase).Ok?
    ensures InterestEarned(dSupply, increase).value == FloorDiv(dSupply * increase, SCALAR_12) >= 0
  {
    MulMono2(0, dSupply, 0, increase);
    if dSupply == 0 {
      assert dSupply * increase == 0;
      DivZero(SCALAR_12);
    } else {
      DivIsFloor(dSupply * increase, SCALAR_12);
    }
  }

  /** The interest of one accrual and the two protocol shares of it, in closed form. */
  function Interest12(r: Reserve, accrual: int): int {
    FloorDiv(r.dSupply * (FloorDiv(r.dRate * accrual, SCALAR_12) - r.dRate), SCALAR_12)
  }

  function Part(interest: int, rate: int): int {
    FloorDiv(interest * rate, SCALAR_7)
  }

  /** The steps of `ApplyAccrual`, none of which failed. */
  lemma ApplyAccrualUnfolds(r: Reserve, takeRate: int, reserveFactor: int, accrual: int, nextIrMod: int, now: nat)
    requires ApplyAccrual(r, takeRate, reserveFactor, accrual, nextIrMod, now).Ok?
    ensures var supplied, dRate := CheckedDiv(r.bSupply * r.bRate, SCALAR_12), CheckedDiv(r.dRate * accrual, SCALAR_12);
            && supplied.Ok? && dRate.Ok?
            && var interest := InterestEarned(r.dSupply, dRate.value - r.dRate);
            && interest.Ok?
            && var toBackstop, toTreasury := Take(interest.value, takeRate), Take(interest.value, reserveFactor);
            && toBackstop.Ok? && toTreasury.Ok?
            && var r' := ApplyAccrual(r, takeRate, reserveFactor, accrual, nextIrMod, now).value;
            && r' == r.(dRate := dRate.value, bRate := r'.bRate, irMod := nextIrMod, lastTime := now,
                        backstopCredit := r.backstopCredit + toBackstop.value,
                        treasuryCredit := r.treasuryCredit + toTreasury.value)
            && if r.bSupply > 0
               then SpreadToLenders(r.bSupply, supplied.value, interest.value - toBackstop.value - toTreasury.value)
                      == Ok(r'.bRate)
               else r'.bRate == r.bRate
  {
    hide CheckedDiv, InterestEarned, Take, SpreadToLenders, FitsI128;
  }

  /** What `ApplyAccrual` computes, whatever the two shares add up to. */
  lemma ApplyAccrualPieces(r: Reserve, takeRate: int, reserveFactor: int, accrual: int, nextIrMod: int, now: nat)
    requires ReserveOk(r) && accrual >= SCALAR_12 && takeRate >= 0 && reserveFactor >= 0
    requires ApplyAccrual(r, takeRate, reserveFactor, accrual, nextIrMod, now).Ok?
    ensures var r' := ApplyAccrual(r, takeRate, reserveFactor, accrual, nextIrMod, now).value;
            var interest := Interest12(r, accrual);
            var toBackstop, toTreasury := Part(interest, takeRate), Part(interest, reserveFactor);
            var supplied := FloorDiv(r.bSupply * r.bRate, SCALAR_12);
            && interest >= 0 && toBackstop >= 0 && toTreasury >= 0 && supplied >= 0
            && FloorDiv(r.dRate * accrual, SCALAR_12) >= r.dRate
            && r' == r.(dRate := FloorDiv(r.dRate * accrual, SCALAR_12), bRate := r'.bRate, irMod := nextIrMod,
                 lastTime := now,
                        backstopCredit := r.backstopCredit + toBackstop,
                        treasuryCredit := r.treasuryCredit + toTreasury)
            && r'.bRate == (if r.bSupply == 0 then r.bRate
                            else TruncDiv((supplied + (interest - toBackstop - toTreasury)) * SCALAR_12, r.bSupply))
  {
    hide ApplyAccrual, CheckedDiv, FloorDiv, TruncDiv, InterestEarned, Take, SpreadToLenders;
    ApplyAccrualUnfolds(r, takeRate, reserveFactor, accrual, nextIrMod, now);
    MulMono2(0, r.bSupply, 0, r.bRate);
    MulMono2(0, r.dRate, 0, accrual);
    DebtRateGrows(r.dRate, accrual);
    DivIsFloor(r.bSupply * r.bRate, SCALAR_12);
    DivIsFloor(r.dRate * accrual, SCALAR_12);
    EarnedValue(r.dSupply, FloorDiv(r.dRate * accrual, SCALAR_12) - r.dRate);
    var interest := Interest12(r, accrual);
    TakeValue(interest, takeRate);
    TakeValue(interest, reserveFactor);
    if r.bSupply > 0 {
      SpreadValue(r.bSupply, FloorDiv(r.bSupply * r.bRate, SCALAR_12),
                  interest - Part(interest, takeRate) - Part(interest, reserveFactor));
    }
  }

  lemma SpreadValue(bSupply: int, supplied: int, accrued: int)
    requires bSupply != 0
    ensures SpreadToLenders(bSupply, supplied, accrued).Ok? ==>
              SpreadToLenders(bSupply, supplied, accrued).value == TruncDiv((supplied + accrued) * SCALAR_12, bSupply)
  {
  }

  /** The pieces when the two shares are within the interest. */
  lemma ApplyAccrualValue(r: Reserve, takeRate: int, reserveFactor: int, accrual: int, nextIrMod: int, now: nat)
    returns (interest: int, toBackstop: int, toTreasury: int)
    requires ReserveOk(r) && accrual >= SCALAR_12
    requires takeRate >= 0 && reserveFactor >= 0 && takeRate + reserveFactor <= SCALAR_7
    requires ApplyAccrual(r, takeRate, reserveFactor, accrual, nextIrMod, now).Ok?
    ensures var r' := ApplyAccrual(r, takeRate, reserveFactor, accrual, nextIrMod, now).value;
            && r'.dRate == FloorDiv(r.dRate * accrual, SCALAR_12) >= r.dRate
            && interest == FloorDiv(r.dSupply * (r'.dRate - r.dRate), SCALAR_12) >= 0
            && toBackstop == FloorDiv(interest * takeRate, SCALAR_7) >= 0
            && toTreasury == FloorDiv(interest * reserveFactor, SCALAR_7) >= 0
            && toBackstop + toTreasury <= interest
            && r' == r.(dRate := r'.dRate, bRate := r'.bRate, irMod := nextIrMod, lastTime := now,
                        backstopCredit := r.backstopCredit + toBackstop,
                        treasuryCredit := r.treasuryCredit + toTreasury)
            && r'.bRate == (if r.bSupply == 0 then r.bRate else
                 FloorDiv((FloorDiv(r.bSupply * r.bRate, SCALAR_12) + (interest - toBackstop - toTreasury)) * SCALAR_12,
                   r.bSupply))
  {
    interest := Interest12(r, accrual);
    toBackstop, toTreasury := Part(interest, takeRate), Part(interest, reserveFactor);
    hide ApplyAccrual;
    ApplyAccrualPieces(r, takeRate, reserveFactor, accrual, nextIrMod, now);
    SharesWithinInterest(interest, takeRate, reserveFactor);
    hide FloorDiv;
  }

  lemma TakeValue(interest: int, rate: int)
    requires interest >= 0 && rate >= 0 && Take(interest, rate).Ok?
    ensures Take(interest, rate).value == FloorDiv(interest * rate, SCALAR_7)
  {
    MulMono2(0, interest, 0, rate);
    if interest == 0 {
      assert interest * rate == 0;
    } else if rate == 0 {
      assert interest * rate == 0;
    }
  }

  /** Debt claims grow by at least the interest, lender claims by at most what is left of it. */
  lemma MarginGrows(r: Reserve, r': Reserve, interest: int, taken: int)
    requires r'.dSupply == r.dSupply && r'.bSupply == r.bSupply
    requires interest * SCALAR_12 <= r.dSupply * (r'.dRate - r.dRate)
    requires r.bSupply * r'.bRate <= r.bSupply * r.bRate + (interest - taken) * SCALAR_12
    requires r'.backstopCredit + r'.treasuryCredit == r.backstopCredit + r.treasuryCredit + taken
    ensures Margin(r') >= Margin(r)
  {
    assert r.dSupply * (r'.dRate - r.dRate) == r.dSupply * r'.dRate - r.dSupply * r.dRate;
  }

  lemma ApplyAccrualKeeps(r: Reserve, takeRate: int, reserveFactor: int, accrual: int, nextIrMod: int, now: nat)
    requires ReserveOk(r) && accrual >= SCALAR_12 && MIN_IR_MOD <= nextIrMod <= MAX_IR_MOD
    requires takeRate >= 0 && reserveFactor >= 0 && takeRate + reserveFactor <= SCALAR_7
    requires ApplyAccrual(r, takeRate, reserveFactor, accrual, nextIrMod, now).Ok?
    ensures Accrued(r, ApplyAccrual(r, takeRate, reserveFactor, accrual, nextIrMod, now).value)
  {
    var r' := ApplyAccrual(r, takeRate, reserveFactor, accrual, nextIrMod, now).value;
    var interest, toBackstop, toTreasury :=
      ApplyAccrualValue(r, takeRate, reserveFactor, accrual, nextIrMod, now);
    var accrued := interest - toBackstop - toTreasury;
    if r.bSupply > 0 {
      SpreadBounds(r.bSupply, r.bRate, accrued);
    } else {
      assert accrued * SCALAR_12 >= 0;
    }
    MarginGrows(r, r', interest, toBackstop + toTreasury);
  }

  /** Accrual to `now`, whichever branch is taken. */
  lemma AccrueKeeps(r: Reserve, configured: Option<InterestRateParams>, takeRate: int, reserveFactor: int, now: nat)
    requires ReserveOk(r)
    requires takeRate >= 0 && reserveFactor >= 0 && takeRate + reserveFactor <= SCALAR_7
    requires Accrue(r, configured, takeRate, reserveFactor, now).Ok?
    ensures Accrued(r, Accrue(r, configured, takeRate, reserveFactor, now).value)
  {
    assert (r.bRate - r.bRate - 1) * r.bSupply == -r.bSupply;
    if now > r.lastTime && r.bSupply != 0 && Utilization(r).value != 0 {
      var ps := if configured.Some? then configured.value else DEFAULT_PARAMS;
      var util := Utilization(r).value;
      UtilizationRange(r);
      RateNonNegative(ps, util, r.irMod);
      AccrualAtLeastOne(InterestRate(ps, util, r.irMod).value, now - r.lastTime);
      NextIrModRange(ps, util, r.irMod, now - r.lastTime);
      var step := CalcAccrual(ps, util, r.irMod, r.lastTime, now).value;
      ApplyAccrualKeeps(r, takeRate, reserveFactor, step.0, step.1, now);
    }
  }

  /** What every accrual leaves alone or in range, whatever the two shares add up to. */
  predicate RatesOk(r: Reserve) {
    r.dRate >= SCALAR_12 && MIN_IR_MOD <= r.irMod <= MAX_IR_MOD
  }

  predicate Aged(r: Reserve, r': Reserve) {
    RatesOk(r') && r'.dRate >= r.dRate && r'.bSupply == r.bSupply && r'.dSupply == r.dSupply
  }

  lemma ApplyAccrualAges(r: Reserve, takeRate: int, reserveFactor: int, accrual: int, nextIrMod: int, now: nat)
    requires RatesOk(r) && accrual >= SCALAR_12 && MIN_IR_MOD <= nextIrMod <= MAX_IR_MOD
    requires ApplyAccrual(r, takeRate, reserveFactor, accrual, nextIrMod, now).Ok?
    ensures Aged(r, ApplyAccrual(r, takeRate, reserveFactor, accrual, nextIrMod, now).value)
  {
    MulMono2(0, r.dRate, 0, accrual);
    DebtRateGrows(r.dRate, accrual);
    DivIsFloor(r.dRate * accrual, SCALAR_12);
    hide CheckedDiv, FloorDiv, InterestEarned, Take, SpreadToLenders;
  }

  lemma AccrueAges(r: Reserve, configured: Option<InterestRateParams>, takeRate: int, reserveFactor: int, now: nat)
    requires RatesOk(r) && r.bSupply >= 0 && r.dSupply >= 0
    requires Accrue(r, configured, takeRate, reserveFactor, now).Ok?
    ensures Aged(r, Accrue(r, configured, takeRate, reserveFactor, now).value)
  {
    hide ApplyAccrual, Utilization, InterestRate, AccrualFactor, NextIrMod;
    if now > r.lastTime && r.bSupply != 0 && Utilization(r).value != 0 {
      var ps := if configured.Some? then configured.value else DEFAULT_PARAMS;
      var util := Utilization(r).value;
      UtilizationRange(r);
      RateNonNegative(ps, util, r.irMod);
      AccrualAtLeastOne(InterestRate(ps, util, r.irMod).value, now - r.lastTime);
      NextIrModRange(ps, util, r.irMod, now - r.lastTime);
      var step := CalcAccrual(ps, util, r.irMod, r.lastTime, now).value;
      ApplyAccrualAges(r, takeRate, reserveFactor, step.0, step.1, now);
    }
  }

  /** Flooring the supplied amount costs the lenders exactly when nothing is added to it and it was
      not whole; taking from it always does. */
  lemma SpreadKeepsRateIff(bSupply: int, bRate: int, accrued: int)
    requires bSupply > 0 && bRate >= SCALAR_12
    ensures var bRate' := TruncDiv((FloorDiv(bSupply * bRate, SCALAR_12) + accrued) * SCALAR_12, bSupply);
            bRate' >= bRate <==> accrued >= 1 || (accrued == 0 && (bSupply * bRate) % SCALAR_12 == 0)
  {
    var total := (FloorDiv(bSupply * bRate, SCALAR_12) + accrued) * SCALAR_12;
    MulMono2(0, bSupply, 0, bRate);
    if total < 0 {
      FloorNonNegative(-total, bSupply);
    } else if accrued >= 1 || (accrued == 0 && (bSupply * bRate) % SCALAR_12 == 0) {
      FloorIsGreatest(total, bSupply, bRate);
    } else {
      MulCancelLess(FloorDiv(total, bSupply), bRate, bSupply);
    }
  }

  /** An accrual keeps the lenders' rate from falling exactly when there are no lenders, they receive
      at least one unit, or they receive nothing and their claims were a whole number of units. */
  lemma LenderRateKeptIff(r: Reserve, takeRate: int, reserveFactor: int, accrual: int, nextIrMod: int, now: nat)
    requires ReserveOk(r) && accrual >= SCALAR_12 && takeRate >= 0 && reserveFactor >= 0
    requires ApplyAccrual(r, takeRate, reserveFactor, accrual, nextIrMod, now).Ok?
    ensures var r' := ApplyAccrual(r, takeRate, reserveFactor, accrual, nextIrMod, now).value;
            var interest := Interest12(r, accrual);
            var received := interest - Part(interest, takeRate) - Part(interest, reserveFactor);
            r'.bRate >= r.bRate <==>
              r.bSupply == 0 || received >= 1 || (received == 0 && (r.bSupply * r.bRate) % SCALAR_12 == 0)
  {
    hide ApplyAccrual, FloorDiv, TruncDiv;
    ApplyAccrualPieces(r, takeRate, reserveFactor, accrual, nextIrMod, now);
    var interest := Interest12(r, accrual);
    if r.bSupply > 0 {
      SpreadKeepsRateIff(r.bSupply, r.bRate, interest - Part(interest, takeRate) - Part(interest, reserveFactor));
    }
  }

  /** With both shares at 100%, which the take rate's setter accepts, a year's accrual takes the
      lenders' rate below 1.0. */
  lemma OverfullSharesTakeFromLenders()
    ensures var r := Reserve(SCALAR_12, SCALAR_12, SCALAR_7, 1_000_000_000_000, 500_000_000_000, 0, 0, 0);
            var r' := Accrue(r, None, SCALAR_7, SCALAR_7, 31_536_000);
            ReserveOk(r) && r'.Ok? && r'.value.bRate == 978_333_350_000 < SCALAR_12
  {
    var r := Reserve(SCALAR_12, SCALAR_12, SCALAR_7, 1_000_000_000_000, 500_000_000_000, 0, 0, 0);
    assert Utilization(r) == Ok(5_000_000);
    assert InterestRate(DEFAULT_PARAMS, 5_000_000, SCALAR_7) == Ok(433_333);
    assert AccrualFactor(433_333, 31_536_000) == Ok(1_043_333_300_000);
    assert NextIrMod(DEFAULT_PARAMS, 5_000_000, SCALAR_7, 31_536_000) == Ok(1_000_000);
    assert InterestEarned(500_000_000_000, 43_333_300_000) == Ok(21_666_650_000);
    assert Take(21_666_650_000, SCALAR_7) == Ok(21_666_650_000);
    assert SpreadToLenders(1_000_000_000_000, 1_000_000_000_000, -21_666_650_000) == Ok(978_333_350_000);
    hide Utilization, InterestRate, AccrualFactor, NextIrMod, InterestEarned, Take, SpreadToLenders;
  }
}
