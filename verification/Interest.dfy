/** Utilization, the three-segment rate curve and interest accrual. */
module Interest {
  import opened Outcomes
  import opened FixedPoint
  import opened PoolTypes

  const MIN_IR_MOD: int := SCALAR_7 / 10
  const MAX_IR_MOD: int := SCALAR_7 * 10

  const DEFAULT_PARAMS: InterestRateParams :=
    InterestRateParams(7_500_000, 9_500_000, 100_000, 500_000, 5_000_000, 15_000_000, 200, 10_000_000, 0, true)

  /** The validation that every queued parameter set passes. */
  predicate ValidParams(ps: InterestRateParams) {
    ps.targetUtil <= 9_500_000 && ps.targetUtil < ps.maxUtil <= SCALAR_7
  }

  predicate ReserveOk(r: Reserve) {
    && r.bRate >= SCALAR_12 && r.dRate >= SCALAR_12
    && r.bSupply >= 0 && r.dSupply >= 0
    && MIN_IR_MOD <= r.irMod <= MAX_IR_MOD
  }

  function Utilization(r: Reserve): Result<int> {
    if r.bSupply == 0 then Ok(0)
    else
      var supplied :- CheckedMul(r.bSupply, r.bRate);
      var totalSupply :- CheckedDiv(supplied, SCALAR_12);
      if totalSupply == 0 then Ok(0)
      else
        var owed :- CheckedMul(r.dSupply, r.dRate);
        var totalLiabilities :- CheckedDiv(owed, SCALAR_12);
        if totalLiabilities >= totalSupply then Ok(SCALAR_7)
        else
          var scaled :- CheckedMul(totalLiabilities, SCALAR_7);
          var utilization :- CheckedDiv(scaled, totalSupply);
          Ok(Min(utilization, SCALAR_7))
  }

  /** `x * slope / range + base`, one segment of the curve before its constant part. */
  function Ramp(x: int, slope: int, range: int, base: int): Result<int> {
    var scaled :- CheckedMul(x, slope);
    var part :- CheckedDiv(scaled, range);
    CheckedAdd(part, base)
  }

  function Modulated(rate: int, irMod: int): Result<int> {
    var scaled :- CheckedMul(rate, irMod);
    CheckedDiv(scaled, SCALAR_7)
  }

  /** The annual borrow rate (7 decimals) at utilization `util`. */
  function InterestRate(ps: InterestRateParams, util: int, irMod: int): Result<int> {
    if util <= ps.targetUtil then
      var rate :- if ps.targetUtil > 0 then Ramp(util, ps.rOne, ps.targetUtil, ps.rBase) else Ok(ps.rBase);
      Modulated(rate, irMod)
    else if util <= ps.maxUtil then
      var range := ps.maxUtil - ps.targetUtil;
      var slope :- if range > 0 then Ramp(util - ps.targetUtil, ps.rTwo, range, ps.rOne) else Ok(ps.rOne);
      var rate :- CheckedAdd(slope, ps.rBase);
      Modulated(rate, irMod)
    else
      // the modifier does not apply beyond the maximum utilization
      var range := SCALAR_7 - ps.maxUtil;
      var slope :- if range > 0 then Ramp(util - ps.maxUtil, ps.rThree, range, ps.rTwo)
                   else CheckedAdd(ps.rThree, ps.rTwo);
      var withOne :- CheckedAdd(slope, ps.rOne);
      CheckedAdd(withOne, ps.rBase)
  }

  /** The growth factor of debt over `delta` seconds (12 decimals). */
  function AccrualFactor(rate: int, delta: int): Result<int> {
    var weighted :- CheckedMul(delta, rate);
    var numerator :- CheckedMul(weighted, SCALAR_12);
    var increase :- CheckedDiv(numerator, SECONDS_PER_YEAR * SCALAR_7);
    CheckedAdd(SCALAR_12, increase)
  }

  /** The modifier after `delta` seconds at `util`, clamped to its range. */
  function NextIrMod(ps: InterestRateParams, util: int, irMod: int, delta: int): Result<int> {
    var gap :- CheckedSub(util, ps.targetUtil);
    var weighted :- CheckedMul(delta, gap);
    var scaled :- CheckedMul(weighted, ps.reactivity);
    var change :- CheckedDiv(scaled, SCALAR_7);
    var raw :- CheckedAdd(irMod, change);
    Ok(Clamp(raw, MIN_IR_MOD, MAX_IR_MOD))
  }

  function CalcAccrual(ps: InterestRateParams, util: int, irMod: int, lastTime: nat, now: nat): Result<(int, int)> {
    var delta := if now >= lastTime then now - lastTime else 0;
    if delta == 0 then Ok((SCALAR_12, irMod))
    else
      var rate :- InterestRate(ps, util, irMod);
      var accrual :- AccrualFactor(rate, delta);
      var nextIrMod :- NextIrMod(ps, util, irMod, delta);
      Ok((accrual, nextIrMod))
  }

  /** A protocol share of the interest; nothing is computed for no interest or a zero rate. */
  function Take(interest: int, rate: int): Result<int> {
    if interest > 0 && rate > 0 then
      var scaled :- CheckedMul(interest, rate);
      CheckedDiv(scaled, SCALAR_7)
    else Ok(0)
  }

  function InterestEarned(dSupply: int, rateIncrease: int): Result<int> {
    if dSupply > 0 then
      var scaled :- CheckedMul(dSupply, rateIncrease);
      CheckedDiv(scaled, SCALAR_12)
    else Ok(0)
  }

  /** The lenders' rate after `lenderAccrued` underlying is added to `supplied`. */
  function SpreadToLenders(bSupply: int, supplied: int, lenderAccrued: int): Result<int> {
    var newSupply :- CheckedAdd(supplied, lenderAccrued);
    var scaled :- CheckedMul(newSupply, SCALAR_12);
    CheckedDiv(scaled, bSupply)
  }

  function ApplyAccrual(r: Reserve, takeRate: int, reserveFactor: int, accrual: int, nextIrMod: int,
      now: nat): Result<Reserve> {
    var claims :- CheckedMul(r.bSupply, r.bRate);
    var supplied :- CheckedDiv(claims, SCALAR_12);
    var grown :- CheckedMul(r.dRate, accrual);
    var dRate :- CheckedDiv(grown, SCALAR_12);
    var rateIncrease :- CheckedSub(dRate, r.dRate);
    var interest :- InterestEarned(r.dSupply, rateIncrease);
    var toBackstop :- Take(interest, takeRate);
    var backstopCredit :- CheckedAdd(r.backstopCredit, toBackstop);
    var toTreasury :- Take(interest, reserveFactor);
    var treasuryCredit :- CheckedAdd(r.treasuryCredit, toTreasury);
    var r' := r.(dRate := dRate, backstopCredit := backstopCredit, treasuryCredit := treasuryCredit,
                 irMod := nextIrMod, lastTime := now);
    if r.bSupply > 0 then
      var afterBackstop :- CheckedSub(interest, toBackstop);
      var lenderAccrued :- CheckedSub(afterBackstop, toTreasury);
      var bRate :- SpreadToLenders(r.bSupply, supplied, lenderAccrued);
      Ok(r'.(bRate := bRate))
    else Ok(r')
  }

  /** A reserve brought forward to `now`. */
  function Accrue(r: Reserve, configured: Option<InterestRateParams>, takeRate: int, reserveFactor: int,
      now: nat): Result<Reserve> {
    if now <= r.lastTime then Ok(r)
    else if r.bSupply == 0 then Ok(r.(lastTime := now))
    else
      var ps := if configured.Some? then configured.value else DEFAULT_PARAMS;
      var util :- Utilization(r);
      if util == 0 then Ok(r.(lastTime := now))
      else
        var step :- CalcAccrual(ps, util, r.irMod, r.lastTime, now);
        ApplyAccrual(r, takeRate, reserveFactor, step.0, step.1, now)
  }

  /** `apply_accrual`, field by field as the contract updates the record. */
  method UpdateByAccrual(before: Reserve, takeRate: int, reserveFactor: int, accrual: int, nextIrMod: int, now: nat)
    returns (r: Result<Reserve>)
    ensures r == ApplyAccrual(before, takeRate, reserveFactor, accrual, nextIrMod, now)
  {
    var reserve := before;
    var claims :- CheckedMul(reserve.bSupply, reserve.bRate);
    var supplied :- CheckedDiv(claims, SCALAR_12);
    var oldDRate := reserve.dRate;
    var grown :- CheckedMul(oldDRate, accrual);
    var newDRate :- CheckedDiv(grown, SCALAR_12);
    reserve := reserve.(dRate := newDRate);
    var rateIncrease :- CheckedSub(reserve.dRate, oldDRate);
    var interest :- InterestEarned(reserve.dSupply, rateIncrease);
    var toBackstop, toTreasury := 0, 0;
    if interest > 0 {
      if takeRate > 0 {
        toBackstop :- Take(interest, takeRate);
      }
    }
    var backstopCredit :- CheckedAdd(reserve.backstopCredit, toBackstop);
    reserve := reserve.(backstopCredit := backstopCredit);
    if interest > 0 {
      if reserveFactor > 0 {
        toTreasury :- Take(interest, reserveFactor);
      }
    }
    var treasuryCredit :- CheckedAdd(reserve.treasuryCredit, toTreasury);
    reserve := reserve.(treasuryCredit := treasuryCredit);
    if reserve.bSupply > 0 {
      var afterBackstop :- CheckedSub(interest, toBackstop);
      var lenderAccrued :- CheckedSub(afterBackstop, toTreasury);
      var bRate :- SpreadToLenders(reserve.bSupply, supplied, lenderAccrued);
      reserve := reserve.(bRate := bRate);
    }
    reserve := reserve.(irMod := nextIrMod);
    reserve := reserve.(lastTime := now);
    return Ok(reserve);
  }
}
