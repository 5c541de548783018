/** One accrual in closed form: every field of the reserve it leaves, over floors of mathematical integers. */
module AccrualValue {
  import opened Outcomes
  import opened FixedPoint
  import opened PoolTypes
  import opened PoolStore
  import opened AccrualFacts
  import opened RateCurve
  import opened PoolInvariants
  import Interest

  /** What the lenders' tokens are worth, and what the debt tokens owe, in whole units. */
  function Supplied(r: Reserve): int {
    FloorDiv(r.bSupply * r.bRate, SCALAR_12)
  }

  function OwedBy(r: Reserve): int {
    FloorDiv(r.dSupply * r.dRate, SCALAR_12)
  }

  /** Debt as a part of supply (7 decimals), nothing without supply, and at most all of it. */
  function InUse(r: Reserve): int {
    if r.bSupply == 0 || Supplied(r) <= 0 then 0
    else Min(FloorDiv(OwedBy(r) * 10_000_000, Supplied(r)), 10_000_000)
  }

  lemma NoTokens(r: Reserve)
    requires r.bSupply == 0
    ensures Supplied(r) == 0
  {
    assert r.bSupply * r.bRate == 0;
    DivZero(SCALAR_12);
  }

  lemma SuppliesNotNegative(r: Reserve)
    requires 0 <= r.bSupply && 0 <= r.bRate && 0 <= r.dSupply && 0 <= r.dRate
    ensures Supplied(r) >= 0 && OwedBy(r) >= 0
  {
    MulMono2(0, r.bSupply, 0, r.bRate);
    MulMono2(0, r.dSupply, 0, r.dRate);
    FloorNonNegative(r.bSupply * r.bRate, SCALAR_12);
    FloorNonNegative(r.dSupply * r.dRate, SCALAR_12);
  }

  lemma FullyUsed(owed: int, supplied: int)
    requires 0 < supplied <= owed
    ensures FloorDiv(owed * 10_000_000, supplied) >= 10_000_000
  {
    MulMono(supplied, owed, 10_000_000);
    FloorIsGreatest(owed * 10_000_000, supplied, 10_000_000);
  }

  /** The utilization the contract computes is the floored share. */
  lemma UtilizationIs(r: Reserve)
    requires 0 <= r.bSupply && 0 <= r.bRate && 0 <= r.dSupply && 0 <= r.dRate && Interest.Utilization(r).Ok?
    ensures Interest.Utilization(r).value == InUse(r) && 0 <= InUse(r) <= 10_000_000
  {
    hide FloorDiv, CheckedDiv, FitsI128;
    MulMono2(0, r.bSupply, 0, r.bRate);
    MulMono2(0, r.dSupply, 0, r.dRate);
    SuppliesNotNegative(r);
    if r.bSupply != 0 {
      DivIsFloor(r.bSupply * r.bRate, SCALAR_12);
      if Supplied(r) != 0 {
        DivIsFloor(r.dSupply * r.dRate, SCALAR_12);
        if OwedBy(r) < Supplied(r) {
          DivIsFloor(OwedBy(r) * SCALAR_7, Supplied(r));
        } else {
          FullyUsed(OwedBy(r), Supplied(r));
        }
      }
    }
  }

  // ---- The modifier ----

  /** The product the feedback is computed from. */
  function Push(ps: InterestRateParams, util: int, delta: int): int {
    delta * (util - ps.targetUtil) * ps.reactivity
  }

  function Abs(x: int): int {
    if x >= 0 then x else -x
  }

  /** How far the modifier moves: by the product over 10^7, rounded toward where it was, to the side of the
      gap, unless the end of its range on that side stops it. */
  predicate Moves(before: int, after: int, push: int) {
    && 1_000_000 <= after <= 100_000_000
    && (push >= 0 ==> after >= before) && (push <= 0 ==> after <= before)
    && Abs(after - before) * 10_000_000 <= Abs(push)
    && ((if push >= 0 then after < 100_000_000 else after > 1_000_000) ==>
          Abs(push) < (Abs(after - before) + 1) * 10_000_000)
  }

  lemma TruncatedPush(push: int)
    ensures 0 <= Abs(push) - Abs(TruncDiv(push, 10_000_000)) * 10_000_000 < 10_000_000
    ensures push >= 0 ==> TruncDiv(push, 10_000_000) >= 0
    ensures push <= 0 ==> TruncDiv(push, 10_000_000) <= 0
  {
  }

  lemma ClampMoves(before: int, change: int, push: int)
    requires 1_000_000 <= before <= 100_000_000
    requires 0 <= Abs(push) - Abs(change) * 10_000_000 < 10_000_000
    requires (push >= 0 ==> change >= 0) && (push <= 0 ==> change <= 0)
    ensures Moves(before, Clamp(before + change, 1_000_000, 100_000_000), push)
  {
  }

  /** That leaves one value. */
  lemma MovesOnce(before: int, after: int, other: int, push: int)
    requires Moves(before, after, push) && Moves(before, other, push)
    ensures after == other
  {
  }

  lemma NextIrModMoves(ps: InterestRateParams, util: int, irMod: int, delta: int)
    requires 1_000_000 <= irMod <= 100_000_000 && Interest.NextIrMod(ps, util, irMod, delta).Ok?
    ensures Moves(irMod, Interest.NextIrMod(ps, util, irMod, delta).value, Push(ps, util, delta))
  {
    hide Moves;
    var push := Push(ps, util, delta);
    TruncatedPush(push);
    ClampMoves(irMod, TruncDiv(push, 10_000_000), push);
  }

  // ---- The accrual ----

  /** The growth factor of debt: the yearly rate (7 decimals) prorated by seconds. */
  function Growth(rate: int, delta: int): int {
    1_000_000_000_000 + FloorDiv(delta * rate * 1_000_000_000_000, 31_536_000 * 10_000_000)
  }

  lemma GrowthIs(rate: int, delta: int)
    requires rate >= 0 && delta >= 0 && Interest.AccrualFactor(rate, delta).Ok?
    ensures Interest.AccrualFactor(rate, delta).value == Growth(rate, delta) >= SCALAR_12
  {
    MulMono2(0, delta, 0, rate);
    hide CheckedDiv, FloorDiv;
    DivIsFloor(delta * rate * SCALAR_12, SECONDS_PER_YEAR * SCALAR_7);
  }

  /** `r'` is `r` after `delta` seconds at utilization `util`: debt grows by the factor, both protocol
      shares and the lenders divide the interest, and the modifier moves. */
  predicate AccruedBy(r: Reserve, r': Reserve, ps: InterestRateParams, takeRate: int, reserveFactor: int, now: nat)
    requires Interest.ValidParams(ps) && r.bSupply > 0
  {
    var util, delta := InUse(r), now - r.lastTime;
    var dRate := FloorDiv(r.dRate * Growth(Curve(ps, util, r.irMod), delta), 1_000_000_000_000);
    var interest := FloorDiv(r.dSupply * (dRate - r.dRate), 1_000_000_000_000);
    var toBackstop := FloorDiv(interest * takeRate, 10_000_000);
    var toTreasury := FloorDiv(interest * reserveFactor, 10_000_000);
    && Moves(r.irMod, r'.irMod, Push(ps, util, delta))
    && r' == r.(dRate := dRate, irMod := r'.irMod, lastTime := now,
                bRate := TruncDiv((Supplied(r) + interest - toBackstop - toTreasury) * 1_000_000_000_000, r.bSupply),
                backstopCredit := r.backstopCredit + toBackstop, treasuryCredit := r.treasuryCredit + toTreasury)
  }

  lemma ApplyIs(r: Reserve, ps: InterestRateParams, takeRate: int, reserveFactor: int, irMod: int, now: nat)
    requires Interest.ReserveOk(r) && r.bSupply > 0 && takeRate >= 0 && reserveFactor >= 0
    requires Interest.ValidParams(ps) && r.lastTime <= now
    requires Growth(Curve(ps, InUse(r), r.irMod), now - r.lastTime) >= SCALAR_12
    requires Moves(r.irMod, irMod, Push(ps, InUse(r), now - r.lastTime))
    requires Interest.ApplyAccrual(r, takeRate, reserveFactor, Growth(Curve(ps, InUse(r), r.irMod), now - r.lastTime),
               irMod, now).Ok?
    ensures var accrual := Growth(Curve(ps, InUse(r), r.irMod), now - r.lastTime);
            var r' := Interest.ApplyAccrual(r, takeRate, reserveFactor, accrual, irMod, now).value;
            AccruedBy(r, r', ps, takeRate, reserveFactor, now)
  {
    hide Interest.ApplyAccrual, FloorDiv, TruncDiv, Growth, Curve, InUse, Moves, Push;
    ApplyAccrualPieces(r, takeRate, reserveFactor, Growth(Curve(ps, InUse(r), r.irMod), now - r.lastTime), irMod, now);
  }

  /** An accrual leaves the reserve alone when the clock has not moved, only moves its time when there are
      no lenders or nothing is in use, and otherwise is the closed form. */
  lemma AccrueIs(r: Reserve, configured: Option<InterestRateParams>, takeRate: int, reserveFactor: int, now: nat)
    requires Interest.ReserveOk(r) && takeRate >= 0 && reserveFactor >= 0
    requires configured.Some? ==> Interest.ValidParams(configured.value)
    requires Interest.Accrue(r, configured, takeRate, reserveFactor, now).Ok?
    ensures var ps := if configured.Some? then configured.value else Interest.DEFAULT_PARAMS;
            var r' := Interest.Accrue(r, configured, takeRate, reserveFactor, now).value;
            if now <= r.lastTime then r' == r
            else if InUse(r) == 0 then r' == r.(lastTime := now)
            else r.bSupply > 0 && AccruedBy(r, r', ps, takeRate, reserveFactor, now)
  {
    hide Interest.Utilization, Interest.ApplyAccrual, Interest.InterestRate, Interest.AccrualFactor, Interest.NextIrMod,
      AccruedBy, Moves, Curve, Growth, Push, Supplied, OwedBy, FloorDiv;
    if now > r.lastTime && r.bSupply != 0 {
      UtilizationIs(r);
      if InUse(r) != 0 {
        var ps := if configured.Some? then configured.value else Interest.DEFAULT_PARAMS;
        RateIsCurve(ps, InUse(r), r.irMod);
        GrowthIs(Curve(ps, InUse(r), r.irMod), now - r.lastTime);
        NextIrModMoves(ps, InUse(r), r.irMod, now - r.lastTime);
        var irMod := Interest.NextIrMod(ps, InUse(r), r.irMod, now - r.lastTime).value;
        ApplyIs(r, ps, takeRate, reserveFactor, irMod, now);
      }
    }
  }

  /** The same of the reserve a call brings forward. */
  lemma AccruedReserveIs(p: Pool, e: Env, asset: Symbol)
    requires PoolInv(p) && AccruedReserve(p, e, asset).Ok?
    requires asset in p.params ==> Interest.ValidParams(p.params[asset])
    ensures var r, r' := ReserveOf(p, asset, e.now), AccruedReserve(p, e, asset).value;
            var ps := if asset in p.params then p.params[asset] else Interest.DEFAULT_PARAMS;
            if e.now <= r.lastTime then r' == r
            else if InUse(r) == 0 then r' == r.(lastTime := e.now)
            else r.bSupply > 0 && AccruedBy(r, r', ps, p.takeRate, p.reserveFactor, e.now)
  {
    assert AssetInv(p, asset);
    hide PoolInv, AccruedBy, Interest.Accrue, InUse;
    AccrueIs(ReserveOf(p, asset, e.now), ParamsOf(p, asset), p.takeRate, p.reserveFactor, e.now);
  }
}
