/** Liabilities against supply: what a borrow and a withdrawal leave, and what an accrual does to it. */
module UtilizationFacts {
  import opened Outcomes
  import opened FixedPoint
  import opened PoolTypes
  import opened PoolStore
  import opened Valuation
  import opened PoolOperations
  import opened AccrualValue
  import opened PoolInvariants
  import opened PoolSteps
  import opened PoolRuns
  import opened Scenes
  import Interest

  lemma ShareBelowFull(owed: int, supplied: int)
    requires 0 <= owed < supplied
    ensures FloorDiv(owed * SCALAR_7, supplied) < SCALAR_7
  {
    MulCancelLess(FloorDiv(owed * SCALAR_7, supplied), SCALAR_7, supplied);
  }

  /** The test of a payout passes exactly when liabilities are below supply, or nothing is supplied. */
  lemma BelowFullIff(r: Reserve)
    requires Interest.ReserveOk(r) && Interest.Utilization(r).Ok?
    ensures Interest.Utilization(r).value < SCALAR_7 <==> Supplied(r) == 0 || OwedBy(r) < Supplied(r)
  {
    hide Interest.Utilization, Supplied, OwedBy, FloorDiv;
    UtilizationIs(r);
    SuppliesNotNegative(r);
    if r.bSupply == 0 {
      NoTokens(r);
    } else if 0 < Supplied(r) {
      if OwedBy(r) < Supplied(r) {
        ShareBelowFull(OwedBy(r), Supplied(r));
      } else {
        FullyUsed(OwedBy(r), Supplied(r));
      }
    }
  }

  lemma PayOutTests(p: Pool, asset: Symbol, amount: int, r: Reserve)
    requires PayOut(p, asset, amount, r).Ok?
    ensures Interest.Utilization(r).Ok? && Interest.Utilization(r).value < SCALAR_7
    ensures ReserveOf(PayOut(p, asset, amount, r).value, asset, 0) == r
  {
    hide Interest.Utilization;
  }

  lemma BorrowTests(p: Pool, e: Env, user: Address, asset: Symbol, amount: int)
    requires Borrow(p, e, user, asset, amount).Ok?
    ensures var r := ReserveOf(Borrow(p, e, user, asset, amount).value.0, asset, 0);
            Interest.Utilization(r).Ok? && Interest.Utilization(r).value < SCALAR_7
  {
    hide AccruedReserve, BorrowAllowed, BorrowMint, PayOut, Interest.Utilization, ReserveOf;
    var r := AccruedReserve(p, e, asset).value;
    var minted := BorrowMint(p, amount, r).value;
    var cdp := CDPOrNew(p, user, e.now);
    PayOutTests(p.(poolBalance := p.poolBalance[asset := BalanceOf(p, asset) - amount],
                   cdps := p.cdps[user := cdp.(debtAsset := Some(asset), dTokens := cdp.dTokens + minted.1,
                     lastUpdate := e.now)],
                   dTokens := p.dTokens[UserAsset(user, asset) := Holding(p.dTokens, user, asset) + minted.1]),
                asset, amount, minted.0);
  }

  lemma WithdrawTests(p: Pool, e: Env, user: Address, asset: Symbol, bTokens: int)
    requires Withdraw(p, e, user, asset, bTokens).Ok?
    ensures var r := ReserveOf(Withdraw(p, e, user, asset, bTokens).value.0, asset, 0);
            Interest.Utilization(r).Ok? && Interest.Utilization(r).value < SCALAR_7
  {
    hide AccruedReserve, FromBToken, PayOut, Interest.Utilization, ReserveOf;
    var r := AccruedReserve(p, e, asset).value;
    var held := Holding(p.bTokens, user, asset);
    var burnt := Min(bTokens, held);
    var amount := FromBToken(burnt, r.bRate).value;
    PayOutTests(p.(poolBalance := p.poolBalance[asset := BalanceOf(p, asset) - amount],
                   bTokens := p.bTokens[UserAsset(user, asset) := held - burnt]),
                asset, amount, r.(bSupply := r.bSupply - burnt));
  }

  lemma ReserveSound(p: Pool, asset: Symbol)
    requires PoolInv(p)
    ensures Interest.ReserveOk(ReserveOf(p, asset, 0))
  {
    assert AssetInv(p, asset);
  }

  /** Right after a borrow or a withdrawal liabilities are below supply, or nothing is supplied. */
  lemma PayoutsLeaveBelowFull(p: Pool, e: Env, user: Address, asset: Symbol, amount: int)
    requires PoolInv(p)
    ensures Borrow(p, e, user, asset, amount).Ok? ==>
              var r := ReserveOf(Borrow(p, e, user, asset, amount).value.0, asset, 0);
              Supplied(r) == 0 || OwedBy(r) < Supplied(r)
    ensures Withdraw(p, e, user, asset, amount).Ok? ==>
              var r := ReserveOf(Withdraw(p, e, user, asset, amount).value.0, asset, 0);
              Supplied(r) == 0 || OwedBy(r) < Supplied(r)
  {
    hide Borrow, Withdraw, PoolInv, Interest.Utilization, Supplied, OwedBy, ReserveOf;
    if Borrow(p, e, user, asset, amount).Ok? {
      var p' := Borrow(p, e, user, asset, amount).value.0;
      BorrowKeeps(p, e, user, asset, amount);
      BorrowTests(p, e, user, asset, amount);
      ReserveSound(p', asset);
      BelowFullIff(ReserveOf(p', asset, 0));
    }
    if Withdraw(p, e, user, asset, amount).Ok? {
      var p' := Withdraw(p, e, user, asset, amount).value.0;
      WithdrawKeeps(p, e, user, asset, amount);
      WithdrawTests(p, e, user, asset, amount);
      ReserveSound(p', asset);
      BelowFullIff(ReserveOf(p', asset, 0));
    }
  }

  // ---- An accrual that takes liabilities above supply ----

  /** 99% of the supply is borrowed, and a fifth of the interest goes to the backstop. */
  const STRETCHED: Scene := Scene(2_000_000, 0, Interest.DEFAULT_PARAMS, 1_000_000, 2_000_000, 990_000, 0)

  const OVERDRAWN: Reserve :=
    Reserve(2_393_920_000_000, 2_760_000_000_000, 100_000_000, 1_000_000, 990_000, 348_480, 0, 31_536_000)

  lemma StretchedPlays()
    ensures Playable(STRETCHED) && EffectiveDebt(990_000, STRETCHED.ps.lFactor) == Ok(990_000)
  {
  }

  lemma StretchedYear()
    ensures Interest.Accrue(Reserve(SCALAR_12, SCALAR_12, SCALAR_7, 1_000_000, 990_000, 0, 0, 0), Some(STRETCHED.ps),
              STRETCHED.takeRate, 0, 31_536_000) == Ok(OVERDRAWN)
  {
    var ps := Interest.DEFAULT_PARAMS;
    assert Interest.Utilization(Reserve(SCALAR_12, SCALAR_12, SCALAR_7, 1_000_000, 990_000, 0, 0, 0)) == Ok(9_900_000);
    assert Interest.InterestRate(ps, 9_900_000, SCALAR_7) == Ok(17_600_000);
    assert Interest.AccrualFactor(17_600_000, 31_536_000) == Ok(2_760_000_000_000);
    assert Interest.NextIrMod(ps, 9_900_000, SCALAR_7, 31_536_000) == Ok(100_000_000);
    assert Interest.InterestEarned(990_000, 1_760_000_000_000) == Ok(1_742_400);
    assert Interest.Take(1_742_400, 2_000_000) == Ok(348_480);
    assert Interest.SpreadToLenders(1_000_000, 1_000_000, 1_393_920) == Ok(2_393_920_000_000);
    hide Interest.Utilization, Interest.InterestRate, Interest.AccrualFactor, Interest.NextIrMod,
         Interest.InterestEarned, Interest.SpreadToLenders, Interest.Take;
  }

  function Overdrawing(): seq<Event> {
    Opening(STRETCHED) + [Event(Clock(31_536_000, 0), AccrueStep(0))]
  }

  lemma OverdrawnRuns()
    ensures Run(NewPool(STRETCHED), Overdrawing()) == Owing(STRETCHED, OVERDRAWN)
    ensures RunAllowed(NewPool(STRETCHED), Overdrawing())
  {
    hide Next, Run, RunAllowed, Interest.Accrue, BorrowAllowed, EffectiveDebt, Playable, Secured, NewPool;
    var p, events := NewPool(STRETCHED), Overdrawing();
    StretchedPlays();
    Allowed(STRETCHED, 990_000);
    OpeningRuns(STRETCHED);
    assert events[..7] == Opening(STRETCHED);
    StretchedYear();
    Ages(STRETCHED, Reserve(SCALAR_12, SCALAR_12, SCALAR_7, 1_000_000, 990_000, 0, 0, 0), OVERDRAWN,
         Clock(31_536_000, 0));
    RunNext(p, events, 7, Indebted(STRETCHED));
    assert events[..8] == events;
  }

  /** Lenders do not receive the protocol's part of the interest, debtors owe all of it: a year after a
      borrow that left 99% in use, liabilities exceed supply. */
  lemma AccrualCanExceedSupply()
    ensures var r := ReserveOf(Run(NewPool(STRETCHED), Overdrawing()), 0, 0);
            && Fresh(NewPool(STRETCHED)) && RunAllowed(NewPool(STRETCHED), Overdrawing())
            && OwedBy(r) == 2_732_400 && Supplied(r) == 2_393_920
  {
    hide Run, RunAllowed, NewPool, Overdrawing;
    OverdrawnRuns();
    StartsFresh(STRETCHED);
  }
}
