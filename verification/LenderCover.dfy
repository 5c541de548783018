/** What stands behind the lenders: the backstop credit must not go negative, and debt must have holders. */
module LenderCover {
  import opened Outcomes
  import opened FixedPoint
  import opened PoolTypes
  import opened PoolStore
  import opened Valuation
  import opened PoolOperations
  import opened PoolInvariants
  import opened PoolSteps
  import opened PoolRuns
  import Interest

  // ---- The backstop credit ----

  /** No credit is lowered, and none leaves the `i128` range. */
  ghost predicate CreditsGrow(p: Pool, p': Pool) {
    forall a: Symbol ::
      CreditOf(p', a) >= CreditOf(p, a) && (CreditOf(p, a) <= I128_MAX ==> CreditOf(p', a) <= I128_MAX)
  }

  /** A write to one reserve that does not lower its credit. */
  lemma ReserveGrows(p: Pool, p': Pool, asset: Symbol, r: Reserve)
    requires p'.reserves == p.reserves[asset := r] && r.backstopCredit >= CreditOf(p, asset)
    requires CreditOf(p, asset) <= I128_MAX ==> r.backstopCredit <= I128_MAX
    ensures CreditsGrow(p, p')
  {
  }

  lemma AccrualFits(r: Reserve, configured: Option<InterestRateParams>, takeRate: int, reserveFactor: int, now: nat)
    requires r.backstopCredit <= I128_MAX && Interest.Accrue(r, configured, takeRate, reserveFactor, now).Ok?
    ensures Interest.Accrue(r, configured, takeRate, reserveFactor, now).value.backstopCredit <= I128_MAX
  {
    hide Interest.Utilization, Interest.CalcAccrual, Interest.Take, Interest.InterestEarned, Interest.SpreadToLenders,
      CheckedMul, CheckedDiv, CheckedSub;
  }

  /** Accrual adds to the credit within the `i128` range. */
  lemma AccruedCredit(p: Pool, e: Env, asset: Symbol)
    requires PoolInv(p) && AccruedReserve(p, e, asset).Ok?
    ensures var credit := AccruedReserve(p, e, asset).value.backstopCredit;
            credit >= CreditOf(p, asset) && (CreditOf(p, asset) <= I128_MAX ==> credit <= I128_MAX)
  {
    CallFacts(p, e, 0, asset);
    hide PoolInv, Interest.Accrue;
    if CreditOf(p, asset) <= I128_MAX {
      AccrualFits(ReserveOf(p, asset, e.now), ParamsOf(p, asset), p.takeRate, p.reserveFactor, e.now);
    }
  }

  lemma DepositCredits(p: Pool, e: Env, user: Address, asset: Symbol, amount: int)
    requires PoolInv(p) && Deposit(p, e, user, asset, amount).Ok?
    ensures CreditsGrow(p, Deposit(p, e, user, asset, amount).value.0)
  {
    hide PoolInv, Deposit, AccruedReserve, CreditsGrow, CDPOrNew, Holding, CustodyOf, BalanceOf;
    var r := DepositEffect(p, e, user, asset, amount);
    AccruedCredit(p, e, asset);
    var p' := Deposit(p, e, user, asset, amount).value.0;
    ReserveGrows(p, p', asset, p'.reserves[asset]);
  }

  lemma WithdrawCredits(p: Pool, e: Env, user: Address, asset: Symbol, amount: int)
    requires PoolInv(p) && Withdraw(p, e, user, asset, amount).Ok?
    ensures CreditsGrow(p, Withdraw(p, e, user, asset, amount).value.0)
  {
    hide PoolInv, Withdraw, AccruedReserve, CreditsGrow, CDPOrNew, Holding, CustodyOf, BalanceOf;
    var r := WithdrawEffect(p, e, user, asset, amount);
    AccruedCredit(p, e, asset);
    var p' := Withdraw(p, e, user, asset, amount).value.0;
    ReserveGrows(p, p', asset, p'.reserves[asset]);
  }

  lemma BorrowCredits(p: Pool, e: Env, user: Address, asset: Symbol, amount: int)
    requires PoolInv(p) && Borrow(p, e, user, asset, amount).Ok?
    ensures CreditsGrow(p, Borrow(p, e, user, asset, amount).value.0)
  {
    hide PoolInv, Borrow, AccruedReserve, CreditsGrow, CDPOrNew, Holding, CustodyOf, BalanceOf;
    var r := BorrowEffect(p, e, user, asset, amount);
    AccruedCredit(p, e, asset);
    var p' := Borrow(p, e, user, asset, amount).value.0;
    ReserveGrows(p, p', asset, p'.reserves[asset]);
  }

  lemma BurnKeepsCredit(cdp: CDP, dTokens: int, r: Reserve, now: nat)
    requires RepayBurn(cdp, dTokens, r, now).Ok?
    ensures RepayBurn(cdp, dTokens, r, now).value.reserve.backstopCredit == r.backstopCredit
  {
  }

  lemma RepayCredits(p: Pool, e: Env, user: Address, asset: Symbol, amount: int)
    requires PoolInv(p) && Repay(p, e, user, asset, amount).Ok?
    ensures CreditsGrow(p, Repay(p, e, user, asset, amount).value.0)
  {
    hide PoolInv, Repay, AccruedReserve, CreditsGrow, CDPOrNew, Holding, CustodyOf, BalanceOf, RepayBurn;
    var r, burn := RepayEffect(p, e, user, asset, amount);
    AccruedCredit(p, e, asset);
    var p' := Repay(p, e, user, asset, amount).value.0;
    BurnKeepsCredit(p.cdps[user], amount, r, e.now);
    ReserveGrows(p, p', asset, p'.reserves[asset]);
  }

  lemma LedgerCredits(p: Pool, e: Env, step: Step)
    requires PoolInv(p) && LedgerStep(step)
    ensures CreditsGrow(p, LedgerNext(p, e, step))
  {
    hide PoolInv, Deposit, Withdraw, Borrow, Repay, RemoveCollateral;
    match step {
      case DepositStep(u, a, x) => if Deposit(p, e, u, a, x).Ok? { DepositCredits(p, e, u, a, x); }
      case WithdrawStep(u, a, x) => if Withdraw(p, e, u, a, x).Ok? { WithdrawCredits(p, e, u, a, x); }
      case BorrowStep(u, a, x) => if Borrow(p, e, u, a, x).Ok? { BorrowCredits(p, e, u, a, x); }
      case RepayStep(u, a, x) => if Repay(p, e, u, a, x).Ok? { RepayCredits(p, e, u, a, x); }
      case AddCollateralStep(u, t, x) =>
      case RemoveCollateralStep(u, t, x) =>
        if RemoveCollateral(p, e, u, t, x).Ok? { RemoveCollateralEffect(p, e, u, t, x); }
    }
  }

  /** Auctions, accrual and fee collection; only a fill of an interest auction lowers a credit. */
  lemma AuctionCredits(p: Pool, e: Env, step: Step)
    requires PoolInv(p) && AuctionStep(step) && !step.FillInterestAuctionStep?
    ensures CreditsGrow(p, AuctionNext(p, e, step))
  {
    hide PoolInv, LedgerInv, InitiateLiquidation, FillAuction, AccrueOnly, AccruedReserve, CDPOrNew, Holding, CustodyOf,
      HealthFactor,
         UsdValue, FillAmounts, ToDTokenDown, LotAmount, Premium, FromDToken, MulScalar7;
    match step {
      case InitiateLiquidationStep(u, t, a, x) =>
        if InitiateLiquidation(p, e, u, t, a, x).Ok? {
          var auction, collateral, collateralValue, owed, debtValue, premium := InitiateEffect(p, e, u, t, a, x);
        }
      case FillAuctionStep(id) =>
        if FillAuction(p, e, id).Ok? {
          PoolIsLedger(p);
          var token, debtToken, asset, received, paid, burnt, books := FillEffect(p, e, id);
        }
      case AccrueStep(a) =>
        if AccrueOnly(p, e, a).Ok? {
          AccrueOnlyEffect(p, e, a);
          AccruedCredit(p, e, a);
        }
      case _ =>
    }
  }

  lemma ConfigCredits(p: Pool, e: Env, step: Step)
    requires !LedgerStep(step) && !AuctionStep(step)
    ensures CreditsGrow(p, Next(p, e, step))
  {
  }

  /** No step but an interest fill lowers a backstop credit. */
  lemma StepCredits(p: Pool, e: Env, step: Step)
    requires PoolInv(p) && !step.FillInterestAuctionStep?
    ensures CreditsGrow(p, Next(p, e, step))
  {
    hide PoolInv, CreditsGrow, LedgerNext, AuctionNext, QueueNext, SettingNext;
    if LedgerStep(step) {
      LedgerCredits(p, e, step);
    } else if AuctionStep(step) {
      AuctionCredits(p, e, step);
    } else {
      ConfigCredits(p, e, step);
    }
  }

  /** What an interest fill does to its asset: the payout leaves the pool balance, and the credit
      falls by as much, or to the end of its type. */
  lemma FillCredit(p: Pool, e: Env, id: int, asset: Symbol, fillPercent: int)
    requires FillInterestAuction(p, e, id, asset, fillPercent).Ok? && BalanceOf(p, asset) >= 0
    ensures var p' := FillInterestAuction(p, e, id, asset, fillPercent).value.0;
            var drawn := InterestDrawn(p, id, asset, fillPercent);
            && (forall a: Symbol :: a != asset ==> CreditOf(p', a) == CreditOf(p, a))
            && CreditOf(p', asset) == (if drawn <= 0 then CreditOf(p, asset)
                 else SaturatingSub(CreditOf(p, asset), drawn))
            && EquityOf(p', asset) - EquityOf(p, asset)
                 == if drawn <= 0 then 0 else (CreditOf(p, asset) - CreditOf(p', asset) - drawn) * SCALAR_12
  {
    hide FillInterestAuction, PayInterest, SaturatingSub;
    var token, lot, interest := FillInterestEffect(p, e, id, asset, fillPercent);
    var p' := FillInterestAuction(p, e, id, asset, fillPercent).value.0;
    if interest > 0 {
      PaidOut(p, e, asset, token, interest);
    } else {
      NothingPaid(p, e, asset, token, interest);
    }
  }

  lemma PaidOut(p: Pool, e: Env, asset: Symbol, token: Address, interest: int)
    requires interest > 0 && PayInterest(p, e, asset, token, interest).Ok?
    ensures var p' := PayInterest(p, e, asset, token, interest).value;
            var r, r' := ReserveOf(p, asset, 0), ReserveOf(p', asset, 0);
            && p'.reserves == p.reserves[asset := r']
            && r' == r.(backstopCredit := SaturatingSub(r.backstopCredit, interest), lastTime := r'.lastTime)
            && BalanceOf(p', asset) == BalanceOf(p, asset) - interest
  {
  }

  /** A fill leaves the credit non-negative exactly when it draws no more than the credit. */
  lemma FillKeepsCreditIff(p: Pool, e: Env, id: int, asset: Symbol, fillPercent: int)
    requires PoolInv(p) && CreditOf(p, asset) >= 0 && FillInterestAuction(p, e, id, asset, fillPercent).Ok?
    ensures CreditOf(FillInterestAuction(p, e, id, asset, fillPercent).value.0, asset) >= 0
       <==> InterestDrawn(p, id, asset, fillPercent) <= CreditOf(p, asset)
  {
    assert AssetInv(p, asset);
    hide FillInterestAuction, InterestDrawn, PoolInv;
    FillCredit(p, e, id, asset, fillPercent);
  }

  /** A fill keeps the reserve's equity exactly when the subtraction from the credit stays in range. */
  lemma FillKeepsEquityIff(p: Pool, e: Env, id: int, asset: Symbol, fillPercent: int)
    requires PoolInv(p) && FillInterestAuction(p, e, id, asset, fillPercent).Ok?
    ensures EquityOf(FillInterestAuction(p, e, id, asset, fillPercent).value.0, asset) >= EquityOf(p, asset)
       <==> DrawInRange(p, id, asset, fillPercent)
  {
    assert AssetInv(p, asset);
    hide FillInterestAuction, InterestDrawn, PoolInv, EquityOf;
    FillCredit(p, e, id, asset, fillPercent);
  }

  /** A test before the call: an interest fill is to draw at most the credit of that moment. */
  predicate StepCovered(p: Pool, step: Step) {
    match step
    case FillInterestAuctionStep(id, asset, fillPercent) =>
      InterestDrawn(p, id, asset, fillPercent) <= CreditOf(p, asset)
    case _ => StepAllowed(p, step)
  }

  predicate RunCovered(p: Pool, events: seq<Event>) {
    forall i :: 0 <= i < |events| ==> StepCovered(Run(p, events[..i]), events[i].step)
  }

  ghost predicate CreditsSound(p: Pool) {
    forall a: Symbol :: CreditOf(p, a) >= 0
  }

  lemma StepKeepsCredits(p: Pool, e: Env, step: Step)
    requires PoolInv(p) && CreditsSound(p) && StepCovered(p, step)
    ensures CreditsSound(Next(p, e, step)) && PoolInv(Next(p, e, step))
  {
    if step.FillInterestAuctionStep? {
      assert AssetInv(p, step.asset);
      hide PoolInv, FillInterestAuction, InterestDrawn;
      if FillInterestAuction(p, e, step.id, step.asset, step.fillPercent).Ok? {
        FillCredit(p, e, step.id, step.asset, step.fillPercent);
      }
      StepKeeps(p, e, step);
    } else {
      hide PoolInv, Next;
      StepCredits(p, e, step);
      StepKeeps(p, e, step);
    }
  }

  /** Without a negative credit, solvency is cover for the lenders. */
  lemma SoundCreditsCover(p: Pool)
    requires PoolInv(p) && CreditsSound(p)
    ensures forall a: Symbol :: LendersCovered(p, a)
  {
    forall a: Symbol
      ensures LendersCovered(p, a)
    {
      assert AssetInv(p, a) && CreditOf(p, a) >= 0;
    }
  }

  /** Over every run whose interest fills draw at most the credit of their moment, no backstop credit
      is negative and liquid tokens and outstanding debt cover every bToken. */
  lemma {:induction false} LendersCoveredOverRuns(p: Pool, events: seq<Event>)
    requires PoolInv(p) && CreditsSound(p) && RunCovered(p, events)
    ensures PoolInv(Run(p, events)) && CreditsSound(Run(p, events))
    ensures forall a: Symbol :: LendersCovered(Run(p, events), a)
  {
    if events != [] {
      var init, last := events[..|events| - 1], events[|events| - 1];
      forall i | 0 <= i < |init|
        ensures StepCovered(Run(p, init[..i]), init[i].step)
      {
        assert init[..i] == events[..i];
        assert StepCovered(Run(p, events[..i]), events[i].step);
      }
      LendersCoveredOverRuns(p, init);
      assert StepCovered(Run(p, init), last.step);
      hide Next, StepCovered, CreditsSound, PoolInv;
      StepKeepsCredits(Run(p, init), last.env, last.step);
    }
    hide Run, PoolInv;
    SoundCreditsCover(Run(p, events));
  }
}
