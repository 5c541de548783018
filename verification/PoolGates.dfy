/** What the pool turns away: the state it is in, the parameters of a reserve and the amounts decide over
    steps and runs, whoever calls. */
module PoolGates {
  import opened Outcomes
  import opened FixedPoint
  import opened PoolTypes
  import opened PoolStore
  import opened Valuation
  import opened PoolOperations
  import opened PoolInvariants
  import opened PoolSteps
  import opened LedgerRuns
  import opened ConfigTimelock

  predicate Disabled(p: Pool, asset: Symbol) {
    asset in p.params && !p.params[asset].enabled
  }

  /** The reserve has a cap, and the balance with the deposit would pass it. */
  predicate OverCap(p: Pool, asset: Symbol, amount: int) {
    asset in p.params && 0 < p.params[asset].supplyCap < BalanceOf(p, asset) + amount
  }

  /** What turns a step away before anything is computed. */
  predicate Refused(p: Pool, step: Step) {
    match step
    case DepositStep(_, a, x) => x <= 0 || p.state == Frozen || Disabled(p, a) || OverCap(p, a, x)
    case WithdrawStep(_, _, x) => x <= 0 || p.state == Frozen
    case BorrowStep(_, a, x) => x <= 0 || p.state != Active || Disabled(p, a)
    case RepayStep(_, _, x) => x <= 0
    case AddCollateralStep(_, t, x) => x <= 0 || (t in p.collateralFactor && p.collateralFactor[t] == 0)
    case RemoveCollateralStep(_, _, x) => x <= 0
    case BackstopPushStep(c, _) => p.backstopContract != Some(c)
    case _ => false
  }

  lemma RefusedUserStep(p: Pool, e: Env, step: Step)
    requires LedgerStep(step) && Refused(p, step)
    ensures LedgerNext(p, e, step) == p
  {
    hide AccruedReserve, DepositBooks, WithdrawBooks, BorrowAllowed, BorrowBooks, RepayBooks, WithCollateral, Receive,
      RemovalAllowed, CollateralOf;
  }

  /** A step that is turned away leaves the store as it was, whatever the prices, the clock and the limit. */
  lemma RefusedChangesNothing(p: Pool, e: Env, step: Step)
    requires Refused(p, step)
    ensures Next(p, e, step) == p
  {
    hide LedgerNext, AuctionNext, QueueNext;
    if LedgerStep(step) {
      RefusedUserStep(p, e, step);
    }
  }

  // ---- Debt while the pool is not active ----

  /** No user holds more debt tokens of any asset. */
  predicate NoMoreDebt(p: Pool, p': Pool, user: Address, asset: Symbol) {
    Holding(p'.dTokens, user, asset) <= Holding(p.dTokens, user, asset)
  }

  lemma RepayLowersDebt(p: Pool, e: Env, payer: Address, paid: Symbol, amount: int, user: Address, asset: Symbol)
    requires LedgerInv(p) && Repay(p, e, payer, paid, amount).Ok?
    ensures NoMoreDebt(p, Repay(p, e, payer, paid, amount).value.0, user, asset)
  {
    hide Repay, RepayBurn, AccruedReserve, LedgerInv, CustodyOf, BalanceOf;
    var r, burn := RepayEffect(p, e, payer, paid, amount);
    CallLedger(p, e, payer, paid);
    BurnValue(p.cdps[payer], amount, r, e.now);
    assert burn.burnt >= 0;
  }

  lemma UserStepAddsNoDebt(p: Pool, e: Env, step: Step, user: Address, asset: Symbol)
    requires LedgerInv(p) && LedgerStep(step) && p.state != Active
    ensures NoMoreDebt(p, LedgerNext(p, e, step), user, asset)
  {
    hide LedgerInv, Deposit, Withdraw, Borrow, Repay, AddCollateral, RemoveCollateral, AccruedReserve, CDPOrNew,
      CustodyOf, BalanceOf;
    match step {
      case DepositStep(u, a, x) => if Deposit(p, e, u, a, x).Ok? { var r := DepositEffect(p, e, u, a, x); }
      case WithdrawStep(u, a, x) => if Withdraw(p, e, u, a, x).Ok? { var r := WithdrawEffect(p, e, u, a, x); }
      case BorrowStep(u, a, x) => RefusedUserStep(p, e, step);
      case RepayStep(u, a, x) => if Repay(p, e, u, a, x).Ok? { RepayLowersDebt(p, e, u, a, x, user, asset); }
      case AddCollateralStep(u, t, x) =>
        if AddCollateral(p, e, u, t, x).Ok? { AddCollateralEffect(p, e, u, t, x); }
      case RemoveCollateralStep(u, t, x) =>
        if RemoveCollateral(p, e, u, t, x).Ok? { RemoveCollateralEffect(p, e, u, t, x); }
    }
  }

  lemma FillLowersDebt(p: Pool, e: Env, id: int, user: Address, asset: Symbol)
    requires LedgerInv(p) && FillAuction(p, e, id).Ok?
    ensures NoMoreDebt(p, FillAuction(p, e, id).value.0, user, asset)
  {
    hide FillAuction, LedgerInv, FillAmounts, ToDTokenDown, HealthFactor, CustodyOf, BalanceOf, ReserveOf;
    var token, debtToken, filled, received, paid, burnt, books := FillEffect(p, e, id);
  }

  lemma InitiateKeepsHoldings(p: Pool, e: Env, user: Address, token: Address, asset: Symbol, percent: U32)
    requires InitiateLiquidation(p, e, user, token, asset, percent).Ok?
    ensures var p' := InitiateLiquidation(p, e, user, token, asset, percent).value.0;
            p'.dTokens == p.dTokens && p'.bTokens == p.bTokens
  {
    hide InitiateLiquidation, HealthFactor, UsdValue, LotAmount, Premium, FromDToken, MulScalar7, CollateralOf;
    var auction, collateral, collateralValue, owed, debtValue,
      premium := InitiateEffect(p, e, user, token, asset, percent);
  }

  lemma CreditKeepsHoldings(p: Pool, p': Pool, asset: Symbol, r: Reserve, amount: int)
    requires CreditWrite(p, p', asset, r, amount)
    ensures p'.dTokens == p.dTokens && p'.bTokens == p.bTokens
  {
  }

  lemma InterestKeepsHoldings(p: Pool, e: Env, id: int, asset: Symbol, fillPercent: int)
    requires FillInterestAuction(p, e, id, asset, fillPercent).Ok?
    ensures var p' := FillInterestAuction(p, e, id, asset, fillPercent).value.0;
            p'.dTokens == p.dTokens && p'.bTokens == p.bTokens
  {
    hide FillInterestAuction, CreditWrite;
    var p' := FillInterestAuction(p, e, id, asset, fillPercent).value.0;
    var interest := FillInterestWrites(p, e, id, asset, fillPercent);
    if interest > 0 {
      CreditKeepsHoldings(p, p', asset, ReserveOf(p', asset, 0), interest);
    }
  }

  /** Auction steps other than liquidation fills touch no holdings, and no step of this kind touches bTokens. */
  lemma AuctionsKeepHoldings(p: Pool, e: Env, step: Step)
    requires AuctionStep(step) && !step.FillAuctionStep?
    ensures AuctionNext(p, e, step).dTokens == p.dTokens && AuctionNext(p, e, step).bTokens == p.bTokens
  {
    hide InitiateLiquidation, CreateInterestAuction, FillInterestAuction, AccrueOnly, CollectTreasuryFees,
      AccruedReserve;
    match step {
      case InitiateLiquidationStep(u, t, a, x) =>
        if InitiateLiquidation(p, e, u, t, a, x).Ok? { InitiateKeepsHoldings(p, e, u, t, a, x); }
      case CreateInterestAuctionStep(c, a) =>
        if CreateInterestAuction(p, e, c, a).Ok? { CreateWrites(p, e, c, a); }
      case FillInterestAuctionStep(id, a, x) =>
        if FillInterestAuction(p, e, id, a, x).Ok? { InterestKeepsHoldings(p, e, id, a, x); }
      case AccrueStep(a) => if AccrueOnly(p, e, a).Ok? { AccrueOnlyEffect(p, e, a); }
      case CollectTreasuryStep(a) => if CollectTreasuryFees(p, e, a).Ok? { CollectWrites(p, e, a); }
      case DropAuctionStep(_) =>
    }
  }

  lemma StepAddsNoDebt(p: Pool, e: Env, step: Step, user: Address, asset: Symbol)
    requires LedgerInv(p) && p.state != Active
    ensures NoMoreDebt(p, Next(p, e, step), user, asset)
  {
    assert FactorsOk(p);
    hide LedgerInv, LedgerNext, AuctionNext, QueueNext, SettingNext, FactorsOk;
    if LedgerStep(step) {
      UserStepAddsNoDebt(p, e, step, user, asset);
    } else if step.FillAuctionStep? {
      FillStepLowers(p, e, step.id, user, asset);
    } else if AuctionStep(step) {
      AuctionsKeepHoldings(p, e, step);
    } else {
      ConfigWrites(p, e, step);
    }
  }

  lemma FillStepLowers(p: Pool, e: Env, id: int, user: Address, asset: Symbol)
    requires LedgerInv(p)
    ensures NoMoreDebt(p, AuctionNext(p, e, FillAuctionStep(id)), user, asset)
  {
    hide LedgerInv, FillAuction;
    if FillAuction(p, e, id).Ok? {
      FillLowersDebt(p, e, id, user, asset);
    }
  }

  /** Over a run that never finds the pool active, nobody's debt tokens rise. */
  lemma {:induction false} NoNewDebtUnlessActive(p: Pool, events: seq<Event>, user: Address, asset: Symbol)
    requires LedgerInv(p) && forall i :: 0 <= i < |events| ==> Run(p, events[..i]).state != Active
    ensures NoMoreDebt(p, Run(p, events), user, asset)
  {
    hide LedgerInv, Next, Holding;
    if events != [] {
      var init, last := events[..|events| - 1], events[|events| - 1];
      assert forall i :: 0 <= i < |init| ==> init[..i] == events[..i];
      NoNewDebtUnlessActive(p, init, user, asset);
      SupplyOverRuns(p, init);
      assert Run(p, events[..|events| - 1]).state != Active;
      StepAddsNoDebt(Run(p, init), last.env, last.step, user, asset);
    }
  }

  // ---- Lenders while the pool is frozen ----

  lemma FrozenStepKeepsLenders(p: Pool, e: Env, step: Step)
    requires LedgerInv(p) && p.state == Frozen
    ensures Next(p, e, step).bTokens == p.bTokens
  {
    assert FactorsOk(p);
    hide LedgerInv, LedgerNext, AuctionNext, QueueNext, SettingNext, FactorsOk;
    if LedgerStep(step) {
      FrozenUserStep(p, e, step);
    } else if step.FillAuctionStep? {
      FillKeepsLenders(p, e, step.id);
    } else if AuctionStep(step) {
      AuctionsKeepHoldings(p, e, step);
    } else {
      ConfigWrites(p, e, step);
    }
  }

  lemma FillKeepsLenders(p: Pool, e: Env, id: int)
    requires LedgerInv(p)
    ensures AuctionNext(p, e, FillAuctionStep(id)).bTokens == p.bTokens
  {
    hide LedgerInv, FillAuction, FillAmounts, ToDTokenDown, HealthFactor, CustodyOf, BalanceOf, ReserveOf;
    if FillAuction(p, e, id).Ok? {
      var token, debtToken, filled, received, paid, burnt, books := FillEffect(p, e, id);
    }
  }

  lemma FrozenUserStep(p: Pool, e: Env, step: Step)
    requires LedgerStep(step) && p.state == Frozen
    ensures LedgerNext(p, e, step).bTokens == p.bTokens
  {
    hide Deposit, Withdraw, Borrow, Repay, AddCollateral, RemoveCollateral, AccruedReserve, CDPOrNew, CustodyOf,
      BalanceOf, Holding, RepayBurn;
    match step {
      case RepayStep(u, a, x) => if Repay(p, e, u, a, x).Ok? { var r, burn := RepayEffect(p, e, u, a, x); }
      case AddCollateralStep(u, t, x) =>
        if AddCollateral(p, e, u, t, x).Ok? { AddCollateralEffect(p, e, u, t, x); }
      case RemoveCollateralStep(u, t, x) =>
        if RemoveCollateral(p, e, u, t, x).Ok? { RemoveCollateralEffect(p, e, u, t, x); }
      case _ => FrozenRefuses(p, e, step);
    }
  }

  lemma FrozenRefuses(p: Pool, e: Env, step: Step)
    requires p.state == Frozen && (step.DepositStep? || step.WithdrawStep? || step.BorrowStep?)
    ensures LedgerNext(p, e, step) == p
  {
    hide LedgerNext;
    RefusedUserStep(p, e, step);
  }

  /** Over a run that always finds the pool frozen, nobody's bTokens change. */
  lemma {:induction false} FrozenKeepsLenders(p: Pool, events: seq<Event>)
    requires LedgerInv(p) && forall i :: 0 <= i < |events| ==> Run(p, events[..i]).state == Frozen
    ensures Run(p, events).bTokens == p.bTokens
  {
    hide LedgerInv, Next;
    if events != [] {
      var init, last := events[..|events| - 1], events[|events| - 1];
      assert forall i :: 0 <= i < |init| ==> init[..i] == events[..i];
      FrozenKeepsLenders(p, init);
      SupplyOverRuns(p, init);
      assert Run(p, events[..|events| - 1]).state == Frozen;
      FrozenStepKeepsLenders(Run(p, init), last.env, last.step);
    }
  }

  // ---- Who moves the state ----

  /** User, auction and queue steps leave the state, the rates and the collateral factors alone. */
  lemma OperationsKeepSettings(p: Pool, e: Env, step: Step)
    requires LedgerStep(step) || AuctionStep(step)
    ensures SameConfig(p, Next(p, e, step))
  {
    hide SameConfig, LedgerNext, AuctionNext, QueueNext, SettingNext;
    if LedgerStep(step) {
      LedgerStepFrame(p, e, step);
    } else {
      AuctionStepFrame(p, e, step);
    }
  }

  lemma QueueKeepsState(p: Pool, e: Env, step: Step)
    requires QueueStep(step)
    ensures QueueNext(p, e, step).state == p.state
  {
  }

  /** The state moves only when the administrator sets it or the registered backstop pushes an ordinal,
      0 for Active, 1 for OnIce and any other for Frozen. */
  lemma StateMovesOnlyByItsSetters(p: Pool, e: Env, step: Step)
    ensures Next(p, e, step).state
         == match step
            case SetPoolStateStep(s) => s
            case BackstopPushStep(c, ordinal) =>
              if p.backstopContract != Some(c) then p.state
              else if ordinal == 0 then Active else if ordinal == 1 then OnIce else Frozen
            case _ => p.state
  {
    hide LedgerNext, AuctionNext, QueueNext;
    if LedgerStep(step) || AuctionStep(step) {
      OperationsKeepSettings(p, e, step);
    } else if QueueStep(step) {
      QueueKeepsState(p, e, step);
    }
  }

  /** A setter within its bound sets its one setting; out of bounds it changes nothing. */
  lemma SettersSetOneThing(p: Pool, e: Env, step: Step)
    ensures match step
            case SetTakeRateStep(r) => Next(p, e, step) == if r <= 10_000_000 then p.(takeRate := r) else p
            case SetReserveFactorStep(r) =>
              Next(p, e, step) == if r <= 10_000_000 - p.takeRate then p.(reserveFactor := r) else p
            case SetOriginationFeeStep(r) =>
              Next(p, e, step) == if r <= 10_000_000 then p.(originationFeeRate := r) else p
            case SetLiquidationFeeStep(r) =>
              Next(p, e, step) == if r <= 10_000_000 then p.(liquidationFeeRate := r) else p
            case SetCollateralFactorStep(t, f) =>
              Next(p, e, step) == if f <= 10_000_000 then p.(collateralFactor := p.collateralFactor[t := f]) else p
            case _ => true
  {
    hide LedgerNext, AuctionNext, QueueNext;
  }

  /** What each kind of refusal answers, before anything else is looked at. */
  lemma RefusalsSayWhy(p: Pool, e: Env, user: Address, asset: Symbol, amount: int)
    ensures amount <= 0 ==>
              && Deposit(p, e, user, asset, amount) == Err(NotPositive)
              && Withdraw(p, e, user, asset, amount) == Err(NotPositive)
              && Borrow(p, e, user, asset, amount) == Err(NotPositive)
              && Repay(p, e, user, asset, amount) == Err(NotPositive)
    ensures amount > 0 && p.state != Active ==> Borrow(p, e, user, asset, amount) == Err(PoolOnIce)
    ensures amount > 0 && p.state == Frozen ==>
              && Deposit(p, e, user, asset, amount) == Err(PoolFrozen)
              && Withdraw(p, e, user, asset, amount) == Err(PoolFrozen)
    ensures amount > 0 && Disabled(p, asset) ==>
              && (p.state != Frozen ==> Deposit(p, e, user, asset, amount) == Err(ReserveDisabled))
              && (p.state == Active ==> Borrow(p, e, user, asset, amount) == Err(ReserveDisabled))
    ensures amount > 0 && p.state != Frozen && !Disabled(p, asset) && OverCap(p, asset, amount)
              && FitsI128(BalanceOf(p, asset) + amount) ==>
              Deposit(p, e, user, asset, amount) == Err(SupplyCapExceeded)
  {
    hide AccruedReserve, DepositBooks, WithdrawBooks, BorrowAllowed, BorrowBooks, RepayBooks;
  }
}
