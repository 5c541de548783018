/** What the ledgers of the pool agree on, over every run whatever the administrator sets and however
    much the interest auctions draw. */
module LedgerRuns {
  import opened Outcomes
  import opened FixedPoint
  import opened PoolTypes
  import opened PoolStore
  import opened PoolOperations
  import opened AccrualFacts
  import opened PoolInvariants
  import opened PoolSteps
  import Sums

  ghost predicate LedgerKept(p: Pool, p': Pool) {
    LedgerInv(p') && SameOrphans(p, p')
  }

  /** User operations. */
  lemma UserStepKeeps(p: Pool, e: Env, step: Step)
    requires LedgerInv(p) && LedgerStep(step)
    ensures LedgerKept(p, LedgerNext(p, e, step))
  {
    hide LedgerInv, Deposit, Withdraw, Borrow, Repay, AddCollateral, RemoveCollateral, LendingWrite, DebtWrite, Aged,
      OrphanedDebt;
    match step {
      case DepositStep(u, a, x) =>
        if Deposit(p, e, u, a, x).Ok? {
          var r := DepositWrites(p, e, u, a, x);
          LendingLedger(p, LedgerNext(p, e, step), u, a, r, x, Deposit(p, e, u, a, x).value.1);
        }
      case WithdrawStep(u, a, x) =>
        if Withdraw(p, e, u, a, x).Ok? {
          var r, burnt := WithdrawWrites(p, e, u, a, x);
          LendingLedger(p, LedgerNext(p, e, step), u, a, r, -Withdraw(p, e, u, a, x).value.1, -burnt);
        }
      case BorrowStep(u, a, x) =>
        if Borrow(p, e, u, a, x).Ok? {
          var r, fee := BorrowWrites(p, e, u, a, x);
          DebtLedger(p, LedgerNext(p, e, step), u, a, r, -x, fee, Borrow(p, e, u, a, x).value.1, e.now);
        }
      case RepayStep(u, a, x) =>
        if Repay(p, e, u, a, x).Ok? {
          var r, burnt := RepayWrites(p, e, u, a, x);
          DebtLedger(p, LedgerNext(p, e, step), u, a, r, Repay(p, e, u, a, x).value.1, 0, -burnt, e.now);
        }
      case AddCollateralStep(u, t, x) =>
        if AddCollateral(p, e, u, t, x).Ok? {
          AddCollateralEffect(p, e, u, t, x);
          CollateralLedger(p, LedgerNext(p, e, step), u, t, x, e.now);
        }
      case RemoveCollateralStep(u, t, x) =>
        if RemoveCollateral(p, e, u, t, x).Ok? {
          RemoveCollateralEffect(p, e, u, t, x);
          CollateralLedger(p, LedgerNext(p, e, step), u, t, -x, e.now);
        }
    }
  }

  lemma FillInterestWrites(p: Pool, e: Env, id: int, asset: Symbol, fillPercent: int) returns (interest: int)
    requires FillInterestAuction(p, e, id, asset, fillPercent).Ok?
    ensures var p' := FillInterestAuction(p, e, id, asset, fillPercent).value.0;
            if interest > 0 then CreditWrite(p, p', asset, ReserveOf(p', asset, 0), interest)
            else p' == p.(auctions := p'.auctions)
    ensures var p' := FillInterestAuction(p, e, id, asset, fillPercent).value.0;
            forall i :: i in p'.auctions && p'.auctions[i].auctionType == UserLiquidation
              ==> i in p.auctions && p'.auctions[i] == p.auctions[i]
  {
    hide FillInterestAuction, PayInterest;
    var token, lot;
    token, lot, interest := FillInterestEffect(p, e, id, asset, fillPercent);
    if interest > 0 {
      PayWrites(p, e, asset, interest);
    } else {
      NothingPaid(p, e, asset, token, interest);
    }
  }

  lemma CollectWrites(p: Pool, e: Env, asset: Symbol)
    requires CollectTreasuryFees(p, e, asset).Ok?
    ensures var (p', amount) := CollectTreasuryFees(p, e, asset).value;
            CreditWrite(p, p', asset, ReserveOf(p', asset, 0), amount)
  {
  }

  lemma CreateWrites(p: Pool, e: Env, contract: Address, asset: Symbol)
    requires CreateInterestAuction(p, e, contract, asset).Ok?
    ensures var p' := CreateInterestAuction(p, e, contract, asset).value.0;
            && p' == p.(auctions := p'.auctions)
            && forall i :: i in p'.auctions && p'.auctions[i].auctionType == UserLiquidation
                 ==> i in p.auctions && p'.auctions[i] == p.auctions[i]
  {
  }

  lemma FillInterestKeepsLedger(p: Pool, e: Env, id: int, asset: Symbol, fillPercent: int)
    requires LedgerInv(p) && FillInterestAuction(p, e, id, asset, fillPercent).Ok?
    ensures LedgerKept(p, FillInterestAuction(p, e, id, asset, fillPercent).value.0)
  {
    hide LedgerInv, FillInterestAuction, OrphanedDebt, CreditWrite;
    var p' := FillInterestAuction(p, e, id, asset, fillPercent).value.0;
    var interest := FillInterestWrites(p, e, id, asset, fillPercent);
    if interest > 0 {
      CreditLedger(p, p', asset, ReserveOf(p', asset, 0), interest);
    } else {
      AuctionLedger(p, p');
    }
  }

  lemma AccrueKeepsLedger(p: Pool, e: Env, asset: Symbol)
    requires LedgerInv(p) && AccrueOnly(p, e, asset).Ok?
    ensures LedgerKept(p, AccrueOnly(p, e, asset).value.0)
  {
    hide LedgerInv, AccrueOnly, OrphanedDebt, AccruedReserve, Aged;
    var p' := AccrueOnly(p, e, asset).value.0;
    AccrueOnlyEffect(p, e, asset);
    if p' != p {
      AccruedAges(p, e, asset);
      ReserveLedger(p, p', asset, AccruedReserve(p, e, asset).value);
    }
  }

  lemma CollectKeepsLedger(p: Pool, e: Env, asset: Symbol)
    requires LedgerInv(p) && CollectTreasuryFees(p, e, asset).Ok?
    ensures LedgerKept(p, CollectTreasuryFees(p, e, asset).value.0)
  {
    hide LedgerInv, CollectTreasuryFees, OrphanedDebt, CreditWrite;
    var (p', amount) := CollectTreasuryFees(p, e, asset).value;
    CollectWrites(p, e, asset);
    CreditLedger(p, p', asset, ReserveOf(p', asset, 0), amount);
  }

  lemma NewAuctionKeepsLedger(p: Pool, e: Env, step: Step)
    requires LedgerInv(p) && (step.InitiateLiquidationStep? || step.CreateInterestAuctionStep?)
    ensures LedgerKept(p, AuctionNext(p, e, step))
  {
    hide LedgerInv, InitiateLiquidation, CreateInterestAuction, OrphanedDebt, AuctionInv;
    var p' := AuctionNext(p, e, step);
    match step {
      case InitiateLiquidationStep(u, t, a, x) =>
        if InitiateLiquidation(p, e, u, t, a, x).Ok? {
          InitiateAuctionOk(p, e, u, t, a, x);
          AuctionLedger(p, p');
        }
      case CreateInterestAuctionStep(c, a) =>
        if CreateInterestAuction(p, e, c, a).Ok? {
          CreateWrites(p, e, c, a);
          AuctionLedger(p, p');
        }
    }
  }

  lemma SettledKept<T>(p: Pool, r: Result<(Pool, T)>)
    requires LedgerInv(p) && (r.Ok? ==> LedgerKept(p, r.value.0))
    ensures LedgerKept(p, Settle(p, r).0)
  {
    hide LedgerInv, OrphanedDebt;
  }

  /** Auctions, accrual and fee collection, liquidation fills aside. */
  lemma AuctionsKeep(p: Pool, e: Env, step: Step)
    requires LedgerInv(p) && AuctionStep(step) && !step.FillAuctionStep?
    ensures LedgerKept(p, AuctionNext(p, e, step))
  {
    hide LedgerInv, FillInterestAuction, AccrueOnly, CollectTreasuryFees, LedgerKept, Settle;
    match step {
      case FillInterestAuctionStep(id, a, x) =>
        if FillInterestAuction(p, e, id, a, x).Ok? { FillInterestKeepsLedger(p, e, id, a, x); }
        SettledKept(p, FillInterestAuction(p, e, id, a, x));
      case AccrueStep(a) =>
        if AccrueOnly(p, e, a).Ok? { AccrueKeepsLedger(p, e, a); }
        SettledKept(p, AccrueOnly(p, e, a));
      case CollectTreasuryStep(a) =>
        if CollectTreasuryFees(p, e, a).Ok? { CollectKeepsLedger(p, e, a); }
        SettledKept(p, CollectTreasuryFees(p, e, a));
      case DropAuctionStep(id) => DropKeepsLedger(p, e, id);
      case _ => NewAuctionKeepsLedger(p, e, step);
    }
  }

  lemma DropKeepsLedger(p: Pool, e: Env, id: int)
    requires LedgerInv(p)
    ensures LedgerKept(p, AuctionNext(p, e, DropAuctionStep(id)))
  {
    hide LedgerInv, OrphanedDebt;
    AuctionLedger(p, AuctionNext(p, e, DropAuctionStep(id)));
  }

  lemma FillStepAdds(p: Pool, e: Env, id: int)
    requires LedgerInv(p)
    ensures var p' := AuctionNext(p, e, FillAuctionStep(id));
            LedgerInv(p') && forall a: Symbol :: OrphanedDebt(p', a) >= OrphanedDebt(p, a)
  {
    hide LedgerInv, FillAuction, FillMove, OrphanedDebt;
    if FillAuction(p, e, id).Ok? {
      var token, debtToken, asset, received, paid, burnt, books := FillEffect(p, e, id);
      BurntInMove(p, FillAuction(p, e, id).value.0, id, token, debtToken, asset, received, paid, burnt, e.now);
      FillLedger(p, FillAuction(p, e, id).value.0, id, token, debtToken, asset, received, paid, burnt, e.now);
    }
  }

  lemma BurntInMove(p: Pool, p': Pool, id: int, token: Address, debtToken: Address, asset: Symbol, received: int,
      paid: int, burnt: int, now: nat)
    requires FillMove(p, p', id, token, debtToken, asset, received, paid, burnt, now)
    ensures burnt >= 0
  {
  }

  lemma SettledFactors(p: Pool, r: Result<(Pool, ())>)
    requires FactorsOk(p) && (r.Ok? ==> FactorsOk(r.value.0) && ConfigMove(p, r.value.0))
    ensures FactorsOk(Settle(p, r).0) && ConfigMove(p, Settle(p, r).0)
  {
  }

  /** `p'` is `p` with other settings but the same collateral factors. */
  predicate RateMove(p: Pool, r: Result<(Pool, ())>) {
    r.Ok? ==> ConfigMove(p, r.value.0) && r.value.0.collateralFactor == p.collateralFactor
  }

  /** What keeps the collateral factors keeps their bound. */
  lemma SameFactors(p: Pool, r: Result<(Pool, ())>)
    requires FactorsOk(p) && RateMove(p, r)
    ensures FactorsOk(Settle(p, r).0) && ConfigMove(p, Settle(p, r).0)
  {
  }

  lemma FactorSet(p: Pool, token: Address, factor: U32)
    requires FactorsOk(p) && SetCollateralFactor(p, token, factor).Ok?
    ensures FactorsOk(SetCollateralFactor(p, token, factor).value.0)
  {
  }

  lemma TakeRateMoves(p: Pool, rate: U32)
    ensures RateMove(p, SetBackstopTakeRate(p, rate))
  {
  }

  lemma ReserveFactorMoves(p: Pool, rate: U32)
    ensures RateMove(p, SetReserveFactor(p, rate))
  {
  }

  lemma OriginationFeeMoves(p: Pool, rate: U32)
    ensures RateMove(p, SetOriginationFeeRate(p, rate))
  {
  }

  lemma LiquidationFeeMoves(p: Pool, rate: U32)
    ensures RateMove(p, SetLiquidationFeeRate(p, rate))
  {
  }

  lemma PushMoves(p: Pool, caller: Address, ordinal: nat)
    ensures RateMove(p, UpdatePoolStateFromBackstop(p, caller, ordinal))
  {
  }

  lemma StateMoves(p: Pool, state: PoolState)
    requires FactorsOk(p)
    ensures FactorsOk(p.(state := state)) && ConfigMove(p, p.(state := state))
  {
  }

  lemma FactorMoves(p: Pool, token: Address, factor: U32)
    requires FactorsOk(p)
    ensures var r := SetCollateralFactor(p, token, factor);
            FactorsOk(Settle(p, r).0) && ConfigMove(p, Settle(p, r).0)
  {
    if SetCollateralFactor(p, token, factor).Ok? {
      FactorSet(p, token, factor);
    }
  }

  lemma SettingWrites(p: Pool, step: Step)
    requires FactorsOk(p) && !LedgerStep(step) && !AuctionStep(step) && !QueueStep(step)
    ensures FactorsOk(SettingNext(p, step)) && ConfigMove(p, SettingNext(p, step))
  {
    hide Settle, FactorsOk, ConfigMove, SetBackstopTakeRate, SetReserveFactor, SetOriginationFeeRate,
      SetLiquidationFeeRate, SetCollateralFactor, UpdatePoolStateFromBackstop;
    match step {
      case SetTakeRateStep(rate) => TakeRateMoves(p, rate); SameFactors(p, SetBackstopTakeRate(p, rate));
      case SetReserveFactorStep(rate) => ReserveFactorMoves(p, rate); SameFactors(p, SetReserveFactor(p, rate));
      case SetOriginationFeeStep(rate) => OriginationFeeMoves(p, rate); SameFactors(p, SetOriginationFeeRate(p, rate));
      case SetLiquidationFeeStep(rate) => LiquidationFeeMoves(p, rate); SameFactors(p, SetLiquidationFeeRate(p, rate));
      case SetCollateralFactorStep(t, f) => FactorMoves(p, t, f);
      case SetPoolStateStep(s) => StateMoves(p, s);
      case BackstopPushStep(c, ordinal) => PushMoves(p, c, ordinal);
        SameFactors(p, UpdatePoolStateFromBackstop(p, c, ordinal));
    }
  }

  lemma QueueMoves(p: Pool, e: Env, asset: Symbol, ps: InterestRateParams)
    ensures RateMove(p, QueueReserveParams(p, e, asset, ps))
  {
  }

  lemma AppliedMoves(p: Pool, e: Env, asset: Symbol)
    ensures RateMove(p, ApplyQueuedParams(p, e, asset))
  {
  }

  lemma DroppedMove(p: Pool, asset: Symbol)
    requires FactorsOk(p)
    ensures FactorsOk(DropQueuedParams(p, asset)) && ConfigMove(p, DropQueuedParams(p, asset))
  {
  }

  lemma QueueWrites(p: Pool, e: Env, step: Step)
    requires FactorsOk(p) && QueueStep(step)
    ensures FactorsOk(QueueNext(p, e, step)) && ConfigMove(p, QueueNext(p, e, step))
  {
    hide Settle, FactorsOk, QueueReserveParams, ApplyQueuedParams, ConfigMove;
    match step {
      case QueueParamsStep(a, ps) => QueueMoves(p, e, a, ps); SameFactors(p, QueueReserveParams(p, e, a, ps));
      case ApplyParamsStep(a) => AppliedMoves(p, e, a); SameFactors(p, ApplyQueuedParams(p, e, a));
      case DropParamsStep(a) => DroppedMove(p, a);
    }
  }

  /** Settings and queued parameters touch configuration only. */
  lemma ConfigWrites(p: Pool, e: Env, step: Step)
    requires FactorsOk(p) && !LedgerStep(step) && !AuctionStep(step)
    ensures FactorsOk(Next(p, e, step)) && ConfigMove(p, Next(p, e, step))
  {
    hide FactorsOk, ConfigMove, LedgerNext, AuctionNext, QueueNext, SettingNext;
    if QueueStep(step) {
      QueueWrites(p, e, step);
    } else {
      SettingWrites(p, step);
    }
  }

  lemma ConfigStepKeeps(p: Pool, e: Env, step: Step)
    requires LedgerInv(p) && !LedgerStep(step) && !AuctionStep(step)
    ensures LedgerKept(p, Next(p, e, step))
  {
    assert FactorsOk(p);
    hide LedgerInv, SameOrphans, FactorsOk, ConfigMove, Next;
    ConfigWrites(p, e, step);
    ConfigLedger(p, Next(p, e, step));
  }

  /** Every step keeps what the ledgers agree on; only a liquidation fill changes the amount of debt
      tokens without a holder, and it adds to it. */
  lemma StepKeepsLedger(p: Pool, e: Env, step: Step)
    requires LedgerInv(p)
    ensures LedgerInv(Next(p, e, step))
    ensures forall a: Symbol :: OrphanedDebt(Next(p, e, step), a) >= OrphanedDebt(p, a)
    ensures !step.FillAuctionStep? ==> SameOrphans(p, Next(p, e, step))
  {
    hide LedgerInv, LedgerNext, AuctionNext, QueueNext, SettingNext, OrphanedDebt;
    if LedgerStep(step) {
      UserStepKeeps(p, e, step);
    } else if step.FillAuctionStep? {
      FillStepAdds(p, e, step.id);
    } else if AuctionStep(step) {
      AuctionsKeep(p, e, step);
    } else {
      ConfigStepKeeps(p, e, step);
    }
  }

  /** Over every run, with no condition on its steps: the bToken supply is what lenders hold, each
      borrower owes in at most one asset what both ledgers say, and the dToken supply covers the
      dTokens held, with equality when it was equal before and no liquidation was filled. */
  lemma {:induction false} SupplyOverRuns(p: Pool, events: seq<Event>)
    requires LedgerInv(p)
    ensures LedgerInv(Run(p, events))
    ensures forall a: Symbol :: ReserveOf(Run(p, events), a, 0).bSupply == TokenSum(Run(p, events).bTokens, a)
    ensures forall u: Address :: DebtorInv(Run(p, events), u)
    ensures forall a: Symbol :: OrphanedDebt(Run(p, events), a) >= OrphanedDebt(p, a)
    ensures (forall i :: 0 <= i < |events| ==> !events[i].step.FillAuctionStep?) ==> SameOrphans(p, Run(p, events))
  {
    hide Next, TokenSum, OrphanedDebt, DebtorInv;
    if events != [] {
      var init, last := events[..|events| - 1], events[|events| - 1];
      SupplyOverRuns(p, init);
      StepKeepsLedger(Run(p, init), last.env, last.step);
      assert forall i :: 0 <= i < |init| ==> events[i] == init[i];
      assert events[|events| - 1] == last;
    }
    forall a: Symbol
      ensures ReserveOf(Run(p, events), a, 0).bSupply == TokenSum(Run(p, events).bTokens, a)
    {
      assert LedgerAsset(Run(p, events), a);
    }
  }

  /** Over every run the pool holds, of each token that is only ever collateral, exactly what the CDPs record. */
  lemma CustodyOverRuns(p: Pool, events: seq<Event>, token: Address)
    requires LedgerInv(p) && PureCollateral(Run(p, events), token)
    ensures CustodyOf(Run(p, events), token) == Sums.SumBy(Run(p, events).cdps, CollateralIn(token))
  {
    SupplyOverRuns(p, events);
    assert CustodyInv(Run(p, events), token);
  }

  /** Every run starts from such a pool. */
  lemma FreshLedgerInv(p: Pool)
    requires p.reserves == map[] && p.bTokens == map[] && p.dTokens == map[]
    requires p.cdps == map[] && p.auctions == map[] && p.custody == map[]
    requires FactorsOk(p)
    ensures LedgerInv(p)
  {
  }
}
