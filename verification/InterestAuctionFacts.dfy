/** One interest auction over any run that does not draw its credit elsewhere. */
module InterestAuctionFacts {
  import opened Outcomes
  import opened FixedPoint
  import opened Tables
  import opened PoolTypes
  import opened PoolStore
  import opened Valuation
  import opened PoolOperations
  import opened PoolInvariants
  import opened PoolSteps
  import opened PoolRuns
  import opened LedgerRuns
  import opened LenderCover
  import LiquidationFacts

  /** What is left of the auction's lot; nothing once it is closed. */
  function Remaining(p: Pool, id: int, asset: Symbol): int {
    if id in p.auctions && p.auctions[id].auctionType == AuctionType.Interest && asset in p.tokenContract
    then GetOr(p.auctions[id].lot, p.tokenContract[asset], 0)
    else 0
  }

  /** The auction holds a positive lot or is gone, and the credit it draws on covers the lot. */
  ghost predicate Open(p: Pool, id: int, asset: Symbol) {
    && asset in p.tokenContract
    && (id in p.auctions ==>
          p.auctions[id].auctionType == AuctionType.Interest && Sorted(p.auctions[id].lot)
            && Remaining(p, id, asset) > 0)
    && Remaining(p, id, asset) <= CreditOf(p, asset) <= I128_MAX
  }

  /** What leaves the auction and its credit to itself: interest fills are of this auction on its
      asset, or of another auction on another asset, and its entry is neither replaced nor dropped. */
  predicate Spares(e: Env, step: Step, id: int, asset: Symbol) {
    match step
    case FillInterestAuctionStep(i, a, _) => i == id <==> a == asset
    case CreateInterestAuctionStep(_, _) => AuctionId(e, INTEREST_ID_OFFSET) != id
    case InitiateLiquidationStep(_, _, _, _) => AuctionId(e, LIQUIDATION_ID_OFFSET) != id
    case DropAuctionStep(i) => i != id
    case _ => true
  }

  /** The interest a step pays out of this auction. */
  function PaidBy(p: Pool, e: Env, step: Step, id: int): int {
    if !step.FillInterestAuctionStep? || step.id != id then 0
    else
      var r := FillInterestAuction(p, e, step.id, step.asset, step.fillPercent);
      if r.Ok? then r.value.1.0 else 0
  }

  function PaidOver(p: Pool, events: seq<Event>, id: int): int {
    if events == [] then 0
    else
      var init, last := events[..|events| - 1], events[|events| - 1];
      PaidOver(p, init, id) + PaidBy(Run(p, init), last.env, last.step, id)
  }

  /** What one step promises about the auction and the credit behind it. */
  ghost predicate Conserves(p: Pool, p': Pool, id: int, asset: Symbol, paid: int) {
    && Open(p', id, asset)
    && paid >= 0
    && Remaining(p', id, asset) + paid == Remaining(p, id, asset)
    && CreditOf(p', asset) - Remaining(p', id, asset) >= CreditOf(p, asset) - Remaining(p, id, asset)
  }

  lemma PartialInterest(lot: int, fillPercent: int)
    requires lot >= 0 && 0 < fillPercent <= SCALAR_7
    ensures 0 <= FloorDiv(lot * fillPercent, SCALAR_7) <= lot
  {
    MulMono2(0, lot, 0, fillPercent);
    MulMono(fillPercent, SCALAR_7, lot);
    FloorNonNegative(lot * fillPercent, SCALAR_7);
    MulCancel(FloorDiv(lot * fillPercent, SCALAR_7), lot, SCALAR_7);
  }

  /** The pool side of a payout covered by the credit. */
  lemma PayoutAmounts(p: Pool, e: Env, asset: Symbol, interest: int, auctions: map<int, Auction>)
    requires PoolInv(p) && asset in p.tokenContract
    requires 0 <= interest <= CreditOf(p, asset) <= I128_MAX
    requires PayInterest(p, e, asset, p.tokenContract[asset], interest).Ok?
    ensures var p' := PayInterest(p, e, asset, p.tokenContract[asset], interest).value.(auctions := auctions);
            && BalanceOf(p', asset) == BalanceOf(p, asset) - interest
            && CreditOf(p', asset) == CreditOf(p, asset) - interest
            && p'.tokenContract == p.tokenContract
  {
    if interest > 0 {
      hide PayInterest;
      PayInterestEffect(p, e, asset, interest, map[]);
    } else {
      NothingPaid(p, e, asset, p.tokenContract[asset], interest);
    }
  }

  lemma FillConserves(p: Pool, e: Env, id: int, asset: Symbol, fillPercent: int)
    requires PoolInv(p) && Open(p, id, asset) && FillInterestAuction(p, e, id, asset, fillPercent).Ok?
    ensures var (p', paid) := FillInterestAuction(p, e, id, asset, fillPercent).value;
            Conserves(p, p', id, asset, paid.0) && BalanceOf(p', asset) == BalanceOf(p, asset) - paid.0
  {
    hide FillInterestAuction, PayInterest, PoolInv, CreditOf, BalanceOf;
    var (p', paid) := FillInterestAuction(p, e, id, asset, fillPercent).value;
    var token, lot, interest := FillInterestEffect(p, e, id, asset, fillPercent);
    PartialInterest(lot, fillPercent);
    PayoutAmounts(p, e, asset, interest, p'.auctions);
    assert SaturatingSub(lot, interest) == lot - interest;
    GetSet(p.auctions[id].lot, token, lot - interest, token);
    SetSorted(p.auctions[id].lot, token, lot - interest);
  }

  /** An open auction never draws more than the credit. */
  lemma OpenAllows(p: Pool, id: int, asset: Symbol, fillPercent: int)
    requires Open(p, id, asset)
    ensures InterestDrawn(p, id, asset, fillPercent) <= CreditOf(p, asset)
    ensures DrawInRange(p, id, asset, fillPercent)
  {
    if id in p.auctions && 0 < fillPercent <= SCALAR_7 {
      PartialInterest(Remaining(p, id, asset), fillPercent);
    }
  }

  /** The auction's entry and the token contracts are as they were. */
  predicate Untouched(p: Pool, p': Pool, id: int) {
    && p'.tokenContract == p.tokenContract && (id in p'.auctions <==> id in p.auctions)
    && (id in p.auctions ==> p'.auctions[id] == p.auctions[id])
  }

  lemma UserStepsTouchNone(p: Pool, e: Env, step: Step, id: int)
    requires LedgerStep(step)
    ensures Untouched(p, LedgerNext(p, e, step), id)
  {
    hide Deposit, Withdraw, Borrow, Repay, AddCollateral, RemoveCollateral, AccruedReserve, CDPOrNew, Holding,
      CustodyOf;
    match step {
      case DepositStep(u, a, x) => if Deposit(p, e, u, a, x).Ok? { var r := DepositEffect(p, e, u, a, x); }
      case WithdrawStep(u, a, x) => if Withdraw(p, e, u, a, x).Ok? { var r := WithdrawEffect(p, e, u, a, x); }
      case BorrowStep(u, a, x) => if Borrow(p, e, u, a, x).Ok? { var r := BorrowEffect(p, e, u, a, x); }
      case RepayStep(u, a, x) => if Repay(p, e, u, a, x).Ok? { var r, burn := RepayEffect(p, e, u, a, x); }
      case AddCollateralStep(u, t, x) =>
        if AddCollateral(p, e, u, t, x).Ok? { AddCollateralEffect(p, e, u, t, x); }
      case RemoveCollateralStep(u, t, x) =>
        if RemoveCollateral(p, e, u, t, x).Ok? { RemoveCollateralEffect(p, e, u, t, x); }
    }
  }

  lemma FillTouchesOther(p: Pool, e: Env, filled: int, id: int)
    requires PoolInv(p) && FillAuction(p, e, filled).Ok?
    requires id in p.auctions ==> p.auctions[id].auctionType == AuctionType.Interest
    ensures Untouched(p, FillAuction(p, e, filled).value.0, id)
  {
    hide FillAuction, PoolInv, LedgerInv, FillAmounts, ToDTokenDown, HealthFactor, CDPOrNew, Holding, CustodyOf;
    PoolIsLedger(p);
    var token, debtToken, asset, received, paid, burnt, books := FillEffect(p, e, filled);
  }

  lemma PayoutTouchesOther(p: Pool, e: Env, filled: int, id: int, asset: Symbol, fillPercent: int)
    requires FillInterestAuction(p, e, filled, asset, fillPercent).Ok? && filled != id
    ensures Untouched(p, FillInterestAuction(p, e, filled, asset, fillPercent).value.0, id)
  {
    hide FillInterestAuction, PayInterest, SaturatingSub, Set, InterestDrawn;
    var token, lot, interest := FillInterestEffect(p, e, filled, asset, fillPercent);
    if interest > 0 {
      PayWrites(p, e, asset, interest);
    } else {
      NothingPaid(p, e, asset, token, interest);
    }
  }

  lemma InitiateTouchesOther(p: Pool, e: Env, user: Address, token: Address, asset: Symbol, percent: U32, id: int)
    requires InitiateLiquidation(p, e, user, token, asset, percent).Ok? && AuctionId(e, LIQUIDATION_ID_OFFSET) != id
    ensures Untouched(p, InitiateLiquidation(p, e, user, token, asset, percent).value.0, id)
  {
    hide InitiateLiquidation, HealthFactor, UsdValue, LotAmount, Premium, FromDToken, MulScalar7, AuctionId,
      CollateralOf;
    var auction, collateral, collateralValue, owed, debtValue,
      premium := InitiateEffect(p, e, user, token, asset, percent);
    LiquidationFacts.InitiateIds(p, e, user, token, asset, percent);
  }

  lemma CreateTouchesOther(p: Pool, e: Env, contract: Address, asset: Symbol, id: int)
    requires CreateInterestAuction(p, e, contract, asset).Ok? && AuctionId(e, INTEREST_ID_OFFSET) != id
    ensures Untouched(p, CreateInterestAuction(p, e, contract, asset).value.0, id)
  {
    hide AuctionId, Set;
  }

  lemma AccrueTouchesNone(p: Pool, e: Env, asset: Symbol, id: int)
    requires AccrueOnly(p, e, asset).Ok?
    ensures Untouched(p, AccrueOnly(p, e, asset).value.0, id)
  {
    hide AccrueOnly, AccruedReserve;
    AccrueOnlyEffect(p, e, asset);
  }

  lemma CollectTouchesNone(p: Pool, e: Env, asset: Symbol, id: int)
    requires CollectTreasuryFees(p, e, asset).Ok?
    ensures Untouched(p, CollectTreasuryFees(p, e, asset).value.0, id)
  {
  }

  /** Auction steps other than a fill of this one. */
  lemma AuctionStepsTouchOthers(p: Pool, e: Env, step: Step, id: int, asset: Symbol)
    requires PoolInv(p) && AuctionStep(step) && Spares(e, step, id, asset)
    requires id in p.auctions ==> p.auctions[id].auctionType == AuctionType.Interest
    requires step.FillInterestAuctionStep? ==> step.id != id
    ensures Untouched(p, AuctionNext(p, e, step), id)
  {
    hide PoolInv, InitiateLiquidation, CreateInterestAuction, FillAuction, FillInterestAuction, AccrueOnly,
      CollectTreasuryFees, AuctionId;
    match step {
      case InitiateLiquidationStep(u, t, a, x) =>
        if InitiateLiquidation(p, e, u, t, a, x).Ok? { InitiateTouchesOther(p, e, u, t, a, x, id); }
      case CreateInterestAuctionStep(c, a) =>
        if CreateInterestAuction(p, e, c, a).Ok? { CreateTouchesOther(p, e, c, a, id); }
      case FillAuctionStep(filled) => if FillAuction(p, e, filled).Ok? { FillTouchesOther(p, e, filled, id); }
      case FillInterestAuctionStep(filled, a, x) =>
        if FillInterestAuction(p, e, filled, a, x).Ok? { PayoutTouchesOther(p, e, filled, id, a, x); }
      case AccrueStep(a) => if AccrueOnly(p, e, a).Ok? { AccrueTouchesNone(p, e, a, id); }
      case CollectTreasuryStep(a) => if CollectTreasuryFees(p, e, a).Ok? { CollectTouchesNone(p, e, a, id); }
      case DropAuctionStep(_) =>
    }
  }

  lemma OthersTouchNone(p: Pool, e: Env, step: Step, id: int, asset: Symbol)
    requires PoolInv(p) && Spares(e, step, id, asset)
    requires id in p.auctions ==> p.auctions[id].auctionType == AuctionType.Interest
    requires step.FillInterestAuctionStep? ==> step.id != id
    ensures Untouched(p, Next(p, e, step), id)
  {
    hide PoolInv, LedgerNext, AuctionNext, Spares, Untouched;
    if LedgerStep(step) {
      UserStepsTouchNone(p, e, step, id);
    } else if AuctionStep(step) {
      AuctionStepsTouchOthers(p, e, step, id, asset);
    } else {
      ConfigTouchesNone(p, e, step, id);
    }
  }

  lemma ConfigTouchesNone(p: Pool, e: Env, step: Step, id: int)
    requires PoolInv(p) && !LedgerStep(step) && !AuctionStep(step)
    ensures Untouched(p, Next(p, e, step), id)
  {
    assert FactorsOk(p);
    hide PoolInv, FactorsOk, Next;
    ConfigWrites(p, e, step);
  }

  /** Of the steps that leave the entry alone, none lowers the credit behind it. */
  lemma OthersKeepCredit(p: Pool, e: Env, step: Step, id: int, asset: Symbol)
    requires PoolInv(p) && Spares(e, step, id, asset) && CreditOf(p, asset) <= I128_MAX
    requires step.FillInterestAuctionStep? ==> step.id != id
    ensures CreditOf(p, asset) <= CreditOf(Next(p, e, step), asset) <= I128_MAX
  {
    if step.FillInterestAuctionStep? {
      assert AssetInv(p, step.asset);
      hide PoolInv, FillInterestAuction;
      if FillInterestAuction(p, e, step.id, step.asset, step.fillPercent).Ok? {
        FillCredit(p, e, step.id, step.asset, step.fillPercent);
      }
    } else {
      hide Next, PoolInv;
      StepCredits(p, e, step);
    }
  }

  lemma UntouchedConserves(p: Pool, p': Pool, id: int, asset: Symbol)
    requires Open(p, id, asset) && Untouched(p, p', id) && CreditOf(p, asset) <= CreditOf(p', asset) <= I128_MAX
    ensures Conserves(p, p', id, asset, 0)
  {
  }

  lemma StepConserves(p: Pool, e: Env, id: int, asset: Symbol, step: Step)
    requires PoolInv(p) && Open(p, id, asset) && Spares(e, step, id, asset)
    ensures Conserves(p, Next(p, e, step), id, asset, PaidBy(p, e, step, id))
    ensures step.FillInterestAuctionStep? && step.id == id ==> StepAllowed(p, step)
  {
    hide FillInterestAuction, PoolInv, LedgerNext, QueueNext, SettingNext, Untouched;
    if step.FillInterestAuctionStep? && step.id == id {
      OpenAllows(p, id, asset, step.fillPercent);
      if FillInterestAuction(p, e, id, asset, step.fillPercent).Ok? {
        FillConserves(p, e, id, asset, step.fillPercent);
      }
    } else {
      OthersTouchNone(p, e, step, id, asset);
      OthersKeepCredit(p, e, step, id, asset);
      UntouchedConserves(p, Next(p, e, step), id, asset);
    }
  }

  /** Over every run that spares it, an auction's interest paid out plus what is left of its lot is the
      initial lot, and the credit keeps covering what is left: whatever lenders, borrowers, other
      auctions and the administrator do in between, it can be filled to the end. */
  lemma {:induction false} LotConserved(p: Pool, events: seq<Event>, id: int, asset: Symbol)
    requires PoolInv(p) && Open(p, id, asset) && RunAllowed(p, events)
    requires forall i :: 0 <= i < |events| ==> Spares(events[i].env, events[i].step, id, asset)
    ensures var p' := Run(p, events);
            && PoolInv(p') && Open(p', id, asset)
            && PaidOver(p, events, id) >= 0
            && PaidOver(p, events, id) + Remaining(p', id, asset) == Remaining(p, id, asset)
            && CreditOf(p', asset) >= Remaining(p', id, asset)
  {
    hide Next, Open, PoolInv, PaidBy, Spares, StepAllowed;
    if events != [] {
      var init, last := events[..|events| - 1], events[|events| - 1];
      LotConserved(p, init, id, asset);
      StepConserves(Run(p, init), last.env, id, asset, last.step);
      StepKeeps(Run(p, init), last.env, last.step);
    }
    OpenCovers(Run(p, events), id, asset);
  }

  lemma OpenCovers(p: Pool, id: int, asset: Symbol)
    requires Open(p, id, asset)
    ensures CreditOf(p, asset) >= Remaining(p, id, asset)
  {
  }

  /** Only fills of this auction and accruals. */
  predicate FillOrAccrue(step: Step, id: int, asset: Symbol) {
    step.AccrueStep? || (step.FillInterestAuctionStep? && step.id == id && step.asset == asset)
  }

  lemma FillStepPays(p: Pool, e: Env, id: int, asset: Symbol, fillPercent: int)
    requires PoolInv(p) && Open(p, id, asset)
    ensures var step := FillInterestAuctionStep(id, asset, fillPercent);
            BalanceOf(Next(p, e, step), asset) == BalanceOf(p, asset) - PaidBy(p, e, step, id) && StepAllowed(p, step)
  {
    hide FillInterestAuction, PoolInv, Open, LedgerNext, QueueNext, SettingNext, Conserves, DrawInRange;
    OpenAllows(p, id, asset, fillPercent);
    if FillInterestAuction(p, e, id, asset, fillPercent).Ok? {
      FillConserves(p, e, id, asset, fillPercent);
    }
  }

  lemma AccrueStepPays(p: Pool, e: Env, asset: Symbol, accrued: Symbol)
    ensures BalanceOf(Next(p, e, AccrueStep(accrued)), asset) == BalanceOf(p, asset)
  {
    hide AccrueOnly, LedgerNext, QueueNext, SettingNext, AccruedReserve;
    if AccrueOnly(p, e, accrued).Ok? {
      AccrueOnlyEffect(p, e, accrued);
    }
  }

  lemma StepPays(p: Pool, e: Env, id: int, asset: Symbol, step: Step)
    requires PoolInv(p) && Open(p, id, asset) && FillOrAccrue(step, id, asset)
    ensures BalanceOf(Next(p, e, step), asset) == BalanceOf(p, asset) - PaidBy(p, e, step, id)
    ensures StepAllowed(p, step)
  {
    hide Next, PoolInv, Open, BalanceOf;
    if step.AccrueStep? {
      AccrueStepPays(p, e, asset, step.asset);
    } else {
      FillStepPays(p, e, id, asset, step.fillPercent);
    }
  }

  /** With nothing else going on, the pool balance falls by exactly what was paid, and every such run
      is allowed. */
  lemma {:induction false} LotIsPaidFromBalance(p: Pool, events: seq<Event>, id: int, asset: Symbol)
    requires PoolInv(p) && Open(p, id, asset)
    requires forall i :: 0 <= i < |events| ==> FillOrAccrue(events[i].step, id, asset)
    ensures RunAllowed(p, events)
    ensures BalanceOf(Run(p, events), asset) == BalanceOf(p, asset) - PaidOver(p, events, id)
  {
    hide Next, Open, PoolInv, PaidBy, StepAllowed, BalanceOf;
    if events != [] {
      var init, last := events[..|events| - 1], events[|events| - 1];
      LotIsPaidFromBalance(p, init, id, asset);
      LotConserved(p, init, id, asset);
      StepPays(Run(p, init), last.env, id, asset, last.step);
    }
  }

  /** A newly created auction puts up the whole credit, and is open in the sense above. */
  lemma CreatedOpen(p: Pool, e: Env, contract: Address, asset: Symbol)
    requires PoolInv(p) && CreateInterestAuction(p, e, contract, asset).Ok?
    requires CreditOf(p, asset) <= I128_MAX
    ensures var (p', id) := CreateInterestAuction(p, e, contract, asset).value;
            Open(p', id, asset) && Remaining(p', id, asset) == CreditOf(p, asset) >= MIN_INTEREST_AUCTION
  {
    var (p', id) := CreateInterestAuction(p, e, contract, asset).value;
    GetSet([], p.tokenContract[asset], CreditOf(p, asset), p.tokenContract[asset]);
  }

  lemma BidSteps(blocks: int)
    requires blocks >= 0
    ensures InterestBidModifier(blocks) == Max(0, 200 - blocks) * 5_000_000_000
  {
  }

  /** `b` blocks after its start a fill hands out its percentage of the lot, all of it whatever the time,
      and asks for `200 - b` two-hundredths of that in backstop tokens, for nothing from block 200 on. */
  lemma FillAsksByTheClock(p: Pool, e: Env, id: int, asset: Symbol, fillPercent: int)
    requires FillInterestAuction(p, e, id, asset, fillPercent).Ok?
    ensures id in p.auctions && asset in p.tokenContract && 0 < fillPercent <= 10_000_000
    ensures e.sequence >= p.auctions[id].block
    ensures var interest := FloorDiv(GetOr(p.auctions[id].lot, p.tokenContract[asset], 0) * fillPercent, 10_000_000);
            FillInterestAuction(p, e, id, asset, fillPercent).value.1
              == (interest, FloorDiv(interest * Max(0, 200 - (e.sequence - p.auctions[id].block)), 200))
  {
    hide FillInterestAuction, FloorDiv, Get, GetOr;
    var token, lot, interest := FillInterestEffect(p, e, id, asset, fillPercent);
    var blocks := AskedUnfolds(p, e, id, asset, fillPercent);
    BidSteps(blocks);
    LiquidationFacts.InSteps(interest, Max(0, 200 - blocks));
  }

  lemma AskedUnfolds(p: Pool, e: Env, id: int, asset: Symbol, fillPercent: int) returns (blocks: int)
    requires FillInterestAuction(p, e, id, asset, fillPercent).Ok?
    ensures id in p.auctions && e.sequence >= p.auctions[id].block && blocks == e.sequence - p.auctions[id].block
    ensures var (interest, asked) := FillInterestAuction(p, e, id, asset, fillPercent).value.1;
            asked == FloorDiv(interest * InterestBidModifier(blocks), SCALAR_12)
  {
    hide PayInterest, InterestBidModifier, Get, GetOr, FloorDiv;
    blocks := e.sequence - p.auctions[id].block;
  }

  /** The asked price falls with waiting, from the whole to nothing after 200 blocks. */
  lemma InterestBidFalls(early: int, late: int)
    requires 0 <= early <= late
    ensures 0 <= InterestBidModifier(late) <= InterestBidModifier(early) <= SCALAR_12
    ensures late >= AUCTION_DURATION_BLOCKS ==> InterestBidModifier(late) == 0
  {
  }

  /** Creation does not reserve the credit, and does not look for an open auction: in a later call,
      under another identifier, a second one is put up on the same credit beside the first.  What
      filling both does is `TwoAuctionsUncoverLenders`. */
  lemma SecondAuctionOnSameCredit(p: Pool, e1: Env, e2: Env, contract: Address, asset: Symbol)
    requires CreateInterestAuction(p, e1, contract, asset).Ok?
    requires AuctionId(e1, INTEREST_ID_OFFSET) != AuctionId(e2, INTEREST_ID_OFFSET)
    ensures var (p1, id1) := CreateInterestAuction(p, e1, contract, asset).value;
            var second := CreateInterestAuction(p1, e2, contract, asset);
            && second.Ok?
            && var (p2, id2) := second.value;
            && id1 != id2 && id1 in p2.auctions && id2 in p2.auctions
            && Remaining(p2, id1, asset) == Remaining(p2, id2, asset) == CreditOf(p2, asset) == CreditOf(p, asset)
  {
    var token := p.tokenContract[asset];
    GetSet([], token, CreditOf(p, asset), token);
  }
}
