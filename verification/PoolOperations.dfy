/** What each pool entry point does to storage, as a function from the old to the new store. */
module PoolOperations {
  import opened Outcomes
  import opened FixedPoint
  import opened Tables
  import opened PoolTypes
  import opened PoolStore
  import opened Valuation
  import Interest

  // ---- Lending ----

  /** A disabled reserve and a full one turn deposits away. */
  function DepositAllowed(p: Pool, asset: Symbol, amount: int): Result<()> {
    if asset !in p.params then Ok(())
    else
      var ps := p.params[asset];
      if !ps.enabled then Err(ReserveDisabled)
      else if ps.supplyCap > 0 then
        if !FitsI128(BalanceOf(p, asset) + amount) then Err(Trap)
        else Need(BalanceOf(p, asset) + amount <= ps.supplyCap, SupplyCapExceeded)
      else Ok(())
  }

  /** The part of a deposit after accrual: tokens in, bTokens minted. */
  function DepositBooks(p: Pool, lender: Address, asset: Symbol, amount: int, r: Reserve): Result<(Pool, int)> {
    var bTokens :- ToBTokenDown(amount, r.bRate);
    var token :- TokenOf(p, asset);
    var p1 :- Receive(p, token, amount);
    var balance :- Plus(BalanceOf(p, asset), amount);
    var bSupply :- CheckedAdd(r.bSupply, bTokens);
    var held :- Plus(Holding(p.bTokens, lender, asset), bTokens);
    Ok((p1.(reserves := p.reserves[asset := r.(bSupply := bSupply)],
            poolBalance := p.poolBalance[asset := balance],
            bTokens := p.bTokens[UserAsset(lender, asset) := held]),
        bTokens))
  }

  function Deposit(p: Pool, e: Env, lender: Address, asset: Symbol, amount: int): Result<(Pool, int)> {
    var _ :- Need(amount > 0, NotPositive);
    var _ :- Need(p.state != Frozen, PoolFrozen);
    var _ :- DepositAllowed(p, asset, amount);
    var r :- AccruedReserve(p, e, asset);
    DepositBooks(p, lender, asset, amount, r)
  }

  /** The last part of a withdrawal or borrow: utilization kept below 100%, tokens out, reserve saved. */
  function PayOut(p: Pool, asset: Symbol, amount: int, r: Reserve): Result<Pool> {
    var utilization :- Interest.Utilization(r);
    var _ :- Need(utilization < SCALAR_7, InvalidUtilRate);
    var token :- TokenOf(p, asset);
    var p1 :- Send(p, token, amount);
    Ok(p1.(reserves := p.reserves[asset := r]))
  }

  /** The part of a withdrawal after accrual: bTokens burnt, tokens out, utilization kept below 100%. */
  function WithdrawBooks(p: Pool, lender: Address, asset: Symbol, bTokens: int, r: Reserve): Result<(Pool, int)> {
    var held := Holding(p.bTokens, lender, asset);
    var burnt := Min(bTokens, held);
    var _ :- Need(burnt != 0, InsufficientBTokenBalance);
    var amount :- FromBToken(burnt, r.bRate);
    var balance := BalanceOf(p, asset);
    var _ :- Need(balance >= amount, InsufficientPoolBalance);
    var bSupply :- CheckedSub(r.bSupply, burnt);
    var left :- Minus(held, burnt);
    var balance' :- Minus(balance, amount);
    var written := p.(poolBalance := p.poolBalance[asset := balance'],
                      bTokens := p.bTokens[UserAsset(lender, asset) := left]);
    var paid :- PayOut(written, asset, amount, r.(bSupply := bSupply));
    Ok((paid, amount))
  }

  function Withdraw(p: Pool, e: Env, lender: Address, asset: Symbol, bTokens: int): Result<(Pool, int)> {
    var _ :- Need(bTokens > 0, NotPositive);
    var _ :- Need(p.state != Frozen, PoolFrozen);
    var r :- AccruedReserve(p, e, asset);
    WithdrawBooks(p, lender, asset, bTokens, r)
  }

  // ---- Borrowing ----

  /** One debt asset per borrower, and a new debt within the borrow limit. */
  function BorrowAllowed(p: Pool, e: Env, borrower: Address, asset: Symbol, amount: int): Result<()> {
    var cdp := CDPOrNew(p, borrower, e.now);
    var _ :- Need(cdp.debtAsset.None? || cdp.debtAsset.value == asset, DebtAssetAlreadySet);
    var limit :- BorrowLimit(p, e, borrower);
    var q :- QuoteFor(e.assetQuotes, asset);
    var value :- UsdValue(amount, q);
    var effective :- EffectiveDebt(value, LFactor(p, asset));
    Need(effective <= limit, InsufficientBorrowLimit)
  }

  /** The reserve after a borrow that mints `dTokens`, and its dTokens: fee to the treasury, both owed by the
      borrower. */
  function BorrowMint(p: Pool, amount: int, r: Reserve): Result<(Reserve, int)> {
    var fee :- MulScalar7Ceil(amount, p.originationFeeRate);
    var owed :- CheckedAdd(amount, fee);
    var dTokens :- ToDTokenUp(owed, r.dRate);
    var treasuryCredit :- if fee > 0 then CheckedAdd(r.treasuryCredit, fee) else Ok(r.treasuryCredit);
    var dSupply :- CheckedAdd(r.dSupply, dTokens);
    Ok((r.(treasuryCredit := treasuryCredit, dSupply := dSupply), dTokens))
  }

  /** The part of a borrow after the limit check: dTokens minted, tokens out, utilization kept below 100%. */
  function BorrowBooks(p: Pool, e: Env, borrower: Address, asset: Symbol, amount: int, r: Reserve)
    : Result<(Pool, int)>
  {
    var balance := BalanceOf(p, asset);
    var _ :- Need(balance >= amount, InsufficientPoolBalance);
    var minted :- BorrowMint(p, amount, r);
    var cdp := CDPOrNew(p, borrower, e.now);
    var debt :- Plus(cdp.dTokens, minted.1);
    var held :- Plus(Holding(p.dTokens, borrower, asset), minted.1);
    var balance' :- Minus(balance, amount);
    var written := p.(poolBalance := p.poolBalance[asset := balance'],
                      cdps := p.cdps[borrower := cdp.(debtAsset := Some(asset), dTokens := debt, lastUpdate := e.now)],
                      dTokens := p.dTokens[UserAsset(borrower, asset) := held]);
    var paid :- PayOut(written, asset, amount, minted.0);
    Ok((paid, minted.1))
  }

  function Borrow(p: Pool, e: Env, borrower: Address, asset: Symbol, amount: int): Result<(Pool, int)> {
    var _ :- Need(amount > 0, NotPositive);
    var _ :- Need(p.state == Active, PoolOnIce);
    var _ :- Need(asset in p.params ==> p.params[asset].enabled, ReserveDisabled);
    var r :- AccruedReserve(p, e, asset);
    var _ :- BorrowAllowed(p, e, borrower, asset, amount);
    BorrowBooks(p, e, borrower, asset, amount, r)
  }

  /** A CDP whose debt shrank by `burnt` dTokens; the debt asset is cleared with the last of them. */
  function WithLessDebt(cdp: CDP, burnt: int, now: nat): Result<CDP> {
    var left :- Minus(cdp.dTokens, burnt);
    Ok(cdp.(dTokens := left, debtAsset := if left == 0 then None else cdp.debtAsset, lastUpdate := now))
  }

  /** The last part of a repayment: tokens in, reserve saved. */
  function TakeIn(p: Pool, asset: Symbol, amount: int, r: Reserve): Result<Pool> {
    var token :- TokenOf(p, asset);
    var p1 :- Receive(p, token, amount);
    Ok(p1.(reserves := p.reserves[asset := r]))
  }

  /** What a repayment of up to `dTokens` costs, and the CDP and reserve after it. */
  datatype Burn = Burn(burnt: int, amount: int, cdp: CDP, reserve: Reserve)

  function RepayBurn(cdp: CDP, dTokens: int, r: Reserve, now: nat): Result<Burn> {
    var burnt := Min(dTokens, cdp.dTokens);
    var amount :- FromDToken(burnt, r.dRate);
    var cdp' :- WithLessDebt(cdp, burnt, now);
    var dSupply :- CheckedSub(r.dSupply, burnt);
    Ok(Burn(burnt, amount, cdp', r.(dSupply := dSupply)))
  }

  /** The part of a repayment after accrual: dTokens burnt, tokens in. */
  function RepayBooks(p: Pool, e: Env, borrower: Address, asset: Symbol, dTokens: int, r: Reserve)
    : Result<(Pool, int)>
  {
    var _ :- Need(borrower in p.cdps && p.cdps[borrower].debtAsset == Some(asset), DebtAssetNotSet);
    var held := Holding(p.dTokens, borrower, asset);
    var _ :- Need(held >= dTokens, InsufficientDTokenBalance);
    var burn :- RepayBurn(p.cdps[borrower], dTokens, r, e.now);
    var left :- Minus(held, burn.burnt);
    var balance :- Plus(BalanceOf(p, asset), burn.amount);
    var written := p.(poolBalance := p.poolBalance[asset := balance],
                      cdps := p.cdps[borrower := burn.cdp],
                      dTokens := p.dTokens[UserAsset(borrower, asset) := left]);
    var taken :- TakeIn(written, asset, burn.amount, burn.reserve);
    Ok((taken, burn.amount))
  }

  function Repay(p: Pool, e: Env, borrower: Address, asset: Symbol, dTokens: int): Result<(Pool, int)> {
    var _ :- Need(dTokens > 0, NotPositive);
    var r :- AccruedReserve(p, e, asset);
    RepayBooks(p, e, borrower, asset, dTokens, r)
  }

  // ---- Collateral ----

  function WithCollateral(p: Pool, borrower: Address, token: Address, amount: int, now: nat): Pool {
    var cdp := CDPOrNew(p, borrower, now);
    p.(cdps := p.cdps[borrower := cdp.(collateral := Set(cdp.collateral, token, amount))])
  }

  function Touched(p: Pool, borrower: Address, now: nat): Pool {
    if borrower in p.cdps then p.(cdps := p.cdps[borrower := p.cdps[borrower].(lastUpdate := now)]) else p
  }

  function AddCollateral(p: Pool, e: Env, borrower: Address, token: Address, amount: int): Result<(Pool, ())> {
    var _ :- Need(amount > 0, NotPositive);
    var _ :- Need(CollateralFactor(p, token) != 0, CollateralNotFound);
    var p1 :- Receive(p, token, amount);
    var total :- Plus(CollateralOf(p, borrower, token), amount);
    Ok((Touched(WithCollateral(p1, borrower, token, total, e.now), borrower, e.now), ()))
  }

  /** The two tests a debtor must pass; `reduced` is the store with the collateral already lowered. */
  function RemovalAllowed(p: Pool, reduced: Pool, e: Env, borrower: Address): Result<()> {
    if borrower !in p.cdps || p.cdps[borrower].dTokens <= 0 then Ok(())
    else
      var cdp := p.cdps[borrower];
      var limit :- BorrowLimit(reduced, e, borrower);
      if cdp.debtAsset.None? then Ok(())
      else
        var debt :- DebtValue(p, e, cdp);
        var _ :- Need(debt <= limit, InsufficientBorrowLimit);
        var health :- HealthFactor(p, e, borrower);
        var _ :- Need(health >= MIN_HEALTH_FACTOR, HealthFactorTooLow);
        Ok(())
  }

  function RemoveCollateral(p: Pool, e: Env, borrower: Address, token: Address, amount: int): Result<(Pool, ())> {
    var _ :- Need(amount > 0, NotPositive);
    var current := CollateralOf(p, borrower, token);
    var _ :- Need(current >= amount, InsufficientCollateral);
    var left :- Minus(current, amount);
    var reduced := WithCollateral(p, borrower, token, left, e.now);
    var _ :- RemovalAllowed(p, reduced, e, borrower);
    var sent :- Send(Touched(reduced, borrower, e.now), token, amount);
    Ok((sent, ()))
  }

  // ---- Liquidation ----

  /** (lot, bid) modifiers: the lot grows for 200 blocks, then the bid shrinks for 200. */
  function AuctionModifiers(blocks: int): (int, int)
    requires blocks >= 0
  {
    if blocks <= AUCTION_DURATION_BLOCKS then
      (blocks * SCALAR_12 / AUCTION_DURATION_BLOCKS, SCALAR_12)
    else
      (SCALAR_12, Max(SCALAR_12 - (blocks - AUCTION_DURATION_BLOCKS) * SCALAR_12 / AUCTION_DURATION_BLOCKS, 0))
  }

  function Premium(collateralFactor: U32): Result<int> {
    var product :- MulScalar7(collateralFactor, SCALAR_7);
    var gap :- CheckedSub(SCALAR_7, product);
    var half :- CheckedDiv(gap, 2);
    CheckedAdd(half, SCALAR_7)
  }

  /** The collateral put up for auction. */
  function LotAmount(collateral: int, collateralValue: int, debtValue: int, premium: int, percent: int): Result<int> {
    var scaled :- CheckedMul(premium, percent);
    var numerator :- CheckedMul(scaled, debtValue);
    var denominator :- CheckedMul(collateralValue, SCALAR_7);
    var share :- MulDivFloor(numerator, 1, denominator);
    MulScalar7(collateral, Min(share, SCALAR_7))
  }

  function InitiateLiquidation(p: Pool, e: Env, borrower: Address, token: Address, asset: Symbol,
      percent: U32): Result<(Pool, int)> {
    var _ :- Need(borrower in p.cdps && p.cdps[borrower].debtAsset == Some(asset), CDPNotInsolvent);
    var health :- HealthFactor(p, e, borrower);
    var _ :- Need(health < SCALAR_7, CDPNotInsolvent);
    var collateral := CollateralOf(p, borrower, token);
    var _ :- Need(collateral != 0, InsufficientCollateral);
    var owed :- FromDToken(CDPOrNew(p, borrower, e.now).dTokens, ReserveOf(p, asset, e.now).dRate);
    var bid :- MulScalar7(owed, percent);
    var premium :- Premium(CollateralFactor(p, token));
    var collateralQuote :- QuoteFor(e.collateralQuotes, token);
    var collateralValue :- UsdValue(collateral, collateralQuote);
    var debtQuote :- QuoteFor(e.assetQuotes, asset);
    var debtValue :- UsdValue(owed, debtQuote);
    var lot :- LotAmount(collateral, collateralValue, debtValue, premium, percent);
    var id := AuctionId(e, LIQUIDATION_ID_OFFSET);
    var debtToken :- TokenOf(p, asset);
    var auction := Auction(UserLiquidation, borrower, Set([], debtToken, bid), Set([], token, lot), e.sequence);
    Ok((p.(auctions := p.auctions[id := auction]), id))
  }

  /** What a fill at `blocks` moves: collateral to liquidator and treasury together, and debt paid. */
  function FillAmounts(auction: Auction, blocks: int): Result<(int, int)>
    requires blocks >= 0 && auction.lot != [] && auction.bid != []
  {
    var modifiers := AuctionModifiers(blocks);
    var received :- MulDivFloor(auction.lot[0].value, modifiers.0, SCALAR_12);
    var paid :- MulDivFloor(auction.bid[0].value, modifiers.1, SCALAR_12);
    Ok((received, paid))
  }

  /** Debt tokens in from the liquidator; collateral out to the liquidator, less the treasury's fee.  The
      answer is (sent to the liquidator, sent to the treasury). */
  function FillTransfers(p: Pool, token: Address, debtToken: Address, received: int, paid: int)
    : Result<(Pool, (int, int))>
  {
    var p1 :- Receive(p, debtToken, paid);
    var fee :- MulScalar7Ceil(received, p.liquidationFeeRate);
    var toLiquidator :- CheckedSub(received, fee);
    var p2 :- Send(p1, token, toLiquidator);
    var p3 :- if fee > 0 then Send(p2, token, fee) else Ok(p2);
    Ok((p3, (toLiquidator, fee)))
  }

  /** The borrower's CDP and dTokens, and the pool balance, after a fill. */
  function FillBooks(p: Pool, e: Env, borrower: Address, token: Address, received: int, paid: int): Result<Pool> {
    var _ :- Need(borrower in p.cdps, CDPNotInsolvent);
    var cdp := p.cdps[borrower];
    var _ :- Need(cdp.debtAsset.Some?, DebtAssetNotSet);
    var asset := cdp.debtAsset.value;
    var burnt :- ToDTokenDown(paid, ReserveOf(p, asset, e.now).dRate);
    var cdp' :- WithLessDebt(cdp, burnt, e.now);
    var left :- Minus(GetOr(cdp.collateral, token, 0), received);
    var held :- Minus(Holding(p.dTokens, borrower, asset), burnt);
    var balance :- Plus(BalanceOf(p, asset), paid);
    Ok(p.(cdps := p.cdps[borrower := cdp'.(collateral := Set(cdp.collateral, token, left))],
          dTokens := p.dTokens[UserAsset(borrower, asset) := held],
          poolBalance := p.poolBalance[asset := balance]))
  }

  function FillAuction(p: Pool, e: Env, id: int): Result<(Pool, (int, int))> {
    var _ :- Need(id in p.auctions, AuctionNotFound);
    var auction := p.auctions[id];
    var _ :- Need(auction.auctionType == UserLiquidation, AuctionNotActive);
    var _ :- Need(e.sequence >= auction.block, Trap);
    var _ :- Need(auction.lot != [] && auction.bid != [], AuctionNotActive);
    var token, debtToken := auction.lot[0].key, auction.bid[0].key;
    var _ :- Need(token >= 0 && debtToken >= 0, Trap);
    var amounts :- FillAmounts(auction, e.sequence - auction.block);
    var moved :- FillTransfers(p, token, debtToken, amounts.0, amounts.1);
    var p2 :- FillBooks(moved.0, e, auction.user, token, amounts.0, amounts.1);
    var health :- HealthFactor(p2, e, auction.user);
    var _ :- Need(health <= MAX_HEALTH_FACTOR, HealthFactorTooHigh);
    Ok((p2.(auctions := p2.auctions - {id}), moved.1))
  }

  // ---- Interest auctions ----

  function CreateInterestAuction(p: Pool, e: Env, contract: Address, asset: Symbol): Result<(Pool, int)> {
    var credit := ReserveOf(p, asset, e.now).backstopCredit;
    var _ :- Need(credit >= MIN_INTEREST_AUCTION, AuctionNotActive);
    var token :- TokenOf(p, asset);
    var id := AuctionId(e, INTEREST_ID_OFFSET);
    var auction := Auction(AuctionType.Interest, contract, [], Set([], token, credit), e.sequence);
    Ok((p.(auctions := p.auctions[id := auction]), id))
  }

  /** The share of the price still asked for after `blocks`. */
  function InterestBidModifier(blocks: int): int
    requires blocks >= 0
  {
    if blocks >= AUCTION_DURATION_BLOCKS then 0
    else SCALAR_12 - blocks * SCALAR_12 / AUCTION_DURATION_BLOCKS
  }

  /** The pool side of handing `interest` to the bidder. */
  function PayInterest(p: Pool, e: Env, asset: Symbol, token: Address, interest: int): Result<Pool> {
    if interest <= 0 then Ok(p)
    else
      var _ :- Need(BalanceOf(p, asset) >= interest, InsufficientPoolBalance);
      var balance :- Minus(BalanceOf(p, asset), interest);
      var p1 :- Send(p, token, interest);
      var r := ReserveOf(p, asset, e.now);
      Ok(p1.(poolBalance := p.poolBalance[asset := balance],
             reserves := p.reserves[asset := r.(backstopCredit := SaturatingSub(r.backstopCredit, interest))]))
  }

  /** The answer is (interest paid out, backstop tokens asked for). */
  function FillInterestAuction(p: Pool, e: Env, id: int, asset: Symbol, fillPercent: int): Result<(Pool, (int, int))> {
    var _ :- Need(0 < fillPercent <= SCALAR_7, InvalidFillPercent);
    var _ :- Need(id in p.auctions, AuctionNotFound);
    var auction := p.auctions[id];
    var _ :- Need(auction.auctionType == AuctionType.Interest, AuctionNotActive);
    var _ :- Need(e.sequence >= auction.block, Trap);
    var token :- TokenOf(p, asset);
    var lot := GetOr(auction.lot, token, 0);
    var _ :- Need(lot != 0, AuctionNotActive);
    var portion :- MulScalar7(lot, fillPercent);
    var interest :- MulDivFloor(portion, SCALAR_12, SCALAR_12);
    var asked :- MulDivFloor(interest, InterestBidModifier(e.sequence - auction.block), SCALAR_12);
    var p1 :- PayInterest(p, e, asset, token, interest);
    var remaining := SaturatingSub(lot, interest);
    var auctions := if remaining <= 0 then p.auctions - {id}
                    else p.auctions[id := auction.(lot := Set(auction.lot, token, remaining))];
    Ok((p1.(auctions := auctions), (interest, asked)))
  }

  // ---- Administration ----

  function AccrueOnly(p: Pool, e: Env, asset: Symbol): Result<(Pool, ())> {
    var before := ReserveOf(p, asset, e.now);
    var r :- AccruedReserve(p, e, asset);
    // nothing is saved when no time has passed
    Ok((if e.now <= before.lastTime then p else p.(reserves := p.reserves[asset := r]), ()))
  }

  function CollectTreasuryFees(p: Pool, e: Env, asset: Symbol): Result<(Pool, int)> {
    var r := ReserveOf(p, asset, e.now);
    var amount := r.treasuryCredit;
    var _ :- Need(amount != 0, NoTreasuryFeesToCollect);
    var _ :- Need(BalanceOf(p, asset) >= amount, InsufficientPoolBalance);
    var token :- TokenOf(p, asset);
    var p1 :- Send(p, token, amount);
    var balance :- Minus(BalanceOf(p, asset), amount);
    Ok((p1.(poolBalance := p.poolBalance[asset := balance],
            reserves := p.reserves[asset := r.(treasuryCredit := 0)]),
        amount))
  }

  function QueueReserveParams(p: Pool, e: Env, asset: Symbol, ps: InterestRateParams): Result<(Pool, ())> {
    var _ :- Need(asset !in p.queued, ConfigAlreadyQueued);
    var _ :- Need(ps.targetUtil <= 9_500_000, InvalidInterestRateParams);
    var _ :- Need(ps.maxUtil > ps.targetUtil && ps.maxUtil <= SCALAR_7, InvalidInterestRateParams);
    var unlock := if p.state == OnIce then e.now else e.now + CONFIG_DELAY_SECONDS;
    Ok((p.(queued := p.queued[asset := QueuedReserveConfig(ps, unlock)]), ()))
  }

  function ApplyQueuedParams(p: Pool, e: Env, asset: Symbol): Result<(Pool, ())> {
    var _ :- Need(asset in p.queued, ConfigQueueNotFound);
    var _ :- Need(p.queued[asset].unlockTime <= e.now, ConfigNotUnlocked);
    Ok((p.(queued := p.queued - {asset}, params := p.params[asset := p.queued[asset].newParams]), ()))
  }

  function DropQueuedParams(p: Pool, asset: Symbol): Pool {
    p.(queued := p.queued - {asset})
  }

  function SetBackstopTakeRate(p: Pool, rate: U32): Result<(Pool, ())> {
    var _ :- Need(rate <= SCALAR_7, InvalidInterestRateParams);
    Ok((p.(takeRate := rate), ()))
  }

  function SetReserveFactor(p: Pool, factor: U32): Result<(Pool, ())> {
    var _ :- Need(factor + p.takeRate <= SCALAR_7, InvalidInterestRateParams);
    Ok((p.(reserveFactor := factor), ()))
  }

  function SetOriginationFeeRate(p: Pool, rate: U32): Result<(Pool, ())> {
    var _ :- Need(rate <= SCALAR_7, InvalidInterestRateParams);
    Ok((p.(originationFeeRate := rate), ()))
  }

  function SetLiquidationFeeRate(p: Pool, rate: U32): Result<(Pool, ())> {
    var _ :- Need(rate <= SCALAR_7, InvalidInterestRateParams);
    Ok((p.(liquidationFeeRate := rate), ()))
  }

  function SetCollateralFactor(p: Pool, token: Address, factor: U32): Result<(Pool, ())> {
    var _ :- Need(factor <= SCALAR_7, InvalidCollateralFactor);
    Ok((p.(collateralFactor := p.collateralFactor[token := factor]), ()))
  }

  /** Ordinals from 2 up mean Frozen. */
  function StateFromOrdinal(ordinal: nat): PoolState {
    if ordinal == 0 then Active else if ordinal == 1 then OnIce else Frozen
  }

  /** Only the registered backstop may push a state. */
  function UpdatePoolStateFromBackstop(p: Pool, caller: Address, ordinal: nat): Result<(Pool, ())> {
    var _ :- Need(p.backstopContract == Some(caller), NotAuthorized);
    Ok((p.(state := StateFromOrdinal(ordinal)), ()))
  }

  // ---- Runs ----

  /** One transaction, or the expiry of a temporary entry. */
  datatype Step =
    | DepositStep(user: Address, asset: Symbol, amount: int)
    | WithdrawStep(user: Address, asset: Symbol, amount: int)
    | BorrowStep(user: Address, asset: Symbol, amount: int)
    | RepayStep(user: Address, asset: Symbol, amount: int)
    | AddCollateralStep(user: Address, token: Address, amount: int)
    | RemoveCollateralStep(user: Address, token: Address, amount: int)
    | InitiateLiquidationStep(user: Address, token: Address, asset: Symbol, percent: U32)
    | FillAuctionStep(id: int)
    | CreateInterestAuctionStep(contract: Address, asset: Symbol)
    | FillInterestAuctionStep(id: int, asset: Symbol, fillPercent: int)
    | AccrueStep(asset: Symbol)
    | CollectTreasuryStep(asset: Symbol)
    | QueueParamsStep(asset: Symbol, params: InterestRateParams)
    | ApplyParamsStep(asset: Symbol)
    | DropParamsStep(asset: Symbol)
    | SetTakeRateStep(rate: U32)
    | SetReserveFactorStep(rate: U32)
    | SetOriginationFeeStep(rate: U32)
    | SetLiquidationFeeStep(rate: U32)
    | SetCollateralFactorStep(token: Address, factor: U32)
    | SetPoolStateStep(state: PoolState)
    | BackstopPushStep(caller: Address, ordinal: nat)
    | DropAuctionStep(id: int)

  predicate LedgerStep(step: Step) {
    step.DepositStep? || step.WithdrawStep? || step.BorrowStep? || step.RepayStep?
      || step.AddCollateralStep? || step.RemoveCollateralStep?
  }

  predicate AuctionStep(step: Step) {
    step.InitiateLiquidationStep? || step.FillAuctionStep? || step.CreateInterestAuctionStep?
      || step.FillInterestAuctionStep? || step.AccrueStep? || step.CollectTreasuryStep? || step.DropAuctionStep?
  }

  predicate QueueStep(step: Step) {
    step.QueueParamsStep? || step.ApplyParamsStep? || step.DropParamsStep?
  }

  function LedgerNext(p: Pool, e: Env, step: Step): Pool
    requires LedgerStep(step)
  {
    match step
    case DepositStep(u, a, x) => Settle(p, Deposit(p, e, u, a, x)).0
    case WithdrawStep(u, a, x) => Settle(p, Withdraw(p, e, u, a, x)).0
    case BorrowStep(u, a, x) => Settle(p, Borrow(p, e, u, a, x)).0
    case RepayStep(u, a, x) => Settle(p, Repay(p, e, u, a, x)).0
    case AddCollateralStep(u, t, x) => Settle(p, AddCollateral(p, e, u, t, x)).0
    case RemoveCollateralStep(u, t, x) => Settle(p, RemoveCollateral(p, e, u, t, x)).0
  }

  function AuctionNext(p: Pool, e: Env, step: Step): Pool
    requires AuctionStep(step)
  {
    match step
    case InitiateLiquidationStep(u, t, a, percent) => Settle(p, InitiateLiquidation(p, e, u, t, a, percent)).0
    case FillAuctionStep(id) => Settle(p, FillAuction(p, e, id)).0
    case CreateInterestAuctionStep(c, a) => Settle(p, CreateInterestAuction(p, e, c, a)).0
    case FillInterestAuctionStep(id, a, percent) => Settle(p, FillInterestAuction(p, e, id, a, percent)).0
    case AccrueStep(a) => Settle(p, AccrueOnly(p, e, a)).0
    case CollectTreasuryStep(a) => Settle(p, CollectTreasuryFees(p, e, a)).0
    case DropAuctionStep(id) => p.(auctions := p.auctions - {id})
  }

  function QueueNext(p: Pool, e: Env, step: Step): Pool
    requires QueueStep(step)
  {
    match step
    case QueueParamsStep(a, ps) => Settle(p, QueueReserveParams(p, e, a, ps)).0
    case ApplyParamsStep(a) => Settle(p, ApplyQueuedParams(p, e, a)).0
    case DropParamsStep(a) => DropQueuedParams(p, a)
  }

  function SettingNext(p: Pool, step: Step): Pool
    requires !LedgerStep(step) && !AuctionStep(step) && !QueueStep(step)
  {
    match step
    case SetTakeRateStep(rate) => Settle(p, SetBackstopTakeRate(p, rate)).0
    case SetReserveFactorStep(rate) => Settle(p, SetReserveFactor(p, rate)).0
    case SetOriginationFeeStep(rate) => Settle(p, SetOriginationFeeRate(p, rate)).0
    case SetLiquidationFeeStep(rate) => Settle(p, SetLiquidationFeeRate(p, rate)).0
    case SetCollateralFactorStep(t, f) => Settle(p, SetCollateralFactor(p, t, f)).0
    case SetPoolStateStep(s) => p.(state := s)
    case BackstopPushStep(c, ordinal) => Settle(p, UpdatePoolStateFromBackstop(p, c, ordinal)).0
  }

  /** The store after one step; a failed step leaves it as it was. */
  function Next(p: Pool, e: Env, step: Step): Pool {
    if LedgerStep(step) then LedgerNext(p, e, step)
    else if AuctionStep(step) then AuctionNext(p, e, step)
    else if QueueStep(step) then QueueNext(p, e, step)
    else SettingNext(p, step)
  }

  datatype Event = Event(env: Env, step: Step)

  function Run(p: Pool, events: seq<Event>): Pool {
    if events == [] then p
    else
      var last := events[|events| - 1];
      Next(Run(p, events[..|events| - 1]), last.env, last.step)
  }
}
