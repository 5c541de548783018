/** Liquidation auctions: what is put up, what waiting does, what a fill leaves. */
module LiquidationFacts {
  import opened Outcomes
  import opened FixedPoint
  import opened Tables
  import opened PoolTypes
  import opened PoolStore
  import opened Valuation
  import opened PoolOperations
  import opened PoolInvariants
  import opened PoolSteps
  import BorrowSafety

  /** Only an unhealthy CDP is put up; its lot stays within the collateral and, valued, within the
      premium (between 1.0 and 1.5) times the liquidated share of the debt. */
  lemma InitiatedLotIsFair(p: Pool, e: Env, user: Address, token: Address, asset: Symbol, percent: U32)
    returns (collateral: int, collateralValue: int, debtValue: int, premium: int)
    requires PoolInv(p) && InitiateLiquidation(p, e, user, token, asset, percent).Ok?
    ensures var (p', id) := InitiateLiquidation(p, e, user, token, asset, percent).value;
            && HealthFactor(p, e, user).Ok? && HealthFactor(p, e, user).value < SCALAR_7
            && collateral == CollateralOf(p, user, token) && token in e.collateralQuotes
            && UsdValue(collateral, e.collateralQuotes[token]) == Ok(collateralValue)
            && DebtValue(p, e, CDPOrNew(p, user, e.now)) == Ok(debtValue)
            && SCALAR_7 <= premium <= SCALAR_7 + SCALAR_7 / 2
            && id in p'.auctions && |p'.auctions[id].lot| == 1 && p'.auctions[id].lot[0].key == token
            && var lot := p'.auctions[id].lot[0].value;
            && 0 <= lot <= collateral
            && lot * SCALAR_7 * (collateralValue * SCALAR_7) <= collateral * (premium * percent * debtValue)
  {
    hide InitiateLiquidation, HealthFactor, UsdValue, LotAmount, FromDToken, MulScalar7;
    var auction, owed;
    auction, collateral, collateralValue, owed, debtValue, premium := InitiateEffect(p, e, user, token, asset, percent);
    assert AssetInv(p, asset) && DebtorInv(p, user);
    hide PoolInv;
    BidNonNegative(p.cdps[user].dTokens, ReserveOf(p, asset, e.now).dRate, percent);
    LotValue(collateral, collateralValue, debtValue, premium, percent);
    PositiveValue(collateral, e.collateralQuotes[token]);
    ValueNonNegative(owed, e.assetQuotes[asset]);
    PremiumWithin(p, token);
    LotBounds(collateral, collateralValue, debtValue, premium, percent);
    InitiateQuotes(p, e, user, token, asset, percent);
  }

  /** What a liquidation puts up and asks for, in closed form: of the debt at the stored rate the
      percentage asked for, and of the collateral the share whose value is the premium on that part of
      the debt, but at most all of it; the premium is half of what the collateral factor leaves of 1.0. */
  lemma InitiatedAuctionIs(p: Pool, e: Env, user: Address, token: Address, asset: Symbol, percent: U32)
    returns (collateralValue: int, debtValue: int)
    requires PoolInv(p) && InitiateLiquidation(p, e, user, token, asset, percent).Ok?
    ensures user in p.cdps && asset in p.tokenContract && token in e.collateralQuotes && collateralValue > 0
    ensures UsdValue(CollateralOf(p, user, token), e.collateralQuotes[token]) == Ok(collateralValue)
    ensures DebtValue(p, e, CDPOrNew(p, user, e.now)) == Ok(debtValue)
    ensures var owed := CeilDiv(p.cdps[user].dTokens * ReserveOf(p, asset, 0).dRate, SCALAR_12);
            var premium := 10_000_000 + (10_000_000 - CollateralFactor(p, token)) / 2;
            var share := FloorDiv(premium * percent * debtValue, collateralValue * 10_000_000);
            var lot := FloorDiv(CollateralOf(p, user, token) * Min(share, 10_000_000), 10_000_000);
            var (p', id) := InitiateLiquidation(p, e, user, token, asset, percent).value;
            && id in p'.auctions
            && p'.auctions[id] == Auction(UserLiquidation, user,
                 [Entry(p.tokenContract[asset], FloorDiv(owed * percent, 10_000_000))], [Entry(token, lot)], e.sequence)
  {
    hide InitiateLiquidation, HealthFactor, UsdValue, LotAmount, FromDToken, MulScalar7, Premium, PoolInv, FloorDiv,
      CeilDiv, CollateralOf, CollateralFactor, ReserveOf;
    var auction, collateral, owed, premium;
    auction, collateral, collateralValue, owed, debtValue, premium := InitiateEffect(p, e, user, token, asset, percent);
    FactorBounded(p, token);
    PremiumRange(CollateralFactor(p, token));
    LotValue(collateral, collateralValue, debtValue, premium, percent);
    InitiateQuotes(p, e, user, token, asset, percent);
    RateIgnoresClock(p, asset, e.now);
    Unfolded(p.cdps[user].dTokens, ReserveOf(p, asset, 0).dRate, owed, percent);
    assert premium * percent * debtValue * 1 == premium * percent * debtValue;
    DebtOfCDP(p, e, user, asset, owed, debtValue);
  }

  lemma FactorBounded(p: Pool, token: Address)
    requires PoolInv(p)
    ensures CollateralFactor(p, token) <= SCALAR_7
  {
  }

  lemma Unfolded(dTokens: int, dRate: int, owed: int, percent: U32)
    requires FromDToken(dTokens, dRate) == Ok(owed) && MulScalar7(owed, percent).Ok?
    ensures owed == CeilDiv(dTokens * dRate, SCALAR_12)
    ensures MulScalar7(owed, percent).value == FloorDiv(owed * percent, SCALAR_7)
  {
  }

  lemma DebtOfCDP(p: Pool, e: Env, user: Address, asset: Symbol, owed: int, debtValue: int)
    requires PoolInv(p) && user in p.cdps && p.cdps[user].debtAsset == Some(asset)
    requires FromDToken(p.cdps[user].dTokens, ReserveOf(p, asset, e.now).dRate) == Ok(owed)
    requires asset in e.assetQuotes && e.assetQuotes[asset].price > 0
    requires UsdValue(owed, e.assetQuotes[asset]) == Ok(debtValue)
    ensures DebtValue(p, e, CDPOrNew(p, user, e.now)) == Ok(debtValue)
  {
    assert DebtorInv(p, user);
    hide PoolInv, UsdValue, FromDToken;
  }

  lemma PremiumWithin(p: Pool, token: Address)
    requires Premium(CollateralFactor(p, token)).Ok?
    ensures PoolInv(p) ==> SCALAR_7 <= Premium(CollateralFactor(p, token)).value <= SCALAR_7 + SCALAR_7 / 2
  {
    if PoolInv(p) {
      PremiumRange(CollateralFactor(p, token));
    }
  }

  lemma InitiateQuotes(p: Pool, e: Env, user: Address, token: Address, asset: Symbol, percent: U32)
    requires InitiateLiquidation(p, e, user, token, asset, percent).Ok?
    ensures asset in e.assetQuotes && e.assetQuotes[asset].price > 0
  {
    hide HealthFactor, UsdValue, LotAmount, FromDToken, MulScalar7, Premium, TokenOf;
  }

  lemma ModifiersOverTime(early: int, late: int)
    requires 0 <= early <= late
    ensures AuctionModifiers(early).0 <= AuctionModifiers(late).0
    ensures AuctionModifiers(early).1 >= AuctionModifiers(late).1
  {
  }

  /** The lot reaches all of it, and the bid nothing, after one and two auction durations. */
  lemma ModifierEnds()
    ensures AuctionModifiers(0) == (0, SCALAR_12)
    ensures AuctionModifiers(AUCTION_DURATION_BLOCKS) == (SCALAR_12, SCALAR_12)
    ensures AuctionModifiers(2 * AUCTION_DURATION_BLOCKS) == (SCALAR_12, 0)
  {
  }

  /** Waiting longer never lowers what the liquidator receives nor raises what it pays. */
  lemma WaitingNeverHurts(p: Pool, id: int, early: int, late: int)
    requires PoolInv(p) && id in p.auctions && p.auctions[id].auctionType == UserLiquidation
    requires p.auctions[id].lot != [] && p.auctions[id].bid != [] && 0 <= early <= late
    requires FillAmounts(p.auctions[id], early).Ok? && FillAmounts(p.auctions[id], late).Ok?
    ensures FillAmounts(p.auctions[id], early).value.0 <= FillAmounts(p.auctions[id], late).value.0
    ensures FillAmounts(p.auctions[id], early).value.1 >= FillAmounts(p.auctions[id], late).value.1
  {
    assert AuctionInv(p, id);
    var lot, bid := p.auctions[id].lot[0].value, p.auctions[id].bid[0].value;
    ModifiersOverTime(early, late);
    MulMono(AuctionModifiers(early).0, AuctionModifiers(late).0, lot);
    MulMono(AuctionModifiers(late).1, AuctionModifiers(early).1, bid);
    FloorMono(lot * AuctionModifiers(early).0, lot * AuctionModifiers(late).0, SCALAR_12);
    FloorMono(bid * AuctionModifiers(late).1, bid * AuctionModifiers(early).1, SCALAR_12);
  }

  /** The health factor reads only collateral factors, CDPs, reserves and parameters. */
  lemma HealthFrame(p: Pool, q: Pool, e: Env, user: Address)
    requires p.collateralFactor == q.collateralFactor && p.cdps == q.cdps
    requires p.reserves == q.reserves && p.params == q.params
    ensures HealthFactor(p, e, user) == HealthFactor(q, e, user)
  {
    if user in p.cdps {
      BorrowSafety.CollateralValueFrame(p, q, e, p.cdps[user].collateral);
      hide CollateralValue, UsdValue, FromDToken, QuoteFor, EffectiveDebt, MulDivFloor;
      assert DebtValue(p, e, p.cdps[user]) == DebtValue(q, e, p.cdps[user]);
    }
  }

  /** Every successful fill leaves debt and a health factor of at most 1.15, burns no more debt
      than was paid for, moves lot and bid as the clock says, and closes the auction. */
  lemma FillLeavesDebt(p: Pool, e: Env, id: int) returns (asset: Symbol, received: int, paid: int, burnt: int)
    requires PoolInv(p) && FillAuction(p, e, id).Ok?
    ensures var p' := FillAuction(p, e, id).value.0;
            && id in p.auctions && id !in p'.auctions
            && var user := p.auctions[id].user;
            && user in p.cdps && user in p'.cdps
            && p'.cdps[user].debtAsset == p.cdps[user].debtAsset == Some(asset)
            && p'.cdps[user].dTokens == p.cdps[user].dTokens - burnt > 0
            && HealthFactor(p', e, user).Ok? && HealthFactor(p', e, user).value <= MAX_HEALTH_FACTOR
            && p.auctions[id].lot != [] && p.auctions[id].bid != [] && e.sequence >= p.auctions[id].block
            && FillAmounts(p.auctions[id], e.sequence - p.auctions[id].block) == Ok((received, paid))
            && 0 <= received <= p.auctions[id].lot[0].value && 0 <= paid <= p.auctions[id].bid[0].value
            && burnt >= 0 && burnt * ReserveOf(p, asset, 0).dRate <= paid * SCALAR_12
            && BalanceOf(p', asset) == BalanceOf(p, asset) + paid
  {
    hide FillAuction, HealthFactor, FillAmounts, PoolInv, LedgerInv;
    PoolIsLedger(p);
    var token, debtToken, books;
    token, debtToken, asset, received, paid, burnt, books := FillEffect(p, e, id);
    HealthFrame(books, FillAuction(p, e, id).value.0, e, p.auctions[id].user);
    FillAmountsRange(p, id, e.sequence - p.auctions[id].block);
  }

  // ---- What a fill moves, by the clock ----

  /** Scaling by a number of whole steps and dividing by 1.0 is dividing by the steps. */
  lemma InSteps(amount: int, steps: int)
    ensures FloorDiv(amount * (steps * 5_000_000_000), SCALAR_12) == FloorDiv(amount * steps, 200)
  {
    var x := amount * steps;
    assert amount * (steps * 5_000_000_000) == x * 5_000_000_000;
    var q := FloorDiv(x, 200);
    FloorIsGreatest(x * 5_000_000_000, SCALAR_12, q);
    MulCancelLess(FloorDiv(x * 5_000_000_000, SCALAR_12), q + 1, SCALAR_12);
  }

  lemma ModifierSteps(blocks: int)
    requires blocks >= 0
    ensures AuctionModifiers(blocks)
         == (Min(blocks, 200) * 5_000_000_000, Max(0, Min(200, 400 - blocks)) * 5_000_000_000)
  {
  }

  lemma FillAmountsAre(auction: Auction, blocks: int)
    requires blocks >= 0 && auction.lot != [] && auction.bid != [] && FillAmounts(auction, blocks).Ok?
    ensures FillAmounts(auction, blocks).value
         == (FloorDiv(auction.lot[0].value * Min(blocks, 200), 200),
             FloorDiv(auction.bid[0].value * Max(0, Min(200, 400 - blocks)), 200))
  {
    hide AuctionModifiers, FloorDiv;
    ModifierSteps(blocks);
    InSteps(auction.lot[0].value, Min(blocks, 200));
    InSteps(auction.bid[0].value, Max(0, Min(200, 400 - blocks)));
  }

  /** `b` blocks after its start a fill takes `b` two-hundredths of the lot from the borrower, all of it
      from block 200 on, and brings the pool the bid, from block 200 on less one two-hundredth a block
      and from block 400 on nothing; every other position and balance stays.  The debt falls by what was
      paid, rounded down, and the treasury's part of the collateral is its rate, rounded up. */
  lemma FillFollowsTheClock(p: Pool, e: Env, id: int) returns (asset: Symbol)
    requires PoolInv(p) && FillAuction(p, e, id).Ok?
    ensures id in p.auctions && p.auctions[id].lot != [] && p.auctions[id].bid != []
    ensures p.auctions[id].user in p.cdps && p.cdps[p.auctions[id].user].debtAsset == Some(asset)
    ensures p.auctions[id].user in FillAuction(p, e, id).value.0.cdps
    ensures var p', auction := FillAuction(p, e, id).value.0, p.auctions[id];
            var blocks, token := e.sequence - auction.block, auction.lot[0].key;
            var received := FloorDiv(auction.lot[0].value * Min(blocks, 200), 200);
            var paid := FloorDiv(auction.bid[0].value * Max(0, Min(200, 400 - blocks)), 200);
            && blocks >= 0
            && (forall u: Address, t: Address :: CollateralOf(p', u, t)
                  == CollateralOf(p, u, t) - if u == auction.user && t == token then received else 0)
            && (forall a: Symbol :: BalanceOf(p', a) == BalanceOf(p, a) + if a == asset then paid else 0)
            && ReserveOf(p, asset, 0).dRate > 0
            && p'.cdps[auction.user].dTokens
                 == p.cdps[auction.user].dTokens - FloorDiv(paid * SCALAR_12, ReserveOf(p, asset, 0).dRate)
            && var (toLiquidator, fee) := FillAuction(p, e, id).value.1;
            && fee == CeilDiv(received * p.liquidationFeeRate, SCALAR_7) && toLiquidator == received - fee >= 0
  {
    hide FillAuction, HealthFactor, FillAmounts, PoolInv, LedgerInv, FloorDiv, Set, Get;
    PoolIsLedger(p);
    var token, debtToken, received, paid, burnt, books;
    token, debtToken, asset, received, paid, burnt, books := FillEffect(p, e, id);
    FillAmountsAre(p.auctions[id], e.sequence - p.auctions[id].block);
    var p', user := FillAuction(p, e, id).value.0, p.auctions[id].user;
    SortedOf(p, user);
    forall u: Address, t: Address
      ensures CollateralOf(p', u, t) == CollateralOf(p, u, t) - if u == user && t == token then received else 0
    {
      var before := p.cdps[user].collateral;
      GetSet(before, token, GetOr(before, token, 0) - received, t);
    }
  }

  lemma SortedOf(p: Pool, user: Address)
    requires LedgerInv(p) && user in p.cdps
    ensures Sorted(p.cdps[user].collateral)
  {
    assert DebtorInv(p, user);
  }

  // ---- Identifiers ----

  /** Two identifiers meet exactly when sequence, clock and offset add up to the same at 32 bits. */
  lemma AuctionIdsMeetIff(e: Env, e': Env, offset: int, offset': int)
    ensures AuctionId(e, offset) == AuctionId(e', offset')
       <==> (e.sequence + e.now + offset - (e'.sequence + e'.now + offset')) % TWO_TO_THE_32 == 0
  {
  }

  lemma InitiateIds(p: Pool, e: Env, user: Address, token: Address, asset: Symbol, percent: U32)
    requires InitiateLiquidation(p, e, user, token, asset, percent).Ok?
    ensures InitiateLiquidation(p, e, user, token, asset, percent).value.1 == AuctionId(e, LIQUIDATION_ID_OFFSET)
  {
    hide HealthFactor, FromDToken, UsdValue, MulScalar7, Premium, LotAmount, AuctionId;
  }

  /** Starting a liquidation keeps every open auction exactly when its identifier is not in use, or in
      use for the same auction. */
  lemma InitiateKeepsAuctionsIff(p: Pool, e: Env, user: Address, token: Address, asset: Symbol, percent: U32)
    requires InitiateLiquidation(p, e, user, token, asset, percent).Ok?
    ensures var (p', id) := InitiateLiquidation(p, e, user, token, asset, percent).value;
            && id in p'.auctions
            && ((forall i :: i in p.auctions ==> i in p'.auctions && p'.auctions[i] == p.auctions[i])
                  <==> id in p.auctions ==> p.auctions[id] == p'.auctions[id])
  {
    hide InitiateLiquidation, HealthFactor, FromDToken, UsdValue, MulScalar7, Premium, LotAmount, CollateralOf;
    var auction, collateral, collateralValue, owed, debtValue,
      premium := InitiateEffect(p, e, user, token, asset, percent);
  }

  /** Of two liquidations started in one ledger only the second remains: it takes the identifier of
      the first and its place, whomever it is of. */
  lemma SecondLiquidationReplacesFirst(p: Pool, e: Env, user: Address, token: Address, asset: Symbol, percent: U32,
      other: Address, otherToken: Address, otherAsset: Symbol, otherPercent: U32, p1: Pool, id1: int, p2: Pool,
      id2: int)
    requires InitiateLiquidation(p, e, user, token, asset, percent) == Ok((p1, id1))
    requires InitiateLiquidation(p1, e, other, otherToken, otherAsset, otherPercent) == Ok((p2, id2))
    ensures id1 == id2 && id1 in p1.auctions && p1.auctions[id1].user == user
    ensures id2 in p2.auctions && p2.auctions[id2].user == other
    ensures p2.auctions == p.auctions[id2 := p2.auctions[id2]]
  {
    hide InitiateLiquidation, HealthFactor, FromDToken, UsdValue, MulScalar7, Premium, LotAmount, CollateralOf,
      AuctionId;
    InitiateIds(p, e, user, token, asset, percent);
    InitiateIds(p1, e, other, otherToken, otherAsset, otherPercent);
    var a1, c1, v1, o1, d1, r1 := InitiateEffect(p, e, user, token, asset, percent);
    var a2, c2, v2, o2, d2, r2 := InitiateEffect(p1, e, other, otherToken, otherAsset, otherPercent);
  }
}
