/** The invariants of the lending pool and the equity that no step lowers. */
module PoolInvariants {
  import opened Outcomes
  import opened FixedPoint
  import opened Tables
  import opened Sums
  import opened PoolTypes
  import opened PoolStore
  import opened AccrualFacts
  import opened Interest

  // ---- Equity: assets minus liabilities of one reserve, at 12 extra decimals ----

  function Equity(balance: int, r: Reserve): int {
    balance * SCALAR_12 + Margin(r)
  }

  function EquityOf(p: Pool, asset: Symbol): int {
    Equity(BalanceOf(p, asset), ReserveOf(p, asset, 0))
  }

  function CreditOf(p: Pool, asset: Symbol): int {
    ReserveOf(p, asset, 0).backstopCredit
  }

  /** Liquid tokens and outstanding debt cover every bToken and the sum of the protocol credits.  A
      negative backstop credit counts in favour of the reserve here; see `LendersCovered`. */
  predicate Solvent(p: Pool, asset: Symbol) {
    var r := ReserveOf(p, asset, 0);
    BalanceOf(p, asset) * SCALAR_12 + r.dSupply * r.dRate
      >= r.bSupply * r.bRate + (r.backstopCredit + r.treasuryCredit) * SCALAR_12
  }

  /** Liquid tokens and outstanding debt cover every bToken. */
  predicate LendersCovered(p: Pool, asset: Symbol) {
    var r := ReserveOf(p, asset, 0);
    BalanceOf(p, asset) * SCALAR_12 + r.dSupply * r.dRate >= r.bSupply * r.bRate
  }

  lemma DepositEquity(balance: int, r: Reserve, amount: int, bTokens: int)
    requires bTokens * r.bRate <= amount * SCALAR_12
    ensures Equity(balance + amount, r.(bSupply := r.bSupply + bTokens)) >= Equity(balance, r)
  {
    assert (r.bSupply + bTokens) * r.bRate == r.bSupply * r.bRate + bTokens * r.bRate;
  }

  lemma BorrowEquity(balance: int, r: Reserve, amount: int, fee: int, dTokens: int)
    requires (amount + fee) * SCALAR_12 <= dTokens * r.dRate
    ensures Equity(balance - amount, r.(dSupply := r.dSupply + dTokens, treasuryCredit := r.treasuryCredit + fee))
         >= Equity(balance, r)
  {
    assert (r.dSupply + dTokens) * r.dRate == r.dSupply * r.dRate + dTokens * r.dRate;
  }

  // ---- Token sums ----

  ghost function OfAsset(asset: Symbol): (UserAsset, int) -> int {
    (key: UserAsset, amount: int) => if key.asset == asset then amount else 0
  }

  ghost function CollateralIn(token: Address): (Address, CDP) -> int {
    (user: Address, cdp: CDP) => GetOr(cdp.collateral, token, 0)
  }

  ghost function TokenSum(holdings: map<UserAsset, int>, asset: Symbol): int {
    SumBy(holdings, OfAsset(asset))
  }

  /** A write to one user's holding moves the sum of its own asset only. */
  lemma TokenSumUpdate(holdings: map<UserAsset, int>, user: Address, asset: Symbol, amount: int, other: Symbol)
    ensures TokenSum(holdings[UserAsset(user, asset) := amount], other)
         == TokenSum(holdings, other) + (if other == asset then amount - Holding(holdings, user, asset) else 0)
  {
    SumUpdate(holdings, OfAsset(other), UserAsset(user, asset), amount);
  }

  lemma TokenSumNonNegative(holdings: map<UserAsset, int>, asset: Symbol)
    requires forall k :: k in holdings ==> holdings[k] >= 0
    ensures TokenSum(holdings, asset) >= 0
  {
    SumNonNegative(holdings, OfAsset(asset));
  }

  // ---- The invariant ----

  predicate FactorsOk(p: Pool) {
    forall t :: t in p.collateralFactor ==> p.collateralFactor[t] <= SCALAR_7
  }

  /** The two shares of the interest sum to at most everything, and no fee rate exceeds 100%. */
  predicate FeesOk(p: Pool) {
    && p.takeRate + p.reserveFactor <= SCALAR_7
    && p.originationFeeRate <= SCALAR_7 && p.liquidationFeeRate <= SCALAR_7
    && FactorsOk(p)
  }

  /** Debt tokens no borrower holds: only liquidation fills leave any behind. */
  ghost function OrphanedDebt(p: Pool, asset: Symbol): int {
    ReserveOf(p, asset, 0).dSupply - TokenSum(p.dTokens, asset)
  }

  ghost predicate AssetInv(p: Pool, asset: Symbol) {
    var r := ReserveOf(p, asset, 0);
    && ReserveOk(r)
    && r.treasuryCredit >= 0
    && BalanceOf(p, asset) >= 0
    && Solvent(p, asset)
    && r.bSupply == TokenSum(p.bTokens, asset)
    && OrphanedDebt(p, asset) >= 0
  }

  /** A borrower's one debt: the CDP and the dToken ledger agree in every asset. */
  ghost predicate DebtorInv(p: Pool, user: Address) {
    && (user in p.cdps ==>
          && Sorted(p.cdps[user].collateral)
          && p.cdps[user].dTokens >= 0
          && (p.cdps[user].dTokens > 0 <==> p.cdps[user].debtAsset.Some?))
    && forall a: Symbol :: Holding(p.dTokens, user, a)
                == if user in p.cdps && p.cdps[user].debtAsset == Some(a) then p.cdps[user].dTokens else 0
  }

  /** The tokens that no reserve uses as its underlying. */
  predicate PureCollateral(p: Pool, token: Address) {
    forall a: Symbol :: a in p.tokenContract ==> p.tokenContract[a] != token
  }

  ghost predicate CustodyInv(p: Pool, token: Address) {
    PureCollateral(p, token) ==> CustodyOf(p, token) == SumBy(p.cdps, CollateralIn(token))
  }

  predicate AuctionInv(p: Pool, id: int) {
    id in p.auctions && p.auctions[id].auctionType == UserLiquidation ==>
      var auction := p.auctions[id];
      && |auction.lot| == 1 && auction.lot[0].value >= 0
      && |auction.bid| == 1 && auction.bid[0].value >= 0
      && auction.bid[0].key >= 0 && !PureCollateral(p, auction.bid[0].key)
  }

  /** What the token supplies of an asset have to do with the holdings. */
  ghost predicate LedgerAsset(p: Pool, asset: Symbol) {
    var r := ReserveOf(p, asset, 0);
    && RatesOk(r) && r.bSupply == TokenSum(p.bTokens, asset) && OrphanedDebt(p, asset) >= 0
  }

  /** The part of the invariant that reads neither the lenders' rate nor the protocol's credits. */
  ghost predicate LedgerInv(p: Pool) {
    && FactorsOk(p)
    && (forall k :: k in p.bTokens ==> p.bTokens[k] >= 0)
    && (forall k :: k in p.dTokens ==> p.dTokens[k] >= 0)
    && (forall a: Symbol :: LedgerAsset(p, a))
    && (forall u: Address :: DebtorInv(p, u))
    && (forall t: Address :: CustodyInv(p, t))
    && (forall id: int :: AuctionInv(p, id))
  }

  ghost predicate PoolInv(p: Pool) {
    && FeesOk(p)
    && (forall k :: k in p.bTokens ==> p.bTokens[k] >= 0)
    && (forall k :: k in p.dTokens ==> p.dTokens[k] >= 0)
    && (forall a: Symbol :: AssetInv(p, a))
    && (forall u: Address :: DebtorInv(p, u))
    && (forall t: Address :: CustodyInv(p, t))
    && (forall id: int :: AuctionInv(p, id))
  }

  lemma PoolIsLedger(p: Pool)
    requires PoolInv(p)
    ensures LedgerInv(p)
  {
    forall a: Symbol
      ensures LedgerAsset(p, a)
    {
      assert AssetInv(p, a);
    }
  }

  /** No supply is negative. */
  lemma SuppliesNonNegative(p: Pool, asset: Symbol)
    requires LedgerInv(p)
    ensures ReserveOf(p, asset, 0).bSupply >= 0 && ReserveOf(p, asset, 0).dSupply >= 0
  {
    assert LedgerAsset(p, asset);
    TokenSumNonNegative(p.bTokens, asset);
    TokenSumNonNegative(p.dTokens, asset);
  }

  lemma AccruedAges(p: Pool, e: Env, asset: Symbol)
    requires LedgerInv(p) && AccruedReserve(p, e, asset).Ok?
    ensures Aged(ReserveOf(p, asset, 0), AccruedReserve(p, e, asset).value)
  {
    assert LedgerAsset(p, asset);
    SuppliesNonNegative(p, asset);
    hide LedgerInv, LedgerAsset, TokenSum;
    AccrueAges(ReserveOf(p, asset, e.now), ParamsOf(p, asset), p.takeRate, p.reserveFactor, e.now);
    if asset !in p.reserves {
      assert ReserveOf(p, asset, e.now) == ReserveOf(p, asset, 0).(lastTime := e.now);
    }
  }

  /** What a step promises about one asset: equity does not fall, the debt rate does not fall,
      and the lenders' rate falls by at most one accrual's rounding. */
  predicate Progress(p: Pool, p': Pool, asset: Symbol) {
    var r, r' := ReserveOf(p, asset, 0), ReserveOf(p', asset, 0);
    && EquityOf(p', asset) >= EquityOf(p, asset)
    && r'.dRate >= r.dRate
    && (r.bRate - r'.bRate - 1) * r.bSupply < SCALAR_12
  }

  lemma SolventIsEquity(p: Pool, asset: Symbol)
    ensures Solvent(p, asset) <==> EquityOf(p, asset) >= 0
  {
  }

  lemma SmallLoss(r: Reserve, r': Reserve)
    requires r.bSupply >= 0 && r'.bRate >= r.bRate
    ensures (r.bRate - r'.bRate - 1) * r.bSupply < SCALAR_12
  {
    MulMono(r.bRate - r'.bRate - 1, 0, r.bSupply);
  }

  lemma AccruedReserveFacts(p: Pool, e: Env, asset: Symbol)
    requires FeesOk(p) && AssetInv(p, asset) && AccruedReserve(p, e, asset).Ok?
    ensures Accrued(ReserveOf(p, asset, 0), AccruedReserve(p, e, asset).value)
  {
    AccrueKeeps(ReserveOf(p, asset, e.now), ParamsOf(p, asset), p.takeRate, p.reserveFactor, e.now);
    if asset !in p.reserves {
      assert ReserveOf(p, asset, e.now) == ReserveOf(p, asset, 0).(lastTime := e.now);
    }
  }

  /** A step that changes the reserve and balance of one asset and nothing else per asset. */
  ghost predicate OnlyAsset(p: Pool, p': Pool, asset: Symbol) {
    && FeesOk(p')
    && (forall a: Symbol :: a != asset ==> ReserveOf(p', a, 0) == ReserveOf(p, a, 0))
    && (forall a: Symbol :: a != asset ==> BalanceOf(p', a) == BalanceOf(p, a))
  }

  /** The other assets need no further argument. */
  lemma OtherAssets(p: Pool, p': Pool, asset: Symbol)
    requires PoolInv(p) && LedgerInv(p')
    requires OnlyAsset(p, p', asset) && AssetInv(p', asset) && Progress(p, p', asset)
    ensures PoolInv(p') && forall a: Symbol :: Progress(p, p', a)
  {
    hide TokenSum;
    forall a: Symbol
      ensures AssetInv(p', a) && Progress(p, p', a)
    {
      if a != asset {
        assert AssetInv(p, a) && LedgerAsset(p', a);
        SmallLoss(ReserveOf(p, a, 0), ReserveOf(p', a, 0));
      }
    }
  }

  /** A step that touches no reserve, balance or holding. */
  lemma AllAssetsSame(p: Pool, p': Pool)
    requires forall a: Symbol :: AssetInv(p, a)
    requires p'.reserves == p.reserves && p'.poolBalance == p.poolBalance
    requires p'.bTokens == p.bTokens && p'.dTokens == p.dTokens
    ensures forall a: Symbol :: AssetInv(p', a) && Progress(p, p', a)
  {
    forall a: Symbol
      ensures AssetInv(p', a) && Progress(p, p', a)
    {
      assert AssetInv(p, a);
      SmallLoss(ReserveOf(p, a, 0), ReserveOf(p', a, 0));
    }
  }

  /** Custody moves only at a token that is some reserve's underlying. */
  lemma CustodyElsewhere(p: Pool, p': Pool, token: Address)
    requires forall t: Address :: CustodyInv(p, t)
    requires p'.tokenContract == p.tokenContract
    requires !PureCollateral(p, token)
    requires forall t: Address :: t != token ==> CustodyOf(p', t) == CustodyOf(p, t)
    requires forall t: Address :: SumBy(p'.cdps, CollateralIn(t)) == SumBy(p.cdps, CollateralIn(t))
    ensures forall t: Address :: CustodyInv(p', t)
  {
    forall t: Address
      ensures CustodyInv(p', t)
    {
      assert CustodyInv(p, t);
    }
  }

  /** A CDP write that keeps the collateral table keeps every collateral sum. */
  lemma SameCollateral(cdps: map<Address, CDP>, user: Address, cdp: CDP)
    requires user in cdps ==> cdp.collateral == cdps[user].collateral
    requires user !in cdps ==> cdp.collateral == []
    ensures forall t: Address :: SumBy(cdps[user := cdp], CollateralIn(t)) == SumBy(cdps, CollateralIn(t))
  {
    forall t: Address
      ensures SumBy(cdps[user := cdp], CollateralIn(t)) == SumBy(cdps, CollateralIn(t))
    {
      SumUpdate(cdps, CollateralIn(t), user, cdp);
    }
  }

  lemma SameAuctions(p: Pool, p': Pool)
    requires forall id :: AuctionInv(p, id)
    requires p'.tokenContract == p.tokenContract
    requires forall id :: id in p'.auctions ==> id in p.auctions && p'.auctions[id] == p.auctions[id]
    ensures forall id :: AuctionInv(p', id)
  {
    forall id
      ensures AuctionInv(p', id)
    {
      assert AuctionInv(p, id);
    }
  }
}
