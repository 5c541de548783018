/** Steps in the second a reserve was last accrued, while both its rates are still 1.0: one token is
    one unit.  The concrete runs are put together from these. */
module ParSteps {
  import opened Outcomes
  import opened FixedPoint
  import opened Tables
  import opened PoolTypes
  import opened PoolStore
  import opened PoolOperations
  import opened PoolSteps
  import Interest

  const LARGE: int := 1_000_000_000_000_000

  /** The pool is open, and one token of the asset is one unit until time passes. */
  predicate AtPar(p: Pool, e: Env, asset: Symbol) {
    var r := ReserveOf(p, asset, e.now);
    && p.state == Active && asset in p.tokenContract
    && (asset in p.params ==> p.params[asset].enabled && p.params[asset].supplyCap == 0)
    && r.bRate == SCALAR_12 && r.dRate == SCALAR_12 && e.now <= r.lastTime
    && 0 <= r.bSupply <= LARGE && 0 <= r.dSupply <= LARGE && 0 <= r.treasuryCredit <= LARGE
    && 0 <= BalanceOf(p, asset) <= CustodyOf(p, p.tokenContract[asset])
    && BalanceOf(p, asset) <= LARGE
  }

  lemma NothingAccrues(p: Pool, e: Env, asset: Symbol)
    requires AtPar(p, e, asset)
    ensures AccruedReserve(p, e, asset) == Ok(ReserveOf(p, asset, e.now))
  {
  }

  lemma DepositBooksAtPar(p: Pool, user: Address, asset: Symbol, amount: int, r: Reserve)
    requires asset in p.tokenContract && r.bRate == SCALAR_12 && 0 <= r.bSupply <= LARGE
    requires 0 <= BalanceOf(p, asset) <= LARGE && 0 < amount <= LARGE && 0 <= Holding(p.bTokens, user, asset) <= LARGE
    ensures var token := p.tokenContract[asset];
            DepositBooks(p, user, asset, amount, r)
              == Ok((p.(reserves := p.reserves[asset := r.(bSupply := r.bSupply + amount)],
                        poolBalance := p.poolBalance[asset := BalanceOf(p, asset) + amount],
                        bTokens := p.bTokens[UserAsset(user, asset) := Holding(p.bTokens, user, asset) + amount],
                        custody := p.custody[token := CustodyOf(p, token) + amount]), amount))
  {
    WholeTokens(amount);
    hide BalanceOf, Holding, CustodyOf;
  }

  lemma DepositAtPar(p: Pool, e: Env, user: Address, asset: Symbol, amount: int)
    requires AtPar(p, e, asset) && 0 < amount <= LARGE && 0 <= Holding(p.bTokens, user, asset) <= LARGE
    ensures var r, token := ReserveOf(p, asset, e.now), p.tokenContract[asset];
            Deposit(p, e, user, asset, amount)
              == Ok((p.(reserves := p.reserves[asset := r.(bSupply := r.bSupply + amount)],
                        poolBalance := p.poolBalance[asset := BalanceOf(p, asset) + amount],
                        bTokens := p.bTokens[UserAsset(user, asset) := Holding(p.bTokens, user, asset) + amount],
                        custody := p.custody[token := CustodyOf(p, token) + amount]), amount))
  {
    hide DepositBooks, AccruedReserve, Holding, CustodyOf, ReserveOf;
    NothingAccrues(p, e, asset);
    DepositBooksAtPar(p, user, asset, amount, ReserveOf(p, asset, e.now));
  }

  lemma AddCollateralAlways(p: Pool, e: Env, user: Address, token: Address, amount: int)
    requires CollateralFactor(p, token) != 0 && 0 < amount <= LARGE && 0 <= CollateralOf(p, user, token) <= LARGE
    ensures var cdp := CDPOrNew(p, user, e.now);
            AddCollateral(p, e, user, token, amount)
              == Ok((p.(cdps := p.cdps[user := cdp.(collateral := Set(cdp.collateral, token,
                          CollateralOf(p, user, token) + amount), lastUpdate := e.now)],
                        custody := p.custody[token := CustodyOf(p, token) + amount]), ()))
  {
    hide Set, CollateralFactor, CollateralOf, CustodyOf;
    var cdp := CDPOrNew(p, user, e.now);
    var more := cdp.(collateral := Set(cdp.collateral, token, CollateralOf(p, user, token) + amount));
    assert p.cdps[user := more][user := more.(lastUpdate := e.now)] == p.cdps[user := more.(lastUpdate := e.now)];
  }

  lemma ParUtilization(r: Reserve)
    requires r.bRate == SCALAR_12 && r.dRate == SCALAR_12 && 0 <= r.dSupply < r.bSupply <= 3 * LARGE
    ensures Interest.Utilization(r).Ok? && Interest.Utilization(r).value < SCALAR_7
  {
    WholeTokens(r.bSupply);
    WholeTokens(r.dSupply);
    assert CheckedDiv(r.bSupply * SCALAR_12, SCALAR_12) == Ok(r.bSupply);
    assert CheckedDiv(r.dSupply * SCALAR_12, SCALAR_12) == Ok(r.dSupply);
    FloorNonNegative(r.dSupply * SCALAR_7, r.bSupply);
    MulCancelLess(FloorDiv(r.dSupply * SCALAR_7, r.bSupply), SCALAR_7, r.bSupply);
  }

  lemma MintAtPar(p: Pool, amount: int, fee: int, r: Reserve)
    requires r.dRate == SCALAR_12 && 0 <= r.dSupply <= LARGE && 0 <= r.treasuryCredit <= LARGE
    requires 0 < amount <= LARGE && 0 <= fee <= LARGE && MulScalar7Ceil(amount, p.originationFeeRate) == Ok(fee)
    ensures BorrowMint(p, amount, r) == Ok((r.(dSupply := r.dSupply + (amount + fee),
              treasuryCredit := r.treasuryCredit + fee), amount + fee))
  {
    WholeTokens(amount + fee);
    hide MulScalar7Ceil;
  }

  lemma BorrowBooksAtPar(p: Pool, e: Env, user: Address, asset: Symbol, amount: int, fee: int)
    requires AtPar(p, e, asset)
    requires 0 < amount <= BalanceOf(p, asset) && MulScalar7Ceil(amount, p.originationFeeRate) == Ok(fee)
    requires 0 <= fee <= LARGE && ReserveOf(p, asset, e.now).dSupply + amount + fee < ReserveOf(p, asset, e.now).bSupply
    requires 0 <= Holding(p.dTokens, user, asset) <= LARGE && 0 <= CDPOrNew(p, user, e.now).dTokens <= LARGE
    ensures BorrowBooks(p, e, user, asset, amount, ReserveOf(p, asset, e.now)).Ok?
    ensures var r := ReserveOf(p, asset, e.now);
            BorrowMint(p, amount, r) == Ok((r.(dSupply := r.dSupply + (amount + fee),
              treasuryCredit := r.treasuryCredit + fee), amount + fee))
  {
    hide BorrowMint, MulScalar7Ceil, Interest.Utilization, ReserveOf, Holding, CDPOrNew;
    var r := ReserveOf(p, asset, e.now);
    MintAtPar(p, amount, fee, r);
    ParUtilization(r.(dSupply := r.dSupply + (amount + fee), treasuryCredit := r.treasuryCredit + fee));
  }

  lemma BorrowSucceeds(p: Pool, e: Env, user: Address, asset: Symbol, amount: int, fee: int)
    requires AtPar(p, e, asset) && BorrowAllowed(p, e, user, asset, amount).Ok?
    requires 0 < amount && BorrowBooks(p, e, user, asset, amount, ReserveOf(p, asset, e.now)).Ok?
    ensures Borrow(p, e, user, asset, amount) == BorrowBooks(p, e, user, asset, amount, ReserveOf(p, asset, e.now))
  {
    NothingAccrues(p, e, asset);
    hide AccruedReserve, BorrowAllowed, BorrowBooks;
  }

  /** A borrow within the limit, with its fee. */
  lemma BorrowAtPar(p: Pool, e: Env, user: Address, asset: Symbol, amount: int, fee: int)
    requires AtPar(p, e, asset) && BorrowAllowed(p, e, user, asset, amount).Ok?
    requires 0 < amount <= BalanceOf(p, asset) && MulScalar7Ceil(amount, p.originationFeeRate) == Ok(fee)
    requires 0 <= fee <= LARGE && ReserveOf(p, asset, e.now).dSupply + amount + fee < ReserveOf(p, asset, e.now).bSupply
    requires 0 <= Holding(p.dTokens, user, asset) <= LARGE && 0 <= CDPOrNew(p, user, e.now).dTokens <= LARGE
    ensures Borrow(p, e, user, asset, amount).Ok?
    ensures var r, token, cdp := ReserveOf(p, asset, e.now), p.tokenContract[asset], CDPOrNew(p, user, e.now);
            Borrow(p, e, user, asset, amount).value
              == (p.(reserves := p.reserves[asset := r.(dSupply := r.dSupply + (amount + fee),
                       treasuryCredit := r.treasuryCredit + fee)],
                     poolBalance := p.poolBalance[asset := BalanceOf(p, asset) - amount],
                     cdps := p.cdps[user := cdp.(dTokens := cdp.dTokens + (amount + fee), debtAsset := Some(asset),
                       lastUpdate := e.now)],
                     dTokens := p.dTokens[UserAsset(user, asset) := Holding(p.dTokens, user, asset) + (amount + fee)],
                     custody := p.custody[token := CustodyOf(p, token) - amount]),
                  amount + fee)
  {
    hide *;
    BorrowBooksAtPar(p, e, user, asset, amount, fee);
    BorrowSucceeds(p, e, user, asset, amount, fee);
    BorrowPaysOut(p, e, user, asset, amount, ReserveOf(p, asset, e.now));
  }

  /** A removal that passes its tests lowers the position, the custody and nothing else. */
  lemma RemovalWhenAllowed(p: Pool, e: Env, user: Address, token: Address, amount: int)
    requires 0 < amount <= CollateralOf(p, user, token) <= LARGE && amount <= CustodyOf(p, token)
    requires var reduced := WithCollateral(p, user, token, CollateralOf(p, user, token) - amount, e.now);
             RemovalAllowed(p, reduced, e, user).Ok?
    ensures RemoveCollateral(p, e, user, token, amount).Ok?
  {
    hide RemovalAllowed, WithCollateral, CollateralOf;
    var reduced := WithCollateral(p, user, token, CollateralOf(p, user, token) - amount, e.now);
    SameCustody(p, user, token, CollateralOf(p, user, token) - amount, e.now);
  }

  lemma SameCustody(p: Pool, user: Address, token: Address, amount: int, now: nat)
    ensures Touched(WithCollateral(p, user, token, amount, now), user, now).custody == p.custody
  {
    hide Set;
  }

  // ---- A successful call as a step of a run ----

  lemma DepositNext(p: Pool, e: Env, user: Address, asset: Symbol, amount: int)
    requires Deposit(p, e, user, asset, amount).Ok?
    ensures Next(p, e, DepositStep(user, asset, amount)) == Deposit(p, e, user, asset, amount).value.0
  {
    hide Deposit, AuctionNext, QueueNext, SettingNext;
  }

  lemma BorrowNext(p: Pool, e: Env, user: Address, asset: Symbol, amount: int)
    requires Borrow(p, e, user, asset, amount).Ok?
    ensures Next(p, e, BorrowStep(user, asset, amount)) == Borrow(p, e, user, asset, amount).value.0
  {
    hide Borrow, AuctionNext, QueueNext, SettingNext;
  }

  lemma AddCollateralNext(p: Pool, e: Env, user: Address, token: Address, amount: int)
    requires AddCollateral(p, e, user, token, amount).Ok?
    ensures Next(p, e, AddCollateralStep(user, token, amount)) == AddCollateral(p, e, user, token, amount).value.0
  {
    hide AddCollateral, AuctionNext, QueueNext, SettingNext;
  }

  lemma RemoveCollateralNext(p: Pool, e: Env, user: Address, token: Address, amount: int)
    requires RemoveCollateral(p, e, user, token, amount).Ok?
    ensures Next(p, e, RemoveCollateralStep(user, token, amount)) == RemoveCollateral(p, e, user, token, amount).value.0
  {
    hide RemoveCollateral, AuctionNext, QueueNext, SettingNext;
  }

  lemma InitiateNext(p: Pool, e: Env, user: Address, token: Address, asset: Symbol, percent: U32)
    requires InitiateLiquidation(p, e, user, token, asset, percent).Ok?
    ensures Next(p, e, InitiateLiquidationStep(user, token, asset, percent))
      == InitiateLiquidation(p, e, user, token, asset, percent).value.0
  {
    hide InitiateLiquidation, LedgerNext, QueueNext, SettingNext;
  }
}
