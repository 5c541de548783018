/** The pool contract: entry points that update storage step by step, each proved to do what its
    operation function says, under a host that reverts the storage of a failed call. */
module LendingPools {
  import opened Outcomes
  import opened FixedPoint
  import opened Tables
  import opened PoolTypes
  import opened PoolStore
  import opened Valuation
  import opened ReserveCaching
  import Ops = PoolOperations
  import Interest

  /** An answer and a store agree with what the operation function computed. After an error the
      store is arbitrary: the host discards it. */
  predicate Agrees<T(==)>(outcome: Result<(Pool, T)>, after: Pool, r: Result<T>) {
    match outcome
    case Ok(done) => r == Ok(done.1) && after == done.0
    case Err(error) => r == Err(error)
  }

  class LendingPool {
    var store: Pool

    constructor (initial: Pool)
      ensures store == initial
    {
      store := initial;
    }

    // ---- Storage writes ----

    method SetCDP(user: Address, cdp: CDP)
      modifies this
      ensures store == old(store).(cdps := old(store).cdps[user := cdp])
    {
      store := store.(cdps := store.cdps[user := cdp]);
    }

    method FlushCache(cache: ReserveCache, now: nat)
      requires cache.Valid(store.reserves, now)
      modifies this
      ensures store == old(store).(reserves := old(cache.Written(store.reserves)))
    {
      var flushed := cache.Flush(store.reserves, now);
      store := store.(reserves := flushed);
    }

    // ---- Accrual through a reserve cache ----

    method AccrueInterest(e: Env, asset: Symbol, cache: ReserveCache) returns (r: Result<Reserve>)
      requires cache.Valid(store.reserves, e.now) && cache.Written(store.reserves) == store.reserves
      modifies cache
      ensures cache.Valid(store.reserves, e.now)
      ensures r == AccruedReserve(store, e, asset)
      ensures r.Ok? ==>
                cache.Written(store.reserves)
                  == if e.now <= ReserveOf(store, asset, e.now).lastTime then store.reserves
                    else store.reserves[asset := r.value]
    {
      var reserve := cache.GetReserve(store.reserves, asset, e.now);
      if e.now <= reserve.lastTime {
        return Ok(reserve);
      }
      if reserve.bSupply == 0 {
        reserve := reserve.(lastTime := e.now);
        cache.SetReserve(store.reserves, asset, reserve, e.now);
        return Ok(reserve);
      }
      var ps := if asset in store.params then store.params[asset] else Interest.DEFAULT_PARAMS;
      var utilization :- Interest.Utilization(reserve);
      if utilization == 0 {
        reserve := reserve.(lastTime := e.now);
        cache.SetReserve(store.reserves, asset, reserve, e.now);
        return Ok(reserve);
      }
      var step :- Interest.CalcAccrual(ps, utilization, reserve.irMod, reserve.lastTime, e.now);
      var updated := Interest.UpdateByAccrual(reserve, store.takeRate, store.reserveFactor, step.0, step.1, e.now);
      if updated.Err? {
        return updated;
      }
      cache.SetReserve(store.reserves, asset, updated.value, e.now);
      return updated;
    }

    method AccrueOnly(e: Env, asset: Symbol) returns (r: Result<()>)
      modifies this
      ensures Agrees(Ops.AccrueOnly(old(store), e, asset), store, r)
    {
      hide Interest.Accrue;
      var cache := new ReserveCache();
      var reserve :- AccrueInterest(e, asset, cache);
      FlushCache(cache, e.now);
      return Ok(());
    }

    // ---- Lending ----

    method DepositBooks(lender: Address, asset: Symbol, amount: int, reserve: Reserve, cache: ReserveCache, now: nat)
      returns (r: Result<int>)
      requires amount > 0
      requires cache.Valid(store.reserves, now)
      requires cache.Written(store.reserves) == store.reserves
            || cache.Written(store.reserves) == store.reserves[asset := reserve]
      modifies this, cache
      ensures Agrees(Ops.DepositBooks(old(store), lender, asset, amount, reserve), store, r)
    {
      hide MulDivFloor, Fit, ReserveCache.Valid, ReserveCache.Written;
      var bTokens :- ToBTokenDown(amount, reserve.bRate);
      var token :- TokenOf(store, asset);
      store := Receive(store, token, amount).value;
      var balance :- Plus(BalanceOf(store, asset), amount);
      var bSupply :- CheckedAdd(reserve.bSupply, bTokens);
      cache.SetReserve(store.reserves, asset, reserve.(bSupply := bSupply), now);
      var held :- Plus(Holding(store.bTokens, lender, asset), bTokens);
      store := store.(
        poolBalance := store.poolBalance[asset := balance],
        bTokens := store.bTokens[UserAsset(lender, asset) := held]);
      FlushCache(cache, now);
      return Ok(bTokens);
    }

    method Deposit(e: Env, lender: Address, asset: Symbol, amount: int) returns (r: Result<int>)
      modifies this
      ensures Agrees(Ops.Deposit(old(store), e, lender, asset, amount), store, r)
    {
      hide AccruedReserve, Ops.DepositBooks;
      if amount <= 0 {
        return Err(NotPositive);
      }
      if store.state == Frozen {
        return Err(PoolFrozen);
      }
      var _ :- Ops.DepositAllowed(store, asset, amount);
      var cache := new ReserveCache();
      var reserve :- AccrueInterest(e, asset, cache);
      r := DepositBooks(lender, asset, amount, reserve, cache, e.now);
    }

    /** The cached reserve is the one to be saved. */
    method PayOut(asset: Symbol, amount: int, cache: ReserveCache, now: nat) returns (r: Result<()>)
      requires cache.Valid(store.reserves, now)
      requires asset in cache.Written(store.reserves)
      requires cache.Written(store.reserves) == store.reserves[asset := cache.Written(store.reserves)[asset]]
      modifies this, cache
      ensures var outcome := Ops.PayOut(old(store), asset, amount, old(cache.Written(store.reserves)[asset]));
              if outcome.Ok? then r == Ok(()) && store == outcome.value else r == Err(outcome.error)
    {
      hide Interest.Utilization, ReserveCache.Valid, ReserveCache.Written;
      var current := cache.GetReserve(store.reserves, asset, now);
      var utilization :- Interest.Utilization(current);
      if utilization >= SCALAR_7 {
        return Err(InvalidUtilRate);
      }
      var token :- TokenOf(store, asset);
      var sent :- Send(store, token, amount);
      store := sent;
      FlushCache(cache, now);
      return Ok(());
    }

    method WithdrawBooks(lender: Address, asset: Symbol, bTokens: int, reserve: Reserve, cache: ReserveCache, now: nat)
      returns (r: Result<int>)
      requires cache.Valid(store.reserves, now)
      requires cache.Written(store.reserves) == store.reserves
            || cache.Written(store.reserves) == store.reserves[asset := reserve]
      modifies this, cache
      ensures Agrees(Ops.WithdrawBooks(old(store), lender, asset, bTokens, reserve), store, r)
    {
      hide Ops.PayOut, MulDivFloor, Fit, ReserveCache.Valid, ReserveCache.Written;
      var held := Holding(store.bTokens, lender, asset);
      var burnt := if bTokens > held then held else bTokens;
      if burnt == 0 {
        return Err(InsufficientBTokenBalance);
      }
      var amount :- FromBToken(burnt, reserve.bRate);
      var balance := BalanceOf(store, asset);
      if balance < amount {
        return Err(InsufficientPoolBalance);
      }
      var bSupply :- CheckedSub(reserve.bSupply, burnt);
      cache.SetReserve(store.reserves, asset, reserve.(bSupply := bSupply), now);
      var left :- Minus(held, burnt);
      var balance' :- Minus(balance, amount);
      store := store.(
        bTokens := store.bTokens[UserAsset(lender, asset) := left],
        poolBalance := store.poolBalance[asset := balance']);
      var _ :- PayOut(asset, amount, cache, now);
      return Ok(amount);
    }

    method Withdraw(e: Env, lender: Address, asset: Symbol, bTokens: int) returns (r: Result<int>)
      modifies this
      ensures Agrees(Ops.Withdraw(old(store), e, lender, asset, bTokens), store, r)
    {
      hide AccruedReserve, Ops.WithdrawBooks;
      if bTokens <= 0 {
        return Err(NotPositive);
      }
      if store.state == Frozen {
        return Err(PoolFrozen);
      }
      var cache := new ReserveCache();
      var reserve :- AccrueInterest(e, asset, cache);
      r := WithdrawBooks(lender, asset, bTokens, reserve, cache, e.now);
    }

    // ---- Borrowing ----

    method CalculateBorrowLimit(e: Env, borrower: Address) returns (r: Result<int>)
      ensures r == BorrowLimit(store, e, borrower)
    {
      var cdp := CDPOrNew(store, borrower, e.now);
      var collateral :- SumCollateral(store, e, cdp.collateral);
      var debt :- DebtValue(store, e, cdp);
      var lFactor := SCALAR_7;
      if cdp.debtAsset.Some? && cdp.dTokens > 0 {
        lFactor := LFactor(store, cdp.debtAsset.value);
      }
      var effective :- EffectiveDebt(debt, lFactor);
      var limit :- CheckedSub(collateral, effective);
      return Ok(if limit < 0 then 0 else limit);
    }

    method CalculateHealthFactor(e: Env, borrower: Address) returns (r: Result<U32>)
      ensures r == HealthFactor(store, e, borrower)
    {
      if borrower !in store.cdps {
        return Err(CDPNotInsolvent);
      }
      var cdp := store.cdps[borrower];
      var collateral :- SumCollateral(store, e, cdp.collateral);
      var debt :- DebtValue(store, e, cdp);
      if debt == 0 {
        return Ok(U32_MAX);
      }
      var lFactor := SCALAR_7;
      if cdp.debtAsset.Some? {
        lFactor := LFactor(store, cdp.debtAsset.value);
      }
      var effective :- EffectiveDebt(debt, lFactor);
      var factor :- MulDivFloor(collateral, SCALAR_7, effective);
      return Ok(ToU32(factor));
    }

    method BorrowAllowed(e: Env, borrower: Address, asset: Symbol, amount: int) returns (r: Result<()>)
      ensures r == Ops.BorrowAllowed(store, e, borrower, asset, amount)
    {
      hide BorrowLimit, UsdValue, QuoteFor, EffectiveDebt;
      var cdp := CDPOrNew(store, borrower, e.now);
      if cdp.debtAsset.Some? && cdp.debtAsset.value != asset {
        return Err(DebtAssetAlreadySet);
      }
      var limit :- CalculateBorrowLimit(e, borrower);
      var q :- QuoteFor(e.assetQuotes, asset);
      var value :- UsdValue(amount, q);
      var effective :- EffectiveDebt(value, LFactor(store, asset));
      if effective > limit {
        return Err(InsufficientBorrowLimit);
      }
      return Ok(());
    }

    /** Fee and dTokens on the cached record. */
    method BorrowMint(amount: int, before: Reserve) returns (r: Result<(Reserve, int)>)
      ensures r == Ops.BorrowMint(store, amount, before)
    {
      hide MulDivFloor, MulDivCeil;
      var reserve := before;
      var fee :- MulScalar7Ceil(amount, store.originationFeeRate);
      var owed :- CheckedAdd(amount, fee);
      var dTokens :- ToDTokenUp(owed, reserve.dRate);
      if fee > 0 {
        var treasuryCredit :- CheckedAdd(reserve.treasuryCredit, fee);
        reserve := reserve.(treasuryCredit := treasuryCredit);
      }
      var dSupply :- CheckedAdd(reserve.dSupply, dTokens);
      reserve := reserve.(dSupply := dSupply);
      return Ok((reserve, dTokens));
    }

    method BorrowBooks(e: Env, borrower: Address, asset: Symbol, amount: int, reserve: Reserve, cache: ReserveCache)
      returns (r: Result<int>)
      requires cache.Valid(store.reserves, e.now)
      requires cache.Written(store.reserves) == store.reserves
            || cache.Written(store.reserves) == store.reserves[asset := reserve]
      modifies this, cache
      ensures Agrees(Ops.BorrowBooks(old(store), e, borrower, asset, amount, reserve), store, r)
    {
      hide Ops.PayOut, Ops.BorrowMint, Fit, ReserveCache.Valid, ReserveCache.Written;
      var balance := BalanceOf(store, asset);
      if balance < amount {
        return Err(InsufficientPoolBalance);
      }
      var minted :- BorrowMint(amount, reserve);
      cache.SetReserve(store.reserves, asset, minted.0, e.now);
      var cdp := CDPOrNew(store, borrower, e.now);
      var debt :- Plus(cdp.dTokens, minted.1);
      var held :- Plus(Holding(store.dTokens, borrower, asset), minted.1);
      var balance' :- Minus(balance, amount);
      store := store.(
        cdps := store.cdps[borrower := cdp.(debtAsset := Some(asset), dTokens := debt, lastUpdate := e.now)],
        dTokens := store.dTokens[UserAsset(borrower, asset) := held],
        poolBalance := store.poolBalance[asset := balance']);
      var _ :- PayOut(asset, amount, cache, e.now);
      return Ok(minted.1);
    }

    method Borrow(e: Env, borrower: Address, asset: Symbol, amount: int) returns (r: Result<int>)
      modifies this
      ensures Agrees(Ops.Borrow(old(store), e, borrower, asset, amount), store, r)
    {
      hide AccruedReserve, Ops.BorrowAllowed, Ops.BorrowBooks;
      if amount <= 0 {
        return Err(NotPositive);
      }
      if store.state != Active {
        return Err(PoolOnIce);
      }
      if asset in store.params && !store.params[asset].enabled {
        return Err(ReserveDisabled);
      }
      var cache := new ReserveCache();
      var reserve :- AccrueInterest(e, asset, cache);
      var _ :- BorrowAllowed(e, borrower, asset, amount);
      r := BorrowBooks(e, borrower, asset, amount, reserve, cache);
    }

    method TakeIn(asset: Symbol, amount: int, cache: ReserveCache, now: nat) returns (r: Result<()>)
      requires cache.Valid(store.reserves, now)
      requires asset in cache.Written(store.reserves)
      requires cache.Written(store.reserves) == store.reserves[asset := cache.Written(store.reserves)[asset]]
      modifies this, cache
      ensures var outcome := Ops.TakeIn(old(store), asset, amount, old(cache.Written(store.reserves)[asset]));
              if outcome.Ok? then r == Ok(()) && store == outcome.value else r == Err(outcome.error)
    {
      hide ReserveCache.Valid, ReserveCache.Written;
      var token :- TokenOf(store, asset);
      var received :- Receive(store, token, amount);
      store := received;
      FlushCache(cache, now);
      return Ok(());
    }

    method RepayBurn(before: CDP, dTokens: int, reserve: Reserve, now: nat) returns (r: Result<Ops.Burn>)
      ensures r == Ops.RepayBurn(before, dTokens, reserve, now)
    {
      hide MulDivCeil, Fit;
      var burnt := if dTokens > before.dTokens then before.dTokens else dTokens;
      var amount :- FromDToken(burnt, reserve.dRate);
      var left :- Minus(before.dTokens, burnt);
      var cdp := before.(dTokens := left);
      if cdp.dTokens == 0 {
        cdp := cdp.(debtAsset := None);
      }
      cdp := cdp.(lastUpdate := now);
      var dSupply :- CheckedSub(reserve.dSupply, burnt);
      return Ok(Ops.Burn(burnt, amount, cdp, reserve.(dSupply := dSupply)));
    }

    method RepayBooks(e: Env, borrower: Address, asset: Symbol, dTokens: int, reserve: Reserve, cache: ReserveCache)
      returns (r: Result<int>)
      requires cache.Valid(store.reserves, e.now)
      requires cache.Written(store.reserves) == store.reserves
            || cache.Written(store.reserves) == store.reserves[asset := reserve]
      modifies this, cache
      ensures Agrees(Ops.RepayBooks(old(store), e, borrower, asset, dTokens, reserve), store, r)
    {
      hide Ops.TakeIn, Ops.RepayBurn, Fit, ReserveCache.Valid, ReserveCache.Written;
      if borrower !in store.cdps || store.cdps[borrower].debtAsset.None?
         || store.cdps[borrower].debtAsset.value != asset {
        return Err(DebtAssetNotSet);
      }
      var held := Holding(store.dTokens, borrower, asset);
      if held < dTokens {
        return Err(InsufficientDTokenBalance);
      }
      var burn :- RepayBurn(store.cdps[borrower], dTokens, reserve, e.now);
      cache.SetReserve(store.reserves, asset, burn.reserve, e.now);
      var left :- Minus(held, burn.burnt);
      var balance :- Plus(BalanceOf(store, asset), burn.amount);
      store := store.(
        cdps := store.cdps[borrower := burn.cdp],
        dTokens := store.dTokens[UserAsset(borrower, asset) := left],
        poolBalance := store.poolBalance[asset := balance]);
      var _ :- TakeIn(asset, burn.amount, cache, e.now);
      return Ok(burn.amount);
    }

    method Repay(e: Env, borrower: Address, asset: Symbol, dTokens: int) returns (r: Result<int>)
      modifies this
      ensures Agrees(Ops.Repay(old(store), e, borrower, asset, dTokens), store, r)
    {
      hide AccruedReserve, Ops.RepayBooks;
      if dTokens <= 0 {
        return Err(NotPositive);
      }
      var cache := new ReserveCache();
      var reserve :- AccrueInterest(e, asset, cache);
      r := RepayBooks(e, borrower, asset, dTokens, reserve, cache);
    }

    // ---- Collateral ----

    method SetCollateral(borrower: Address, token: Address, amount: int, now: nat)
      modifies this
      ensures store == Ops.WithCollateral(old(store), borrower, token, amount, now)
    {
      var cdp := CDPOrNew(store, borrower, now);
      SetCDP(borrower, cdp.(collateral := Set(cdp.collateral, token, amount)));
    }

    method AddCollateral(e: Env, borrower: Address, token: Address, amount: int) returns (r: Result<()>)
      modifies this
      ensures Agrees(Ops.AddCollateral(old(store), e, borrower, token, amount), store, r)
    {
      if amount <= 0 {
        return Err(NotPositive);
      }
      if CollateralFactor(store, token) == 0 {
        return Err(CollateralNotFound);
      }
      store := Receive(store, token, amount).value;
      var total :- Plus(CollateralOf(store, borrower, token), amount);
      SetCollateral(borrower, token, total, e.now);
      SetCDP(borrower, store.cdps[borrower].(lastUpdate := e.now));
      return Ok(());
    }

    method RemoveCollateral(e: Env, borrower: Address, token: Address, amount: int) returns (r: Result<()>)
      modifies this
      ensures Agrees(Ops.RemoveCollateral(old(store), e, borrower, token, amount), store, r)
    {
      hide BorrowLimit, HealthFactor, UsdValue, QuoteFor, FromDToken, Set;
      if amount <= 0 {
        return Err(NotPositive);
      }
      var current := CollateralOf(store, borrower, token);
      if current < amount {
        return Err(InsufficientCollateral);
      }
      var left :- Minus(current, amount);
      if borrower in store.cdps && store.cdps[borrower].dTokens > 0 {
        var cdp := store.cdps[borrower];
        SetCollateral(borrower, token, left, e.now);
        var limit :- CalculateBorrowLimit(e, borrower);
        if cdp.debtAsset.Some? {
          var debt :- DebtValue(store, e, cdp);
          SetCDP(borrower, cdp);
          assert store == old(store);
          if debt > limit {
            return Err(InsufficientBorrowLimit);
          }
          var health :- CalculateHealthFactor(e, borrower);
          if health < MIN_HEALTH_FACTOR {
            return Err(HealthFactorTooLow);
          }
        } else {
          SetCDP(borrower, cdp);
          assert store == old(store);
        }
      }
      SetCollateral(borrower, token, left, e.now);
      if borrower in store.cdps {
        SetCDP(borrower, store.cdps[borrower].(lastUpdate := e.now));
      }
      var sent :- Send(store, token, amount);
      store := sent;
      return Ok(());
    }

    // ---- Liquidation ----

    method InitiateLiquidation(e: Env, borrower: Address, token: Address, asset: Symbol, percent: U32)
        returns (r: Result<int>)
      modifies this
      ensures Agrees(Ops.InitiateLiquidation(old(store), e, borrower, token, asset, percent), store, r)
    {
      hide HealthFactor, UsdValue, QuoteFor, FromDToken, MulScalar7, Ops.Premium, Ops.LotAmount;
      if borrower !in store.cdps || store.cdps[borrower].debtAsset != Some(asset) {
        return Err(CDPNotInsolvent);
      }
      var health :- CalculateHealthFactor(e, borrower);
      if health >= SCALAR_7 {
        return Err(CDPNotInsolvent);
      }
      var collateral := CollateralOf(store, borrower, token);
      if collateral == 0 {
        return Err(InsufficientCollateral);
      }
      var owed :- FromDToken(store.cdps[borrower].dTokens, ReserveOf(store, asset, e.now).dRate);
      var bid :- MulScalar7(owed, percent);
      var premium :- Ops.Premium(CollateralFactor(store, token));
      var collateralQuote :- QuoteFor(e.collateralQuotes, token);
      var collateralValue :- UsdValue(collateral, collateralQuote);
      var debtQuote :- QuoteFor(e.assetQuotes, asset);
      var debtValue :- UsdValue(owed, debtQuote);
      var lot :- Ops.LotAmount(collateral, collateralValue, debtValue, premium, percent);
      var id := AuctionId(e, LIQUIDATION_ID_OFFSET);
      var debtToken :- TokenOf(store, asset);
      var auction := Auction(UserLiquidation, borrower, Set([], debtToken, bid), Set([], token, lot), e.sequence);
      store := store.(auctions := store.auctions[id := auction]);
      return Ok(id);
    }

    /** Debt tokens in, collateral out to the liquidator and the treasury. */
    method FillTransfers(token: Address, debtToken: Address, received: int, paid: int)
      returns (r: Result<(int, int)>)
      modifies this
      ensures Agrees(Ops.FillTransfers(old(store), token, debtToken, received, paid), store, r)
    {
      hide MulScalar7Ceil, Send;
      store :- Receive(store, debtToken, paid);
      var fee :- MulScalar7Ceil(received, store.liquidationFeeRate);
      var toLiquidator :- CheckedSub(received, fee);
      store :- Send(store, token, toLiquidator);
      if fee > 0 {
        store :- Send(store, token, fee);
      }
      return Ok((toLiquidator, fee));
    }

    method FillBooks(e: Env, borrower: Address, token: Address, received: int, paid: int) returns (r: Result<()>)
      modifies this
      ensures var outcome := Ops.FillBooks(old(store), e, borrower, token, received, paid);
              if outcome.Ok? then r == Ok(()) && store == outcome.value else r == Err(outcome.error)
    {
      hide ToDTokenDown, Fit;
      if borrower !in store.cdps {
        return Err(CDPNotInsolvent);
      }
      var cdp := store.cdps[borrower];
      if cdp.debtAsset.None? {
        return Err(DebtAssetNotSet);
      }
      var asset := cdp.debtAsset.value;
      var burnt :- ToDTokenDown(paid, ReserveOf(store, asset, e.now).dRate);
      var current := GetOr(cdp.collateral, token, 0);
      var updated :- Ops.WithLessDebt(cdp, burnt, e.now);
      var left :- Minus(current, received);
      var held :- Minus(Holding(store.dTokens, borrower, asset), burnt);
      var balance :- Plus(BalanceOf(store, asset), paid);
      store := store.(
        cdps := store.cdps[borrower := updated.(collateral := Set(cdp.collateral, token, left))],
        dTokens := store.dTokens[UserAsset(borrower, asset) := held],
        poolBalance := store.poolBalance[asset := balance]);
      return Ok(());
    }

    method FillAuction(e: Env, id: int) returns (r: Result<(int, int)>)
      modifies this
      ensures Agrees(Ops.FillAuction(old(store), e, id), store, r)
    {
      hide HealthFactor, Ops.AuctionModifiers, Ops.FillAmounts, Ops.FillTransfers, Ops.FillBooks;
      if id !in store.auctions {
        return Err(AuctionNotFound);
      }
      var auction := store.auctions[id];
      if auction.auctionType != UserLiquidation {
        return Err(AuctionNotActive);
      }
      if e.sequence < auction.block {
        return Err(Trap);
      }
      if auction.lot == [] || auction.bid == [] {
        return Err(AuctionNotActive);
      }
      var token, debtToken := auction.lot[0].key, auction.bid[0].key;
      if token < 0 || debtToken < 0 {
        return Err(Trap);
      }
      var amounts :- Ops.FillAmounts(auction, e.sequence - auction.block);
      var sent :- FillTransfers(token, debtToken, amounts.0, amounts.1);
      var _ :- FillBooks(e, auction.user, token, amounts.0, amounts.1);
      var health :- CalculateHealthFactor(e, auction.user);
      if health > MAX_HEALTH_FACTOR {
        return Err(HealthFactorTooHigh);
      }
      store := store.(auctions := store.auctions - {id});
      return Ok(sent);
    }

    // ---- Interest auctions and fees ----

    method CreateInterestAuction(e: Env, contract: Address, asset: Symbol) returns (r: Result<int>)
      modifies this
      ensures Agrees(Ops.CreateInterestAuction(old(store), e, contract, asset), store, r)
    {
      var credit := ReserveOf(store, asset, e.now).backstopCredit;
      if credit < MIN_INTEREST_AUCTION {
        return Err(AuctionNotActive);
      }
      var token :- TokenOf(store, asset);
      var id := AuctionId(e, INTEREST_ID_OFFSET);
      var auction := Auction(AuctionType.Interest, contract, [], Set([], token, credit), e.sequence);
      store := store.(auctions := store.auctions[id := auction]);
      return Ok(id);
    }

    method PayInterest(e: Env, asset: Symbol, token: Address, interest: int) returns (r: Result<()>)
      modifies this
      ensures var outcome := Ops.PayInterest(old(store), e, asset, token, interest);
              if outcome.Ok? then r == Ok(()) && store == outcome.value else r == Err(outcome.error)
    {
      if interest > 0 {
        var balance := BalanceOf(store, asset);
        if balance < interest {
          return Err(InsufficientPoolBalance);
        }
        balance :- Minus(balance, interest);
        store := store.(poolBalance := store.poolBalance[asset := balance]);
        store :- Send(store, token, interest);
        var reserve := ReserveOf(store, asset, e.now);
        reserve := reserve.(backstopCredit := SaturatingSub(reserve.backstopCredit, interest));
        store := store.(reserves := store.reserves[asset := reserve]);
      }
      return Ok(());
    }

    method FillInterestAuction(e: Env, id: int, asset: Symbol, fillPercent: int) returns (r: Result<(int, int)>)
      modifies this
      ensures Agrees(Ops.FillInterestAuction(old(store), e, id, asset, fillPercent), store, r)
    {
      hide MulScalar7, MulDivFloor, Ops.PayInterest, Ops.InterestBidModifier;
      if fillPercent <= 0 || fillPercent > SCALAR_7 {
        return Err(InvalidFillPercent);
      }
      if id !in store.auctions {
        return Err(AuctionNotFound);
      }
      var auction := store.auctions[id];
      if auction.auctionType != AuctionType.Interest {
        return Err(AuctionNotActive);
      }
      if e.sequence < auction.block {
        return Err(Trap);
      }
      var token :- TokenOf(store, asset);
      var lot := GetOr(auction.lot, token, 0);
      if lot == 0 {
        return Err(AuctionNotActive);
      }
      var portion :- MulScalar7(lot, fillPercent);
      var interest :- MulDivFloor(portion, SCALAR_12, SCALAR_12);
      var asked :- MulDivFloor(interest, Ops.InterestBidModifier(e.sequence - auction.block), SCALAR_12);
      var auctions := store.auctions;
      var _ :- PayInterest(e, asset, token, interest);
      var remaining := SaturatingSub(lot, interest);
      if remaining <= 0 {
        store := store.(auctions := auctions - {id});
      } else {
        store := store.(auctions := auctions[id := auction.(lot := Set(auction.lot, token, remaining))]);
      }
      return Ok((interest, asked));
    }

    method CollectTreasuryFees(e: Env, asset: Symbol) returns (r: Result<int>)
      modifies this
      ensures Agrees(Ops.CollectTreasuryFees(old(store), e, asset), store, r)
    {
      var reserve := ReserveOf(store, asset, e.now);
      var amount := reserve.treasuryCredit;
      if amount == 0 {
        return Err(NoTreasuryFeesToCollect);
      }
      var balance := BalanceOf(store, asset);
      if balance < amount {
        return Err(InsufficientPoolBalance);
      }
      var token :- TokenOf(store, asset);
      store :- Send(store, token, amount);
      balance :- Minus(balance, amount);
      store := store.(poolBalance := store.poolBalance[asset := balance]);
      reserve := reserve.(treasuryCredit := 0);
      store := store.(reserves := store.reserves[asset := reserve]);
      return Ok(amount);
    }

    // ---- Configuration queue ----

    method QueueReserveParams(e: Env, asset: Symbol, ps: InterestRateParams) returns (r: Result<()>)
      modifies this
      ensures Agrees(Ops.QueueReserveParams(old(store), e, asset, ps), store, r)
    {
      if asset in store.queued {
        return Err(ConfigAlreadyQueued);
      }
      if ps.targetUtil > 9_500_000 {
        return Err(InvalidInterestRateParams);
      }
      if ps.maxUtil <= ps.targetUtil || ps.maxUtil > SCALAR_7 {
        return Err(InvalidInterestRateParams);
      }
      var unlock := if store.state == OnIce then e.now else e.now + CONFIG_DELAY_SECONDS;
      store := store.(queued := store.queued[asset := QueuedReserveConfig(ps, unlock)]);
      return Ok(());
    }

    method ApplyQueuedParams(e: Env, asset: Symbol) returns (r: Result<()>)
      modifies this
      ensures Agrees(Ops.ApplyQueuedParams(old(store), e, asset), store, r)
    {
      if asset !in store.queued {
        return Err(ConfigQueueNotFound);
      }
      var queued := store.queued[asset];
      if queued.unlockTime > e.now {
        return Err(ConfigNotUnlocked);
      }
      store := store.(queued := store.queued - {asset});
      store := store.(params := store.params[asset := queued.newParams]);
      return Ok(());
    }
  }

  /** The host: it runs an entry point and restores the storage when the call failed. */
  method TransactLedger(pool: LendingPool, e: Env, step: Ops.Step) returns (failed: bool)
    requires Ops.LedgerStep(step)
    modifies pool
    ensures pool.store == Ops.Next(old(pool.store), e, step)
  {
    hide Ops.Deposit, Ops.Withdraw, Ops.Borrow, Ops.Repay, Ops.AddCollateral, Ops.RemoveCollateral,
         Ops.AuctionNext, Ops.QueueNext, Ops.SettingNext;
    var saved := pool.store;
    match step {
      case DepositStep(u, a, x) => var r := pool.Deposit(e, u, a, x); failed := r.Err?;
      case WithdrawStep(u, a, x) => var r := pool.Withdraw(e, u, a, x); failed := r.Err?;
      case BorrowStep(u, a, x) => var r := pool.Borrow(e, u, a, x); failed := r.Err?;
      case RepayStep(u, a, x) => var r := pool.Repay(e, u, a, x); failed := r.Err?;
      case AddCollateralStep(u, t, x) => var r := pool.AddCollateral(e, u, t, x); failed := r.Err?;
      case RemoveCollateralStep(u, t, x) => var r := pool.RemoveCollateral(e, u, t, x); failed := r.Err?;
    }
    if failed {
      pool.store := saved;
    }
  }

  method TransactAuction(pool: LendingPool, e: Env, step: Ops.Step) returns (failed: bool)
    requires Ops.AuctionStep(step) && !step.DropAuctionStep?
    modifies pool
    ensures pool.store == Ops.Next(old(pool.store), e, step)
  {
    hide Ops.InitiateLiquidation, Ops.FillAuction, Ops.CreateInterestAuction, Ops.FillInterestAuction,
         Ops.AccrueOnly, Ops.CollectTreasuryFees, Ops.LedgerNext, Ops.QueueNext, Ops.SettingNext;
    var saved := pool.store;
    match step {
      case InitiateLiquidationStep(u, t, a, x) => var r := pool.InitiateLiquidation(e, u, t, a, x); failed := r.Err?;
      case FillAuctionStep(id) => var r := pool.FillAuction(e, id); failed := r.Err?;
      case CreateInterestAuctionStep(c, a) => var r := pool.CreateInterestAuction(e, c, a); failed := r.Err?;
      case FillInterestAuctionStep(id, a, x) => var r := pool.FillInterestAuction(e, id, a, x); failed := r.Err?;
      case AccrueStep(a) => var r := pool.AccrueOnly(e, a); failed := r.Err?;
      case CollectTreasuryStep(a) => var r := pool.CollectTreasuryFees(e, a); failed := r.Err?;
    }
    if failed {
      pool.store := saved;
    }
  }
}
