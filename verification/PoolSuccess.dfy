/** When a call goes through: for each entry point the exact condition, in what a caller can read. */
module PoolSuccess {
  import opened Outcomes
  import opened FixedPoint
  import opened Tables
  import opened PoolTypes
  import opened PoolStore
  import opened Valuation
  import opened PoolOperations
  import opened AccrualValue
  import opened PoolInvariants
  import opened PoolSteps
  import opened PoolGates
  import opened BorrowSafety
  import Sums
  import InterestAuctionFacts
  import LiquidationFacts
  import UtilizationFacts
  import Interest

  // ---- Facts of the invariant about one call ----

  lemma HolderWithinTokens(holdings: map<UserAsset, int>, user: Address, asset: Symbol)
    requires forall k :: k in holdings ==> holdings[k] >= 0
    ensures 0 <= Holding(holdings, user, asset) <= TokenSum(holdings, asset)
  {
    TokenSumNonNegative(holdings, asset);
    if UserAsset(user, asset) in holdings {
      Sums.SumMember(holdings, OfAsset(asset), UserAsset(user, asset));
    }
  }

  lemma HolderWithinSupply(p: Pool, user: Address, asset: Symbol)
    requires PoolInv(p)
    ensures 0 <= Holding(p.bTokens, user, asset) <= ReserveOf(p, asset, 0).bSupply
    ensures 0 <= Holding(p.dTokens, user, asset) <= ReserveOf(p, asset, 0).dSupply
  {
    assert AssetInv(p, asset);
    HolderWithinTokens(p.bTokens, user, asset);
    HolderWithinTokens(p.dTokens, user, asset);
  }

  /** The accrued reserve is sound, with the supplies as they were. */
  lemma AccruedSound(p: Pool, e: Env, asset: Symbol)
    requires PoolInv(p) && AccruedReserve(p, e, asset).Ok?
    ensures var r, before := AccruedReserve(p, e, asset).value, ReserveOf(p, asset, 0);
            Interest.ReserveOk(r) && r.bSupply == before.bSupply && r.dSupply == before.dSupply && r.treasuryCredit >= 0
  {
    assert AssetInv(p, asset);
    AccruedReserveFacts(p, e, asset);
  }

  lemma AccrualKeepsTreasury(r: Reserve, configured: Option<InterestRateParams>, takeRate: int, reserveFactor: int,
      now: nat)
    requires r.treasuryCredit <= I128_MAX && Interest.Accrue(r, configured, takeRate, reserveFactor, now).Ok?
    ensures Interest.Accrue(r, configured, takeRate, reserveFactor, now).value.treasuryCredit <= I128_MAX
  {
    hide Interest.Utilization, Interest.CalcAccrual, Interest.Take, Interest.InterestEarned, Interest.SpreadToLenders,
      CheckedMul, CheckedDiv, CheckedSub;
  }

  lemma TreasuryFits(p: Pool, e: Env, asset: Symbol)
    requires ReserveOf(p, asset, 0).treasuryCredit <= I128_MAX && AccruedReserve(p, e, asset).Ok?
    ensures AccruedReserve(p, e, asset).value.treasuryCredit <= I128_MAX
  {
    hide Interest.Accrue;
    AccrualKeepsTreasury(ReserveOf(p, asset, e.now), ParamsOf(p, asset), p.takeRate, p.reserveFactor, e.now);
  }

  // ---- Lending ----

  /** What a deposit mints at the accrued rate. */
  function Minted(amount: int, r: Reserve): int
    requires r.bRate > 0
  {
    FloorDiv(amount * SCALAR_12, r.bRate)
  }

  lemma MintedWithin(amount: int, r: Reserve)
    requires amount > 0 && r.bRate >= SCALAR_12
    ensures 0 <= Minted(amount, r) <= amount
  {
    FloorNonNegative(amount * SCALAR_12, r.bRate);
    MulMono(SCALAR_12, r.bRate, amount);
    MulMono(SCALAR_12, r.bRate, Minted(amount, r));
    MulCancel(Minted(amount, r), amount, SCALAR_12);
  }

  lemma DepositBooksIff(p: Pool, user: Address, asset: Symbol, amount: int, r: Reserve)
    requires amount > 0 && r.bRate >= SCALAR_12 && 0 <= BalanceOf(p, asset)
    requires 0 <= Holding(p.bTokens, user, asset) <= r.bSupply
    ensures DepositBooks(p, user, asset, amount, r).Ok? <==>
              asset in p.tokenContract && BalanceOf(p, asset) + amount <= I128_MAX
                && r.bSupply + Minted(amount, r) <= I128_MAX
  {
    MintedWithin(amount, r);
    hide FloorDiv, BalanceOf, Holding, CustodyOf;
  }

  lemma DepositGateIff(p: Pool, asset: Symbol, amount: int)
    requires amount > 0 && 0 <= BalanceOf(p, asset) && BalanceOf(p, asset) + amount <= I128_MAX
    ensures DepositAllowed(p, asset, amount).Ok? <==> !Disabled(p, asset) && !OverCap(p, asset, amount)
  {
  }

  lemma BalanceNonNegative(p: Pool, asset: Symbol)
    requires PoolInv(p)
    ensures BalanceOf(p, asset) >= 0
  {
    assert AssetInv(p, asset);
  }

  lemma DepositStagesIff(p: Pool, e: Env, user: Address, asset: Symbol, amount: int)
    ensures Deposit(p, e, user, asset, amount).Ok? <==>
              && amount > 0 && p.state != Frozen && DepositAllowed(p, asset, amount).Ok?
              && AccruedReserve(p, e, asset).Ok?
              && DepositBooks(p, user, asset, amount, AccruedReserve(p, e, asset).value).Ok?
  {
    hide DepositAllowed, AccruedReserve, DepositBooks;
  }

  /** A deposit goes through exactly when it is not turned away, accrual succeeds, the asset has a token,
      and balance and supply can hold it. */
  lemma DepositSucceedsIff(p: Pool, e: Env, user: Address, asset: Symbol, amount: int)
    requires PoolInv(p)
    ensures Deposit(p, e, user, asset, amount).Ok? <==>
              && !Refused(p, DepositStep(user, asset, amount)) && asset in p.tokenContract
              && BalanceOf(p, asset) + amount <= I128_MAX
              && var r := AccruedReserve(p, e, asset);
              && r.Ok? && r.value.bRate > 0 && r.value.bSupply + Minted(amount, r.value) <= I128_MAX
  {
    hide PoolInv, Deposit, DepositAllowed, AccruedReserve, DepositBooks, BalanceOf, Holding, Minted, Disabled, OverCap;
    DepositStagesIff(p, e, user, asset, amount);
    BalanceNonNegative(p, asset);
    if amount > 0 && AccruedReserve(p, e, asset).Ok? {
      AccruedSound(p, e, asset);
      HolderWithinSupply(p, user, asset);
      DepositBooksIff(p, user, asset, amount, AccruedReserve(p, e, asset).value);
      if BalanceOf(p, asset) + amount <= I128_MAX {
        DepositGateIff(p, asset, amount);
      }
    }
  }

  lemma PayOutIff(p: Pool, asset: Symbol, amount: int, r: Reserve)
    requires Interest.ReserveOk(r) && amount >= 0
    ensures PayOut(p, asset, amount, r).Ok? <==>
              && Interest.Utilization(r).Ok? && (Supplied(r) == 0 || OwedBy(r) < Supplied(r))
              && asset in p.tokenContract && amount <= CustodyOf(p, p.tokenContract[asset])
  {
    hide Interest.Utilization, CustodyOf, Supplied, OwedBy;
    if Interest.Utilization(r).Ok? {
      UtilizationFacts.BelowFullIff(r);
    }
  }

  /** What a burn of bTokens pays at the accrued rate. */
  function Paid(burnt: int, r: Reserve): int {
    FloorDiv(burnt * r.bRate, SCALAR_12)
  }

  lemma PaidNonNegative(burnt: int, r: Reserve)
    requires burnt >= 0 && r.bRate >= 0
    ensures Paid(burnt, r) >= 0
  {
    MulMono2(0, burnt, 0, r.bRate);
    FloorNonNegative(burnt * r.bRate, SCALAR_12);
  }

  lemma PaidValue(burnt: int, r: Reserve)
    ensures FromBToken(burnt, r.bRate).Ok? <==> FitsI128(Paid(burnt, r))
    ensures FromBToken(burnt, r.bRate).Ok? ==> FromBToken(burnt, r.bRate).value == Paid(burnt, r)
  {
  }

  lemma WithdrawBooksIff(p: Pool, user: Address, asset: Symbol, bTokens: int, r: Reserve)
    requires Interest.ReserveOk(r) && bTokens > 0 && BalanceOf(p, asset) <= I128_MAX
    requires 0 <= Holding(p.bTokens, user, asset) <= r.bSupply <= I128_MAX
    ensures WithdrawBooks(p, user, asset, bTokens, r).Ok? <==>
              var burnt := Min(bTokens, Holding(p.bTokens, user, asset));
              var after := r.(bSupply := r.bSupply - burnt);
              && burnt > 0 && Paid(burnt, r) <= BalanceOf(p, asset)
              && Interest.Utilization(after).Ok? && (Supplied(after) == 0 || OwedBy(after) < Supplied(after))
              && asset in p.tokenContract && Paid(burnt, r) <= CustodyOf(p, p.tokenContract[asset])
  {
    hide FromBToken, PayOut, Interest.Utilization, Supplied, OwedBy, BalanceOf, Holding, CustodyOf, Paid;
    var burnt := Min(bTokens, Holding(p.bTokens, user, asset));
    var after := r.(bSupply := r.bSupply - burnt);
    PaidNonNegative(burnt, r);
    PaidValue(burnt, r);
    var written := p.(poolBalance := p.poolBalance[asset := BalanceOf(p, asset) - Paid(burnt, r)],
                      bTokens := p.bTokens[UserAsset(user, asset) := Holding(p.bTokens, user, asset) - burnt]);
    SameCustodyOf(p, written);
    PayOutIff(written, asset, Paid(burnt, r), after);
  }

  lemma SameCustodyOf(p: Pool, q: Pool)
    requires p.custody == q.custody
    ensures forall t: Address :: CustodyOf(p, t) == CustodyOf(q, t)
  {
  }

  lemma WithdrawStagesIff(p: Pool, e: Env, user: Address, asset: Symbol, bTokens: int)
    ensures Withdraw(p, e, user, asset, bTokens).Ok? <==>
              && bTokens > 0 && p.state != Frozen && AccruedReserve(p, e, asset).Ok?
              && WithdrawBooks(p, user, asset, bTokens, AccruedReserve(p, e, asset).value).Ok?
  {
    hide AccruedReserve, WithdrawBooks;
  }

  /** The numbers a store can hold. */
  predicate Representable(p: Pool, asset: Symbol) {
    var r := ReserveOf(p, asset, 0);
    && BalanceOf(p, asset) <= I128_MAX && r.bSupply <= I128_MAX && r.dSupply <= I128_MAX
    && r.treasuryCredit <= I128_MAX
  }

  /** A withdrawal goes through exactly when it is not turned away, accrual succeeds, something is held, the
      balance and the tokens in custody cover it, and it leaves liabilities below supply. */
  lemma WithdrawSucceedsIff(p: Pool, e: Env, user: Address, asset: Symbol, bTokens: int)
    requires PoolInv(p) && Representable(p, asset)
    ensures Withdraw(p, e, user, asset, bTokens).Ok? <==>
              && !Refused(p, WithdrawStep(user, asset, bTokens)) && asset in p.tokenContract
              && AccruedReserve(p, e, asset).Ok?
              && var r, burnt := AccruedReserve(p, e, asset).value, Min(bTokens, Holding(p.bTokens, user, asset));
              var after := r.(bSupply := r.bSupply - burnt);
              && burnt > 0 && Paid(burnt, r) <= BalanceOf(p, asset)
              && Paid(burnt, r) <= CustodyOf(p, p.tokenContract[asset])
              && Interest.Utilization(after).Ok? && (Supplied(after) == 0 || OwedBy(after) < Supplied(after))
  {
    hide PoolInv, Withdraw, AccruedReserve, WithdrawBooks, BalanceOf, Holding, Paid, Supplied, OwedBy, CustodyOf,
      Interest.Utilization;
    WithdrawStagesIff(p, e, user, asset, bTokens);
    if bTokens > 0 && AccruedReserve(p, e, asset).Ok? {
      AccruedSound(p, e, asset);
      HolderWithinSupply(p, user, asset);
      WithdrawBooksIff(p, user, asset, bTokens, AccruedReserve(p, e, asset).value);
    }
  }

  // ---- Borrowing ----

  /** The fee of a borrow, and the dTokens it mints with it. */
  function FeeOf(p: Pool, amount: int): int {
    CeilDiv(amount * p.originationFeeRate, SCALAR_7)
  }

  function DebtMinted(amount: int, fee: int, r: Reserve): int
    requires r.dRate > 0
  {
    CeilDiv((amount + fee) * SCALAR_12, r.dRate)
  }

  lemma MintIff(p: Pool, amount: int, r: Reserve)
    requires amount > 0 && r.dRate >= SCALAR_12 && r.dSupply >= 0 && 0 <= r.treasuryCredit <= I128_MAX
    ensures FeeOf(p, amount) >= 0 && DebtMinted(amount, FeeOf(p, amount), r) > 0
    ensures BorrowMint(p, amount, r).Ok? <==>
              && amount + FeeOf(p, amount) <= I128_MAX && r.treasuryCredit + FeeOf(p, amount) <= I128_MAX
              && r.dSupply + DebtMinted(amount, FeeOf(p, amount), r) <= I128_MAX
  {
    MintPositive(amount, p.originationFeeRate, r.dRate);
    hide CeilDiv;
  }

  lemma AllowedIff(p: Pool, e: Env, user: Address, asset: Symbol, amount: int)
    ensures BorrowAllowed(p, e, user, asset, amount).Ok? <==>
              && (CDPOrNew(p, user, e.now).debtAsset.None? || CDPOrNew(p, user, e.now).debtAsset == Some(asset))
              && BorrowLimit(p, e, user).Ok? && asset in e.assetQuotes && e.assetQuotes[asset].price > 0
              && UsdValue(amount, e.assetQuotes[asset]).Ok? && LFactor(p, asset) > 0
              && var effective := Weighted(UsdValue(amount, e.assetQuotes[asset]).value, LFactor(p, asset));
              FitsI128(effective) && effective <= BorrowLimit(p, e, user).value
  {
    hide BorrowLimit, UsdValue, CDPOrNew, LFactor, CeilDiv;
  }

  lemma BorrowBooksIff(p: Pool, e: Env, user: Address, asset: Symbol, amount: int, r: Reserve)
    requires amount > 0 && Interest.ReserveOk(r) && 0 <= r.treasuryCredit <= I128_MAX
    requires 0 <= Holding(p.dTokens, user, asset) <= r.dSupply
    requires 0 <= CDPOrNew(p, user, e.now).dTokens <= r.dSupply && BalanceOf(p, asset) <= I128_MAX
    ensures var fee := FeeOf(p, amount);
            var dTokens := DebtMinted(amount, fee, r);
            var after := r.(dSupply := r.dSupply + dTokens, treasuryCredit := r.treasuryCredit + fee);
            BorrowBooks(p, e, user, asset, amount, r).Ok? <==>
              && amount <= BalanceOf(p, asset) && amount + fee <= I128_MAX
              && after.treasuryCredit <= I128_MAX && after.dSupply <= I128_MAX
              && Interest.Utilization(after).Ok? && (Supplied(after) == 0 || OwedBy(after) < Supplied(after))
              && asset in p.tokenContract && amount <= CustodyOf(p, p.tokenContract[asset])
  {
    hide BorrowMint, PayOut, Interest.Utilization, Supplied, OwedBy, BalanceOf, Holding, CustodyOf, CDPOrNew, FeeOf,
      DebtMinted;
    MintIff(p, amount, r);
    if BorrowMint(p, amount, r).Ok? {
      MintedIs(p, amount, r);
      var minted, cdp := BorrowMint(p, amount, r).value, CDPOrNew(p, user, e.now);
      var written := p.(poolBalance := p.poolBalance[asset := BalanceOf(p, asset) - amount],
                        cdps := p.cdps[user := cdp.(debtAsset := Some(asset), dTokens := cdp.dTokens + minted.1,
                          lastUpdate := e.now)],
                        dTokens := p.dTokens[UserAsset(user, asset) := Holding(p.dTokens, user, asset) + minted.1]);
      SameCustodyOf(p, written);
      PayOutIff(written, asset, amount, minted.0);
    }
  }

  lemma MintedIs(p: Pool, amount: int, r: Reserve)
    requires amount > 0 && r.dRate >= SCALAR_12 && BorrowMint(p, amount, r).Ok?
    ensures var fee := FeeOf(p, amount);
            var dTokens := DebtMinted(amount, fee, r);
            BorrowMint(p, amount, r)
              == Ok((r.(dSupply := r.dSupply + dTokens, treasuryCredit := r.treasuryCredit + fee), dTokens))
  {
    MintPositive(amount, p.originationFeeRate, r.dRate);
    MintValue(p, amount, r);
    hide BorrowMint, CeilDiv;
  }

  lemma BorrowStagesIff(p: Pool, e: Env, user: Address, asset: Symbol, amount: int)
    ensures Borrow(p, e, user, asset, amount).Ok? <==>
              && amount > 0 && p.state == Active && !Disabled(p, asset) && AccruedReserve(p, e, asset).Ok?
              && BorrowAllowed(p, e, user, asset, amount).Ok?
              && BorrowBooks(p, e, user, asset, amount, AccruedReserve(p, e, asset).value).Ok?
  {
    hide AccruedReserve, BorrowAllowed, BorrowBooks;
  }

  /** What a user owes in its one asset is part of that asset's supply. */
  lemma DebtWithinSupply(p: Pool, e: Env, user: Address, asset: Symbol)
    requires PoolInv(p)
    ensures CDPOrNew(p, user, e.now).dTokens >= 0
    ensures CDPOrNew(p, user, e.now).debtAsset.None? || CDPOrNew(p, user, e.now).debtAsset == Some(asset) ==>
              CDPOrNew(p, user, e.now).dTokens == Holding(p.dTokens, user, asset)
  {
    assert DebtorInv(p, user);
  }

  /** A borrow goes through exactly when it is not turned away, accrual succeeds, the borrower owes nothing
      else, the limit covers the amount's effective value, balance and custody cover the amount, the fee and
      the debt can be held, and it leaves liabilities below supply. */
  lemma BorrowSucceedsIff(p: Pool, e: Env, user: Address, asset: Symbol, amount: int)
    requires PoolInv(p) && Representable(p, asset)
    ensures Borrow(p, e, user, asset, amount).Ok? <==>
              && !Refused(p, BorrowStep(user, asset, amount)) && asset in p.tokenContract
              && AccruedReserve(p, e, asset).Ok? && BorrowAllowed(p, e, user, asset, amount).Ok?
              && amount <= BalanceOf(p, asset) && amount <= CustodyOf(p, p.tokenContract[asset])
              && var r, fee := AccruedReserve(p, e, asset).value, FeeOf(p, amount);
              && r.dRate > 0
              && var after := r.(dSupply := r.dSupply + DebtMinted(amount, fee, r),
                                 treasuryCredit := r.treasuryCredit + fee);
              && amount + fee <= I128_MAX && after.treasuryCredit <= I128_MAX && after.dSupply <= I128_MAX
              && Interest.Utilization(after).Ok? && (Supplied(after) == 0 || OwedBy(after) < Supplied(after))
  {
    hide PoolInv, Borrow, AccruedReserve, BorrowAllowed, BorrowBooks, BalanceOf, Holding, Supplied, OwedBy, CustodyOf,
      Interest.Utilization, FeeOf, DebtMinted, CDPOrNew, Disabled;
    BorrowStagesIff(p, e, user, asset, amount);
    if amount > 0 && AccruedReserve(p, e, asset).Ok? && BorrowAllowed(p, e, user, asset, amount).Ok? {
      AccruedSound(p, e, asset);
      HolderWithinSupply(p, user, asset);
      TreasuryFits(p, e, asset);
      AllowedAsset(p, e, user, asset, amount);
      DebtWithinSupply(p, e, user, asset);
      BorrowBooksIff(p, e, user, asset, amount, AccruedReserve(p, e, asset).value);
    }
  }

  lemma RepayBooksIff(p: Pool, e: Env, user: Address, asset: Symbol, dTokens: int, r: Reserve)
    requires dTokens > 0 && r.dRate >= 0 && BalanceOf(p, asset) >= 0 && r.dSupply <= I128_MAX
    requires 0 <= Holding(p.dTokens, user, asset) <= r.dSupply
    requires user in p.cdps && p.cdps[user].debtAsset == Some(asset) ==>
               p.cdps[user].dTokens == Holding(p.dTokens, user, asset)
    ensures RepayBooks(p, e, user, asset, dTokens, r).Ok? <==>
              && user in p.cdps && p.cdps[user].debtAsset == Some(asset) && dTokens <= Holding(p.dTokens, user, asset)
              && asset in p.tokenContract
              && BalanceOf(p, asset) + CeilDiv(dTokens * r.dRate, SCALAR_12) <= I128_MAX
  {
    OwedNonNegativeUp(dTokens, r.dRate);
    hide CeilDiv, BalanceOf, Holding, CustodyOf;
  }

  lemma OwedNonNegativeUp(dTokens: int, dRate: int)
    requires dTokens >= 0 && dRate >= 0
    ensures CeilDiv(dTokens * dRate, SCALAR_12) >= 0
  {
    MulMono2(0, dTokens, 0, dRate);
    CeilMono(0, dTokens * dRate, SCALAR_12);
  }

  lemma RepayStagesIff(p: Pool, e: Env, user: Address, asset: Symbol, dTokens: int)
    ensures Repay(p, e, user, asset, dTokens).Ok? <==>
              && dTokens > 0 && AccruedReserve(p, e, asset).Ok?
              && RepayBooks(p, e, user, asset, dTokens, AccruedReserve(p, e, asset).value).Ok?
  {
    hide AccruedReserve, RepayBooks;
  }

  /** A repayment goes through in every state of the pool, exactly when accrual succeeds, the borrower owes
      the asset and holds the dTokens, and the balance can hold what they cost. */
  lemma RepaySucceedsIff(p: Pool, e: Env, user: Address, asset: Symbol, dTokens: int)
    requires PoolInv(p) && Representable(p, asset)
    ensures Repay(p, e, user, asset, dTokens).Ok? <==>
              && 0 < dTokens <= Holding(p.dTokens, user, asset) && asset in p.tokenContract
              && user in p.cdps && p.cdps[user].debtAsset == Some(asset)
              && AccruedReserve(p, e, asset).Ok?
              && BalanceOf(p, asset) + CeilDiv(dTokens * AccruedReserve(p, e, asset).value.dRate, SCALAR_12) <= I128_MAX
  {
    hide PoolInv, Repay, AccruedReserve, RepayBooks, BalanceOf, Holding, CeilDiv;
    RepayStagesIff(p, e, user, asset, dTokens);
    if dTokens > 0 && AccruedReserve(p, e, asset).Ok? {
      AccruedSound(p, e, asset);
      HolderWithinSupply(p, user, asset);
      BalanceNonNegative(p, asset);
      DebtWithinSupply(p, e, user, asset);
      RepayBooksIff(p, e, user, asset, dTokens, AccruedReserve(p, e, asset).value);
    }
  }

  // ---- Collateral ----

  /** Adding collateral goes through exactly when it is not turned away and the position can hold it. */
  lemma AddCollateralSucceedsIff(p: Pool, e: Env, user: Address, token: Address, amount: int)
    requires CollateralOf(p, user, token) >= 0
    ensures AddCollateral(p, e, user, token, amount).Ok? <==>
              !Refused(p, AddCollateralStep(user, token, amount)) && CollateralOf(p, user, token) + amount <= I128_MAX
  {
    hide Set, Get, CollateralOf, CustodyOf;
  }

  lemma DebtorFacts(p: Pool, user: Address)
    requires PoolInv(p) && user in p.cdps
    ensures p.cdps[user].dTokens >= 0 && (p.cdps[user].dTokens > 0 <==> p.cdps[user].debtAsset.Some?)
  {
    assert DebtorInv(p, user);
  }

  lemma RemovalIff(p: Pool, reduced: Pool, e: Env, user: Address)
    requires PoolInv(p)
    ensures RemovalAllowed(p, reduced, e, user).Ok? <==>
              user !in p.cdps || p.cdps[user].dTokens == 0
                || (BorrowLimit(reduced, e, user).Ok? && DebtUsd(p, e, user).Ok?
                    && DebtUsd(p, e, user).value <= BorrowLimit(reduced, e, user).value
                    && HealthFactor(p, e, user).Ok? && HealthFactor(p, e, user).value >= 11_000_000)
  {
    hide PoolInv, BorrowLimit, HealthFactor, DebtValue;
    if user in p.cdps {
      DebtorFacts(p, user);
    }
  }

  lemma RemoveStagesIff(p: Pool, e: Env, user: Address, token: Address, amount: int)
    requires CollateralOf(p, user, token) <= I128_MAX
    ensures RemoveCollateral(p, e, user, token, amount).Ok? <==>
              && 0 < amount <= CollateralOf(p, user, token)
              && RemovalAllowed(p, WithCollateral(p, user, token, CollateralOf(p, user, token) - amount, e.now), e,
                   user).Ok?
              && amount <= CustodyOf(p, token)
  {
    hide RemovalAllowed, CollateralOf, Set;
    if 0 < amount <= CollateralOf(p, user, token) {
      var reduced := WithCollateral(p, user, token, CollateralOf(p, user, token) - amount, e.now);
      SameCustodyOf(p, Touched(reduced, user, e.now));
    }
  }

  /** Removing collateral goes through exactly when the position has it, the pool holds it, and a debtor's
      remaining limit covers the debt value while health before the removal is at least 1.1. */
  lemma RemoveCollateralSucceedsIff(p: Pool, e: Env, user: Address, token: Address, amount: int)
    requires PoolInv(p) && CollateralOf(p, user, token) <= I128_MAX
    ensures RemoveCollateral(p, e, user, token, amount).Ok? <==>
              && 0 < amount <= CollateralOf(p, user, token) && amount <= CustodyOf(p, token)
              && var reduced := WithCollateral(p, user, token, CollateralOf(p, user, token) - amount, e.now);
              (user !in p.cdps || p.cdps[user].dTokens == 0
                 || (BorrowLimit(reduced, e, user).Ok? && DebtUsd(p, e, user).Ok?
                     && DebtUsd(p, e, user).value <= BorrowLimit(reduced, e, user).value
                     && HealthFactor(p, e, user).Ok? && HealthFactor(p, e, user).value >= 11_000_000))
  {
    hide PoolInv, RemoveCollateral, RemovalAllowed, WithCollateral, CollateralOf, BorrowLimit, HealthFactor, DebtUsd,
      CustodyOf;
    RemoveStagesIff(p, e, user, token, amount);
    RemovalIff(p, WithCollateral(p, user, token, CollateralOf(p, user, token) - amount, e.now), e, user);
  }

  // ---- Auctions, fees and the queue ----

  /** An interest auction is created exactly when the credit is at least 10^9 and the asset has a token. */
  lemma CreateInterestSucceedsIff(p: Pool, e: Env, contract: Address, asset: Symbol)
    ensures CreateInterestAuction(p, e, contract, asset).Ok? <==>
              CreditOf(p, asset) >= 1_000_000_000 && asset in p.tokenContract
  {
    hide AuctionId, Set;
  }

  /** Treasury fees are collected exactly when there are some and balance and custody cover them. */
  lemma CollectSucceedsIff(p: Pool, e: Env, asset: Symbol)
    requires PoolInv(p) && Representable(p, asset)
    ensures CollectTreasuryFees(p, e, asset).Ok? <==>
              var credit := ReserveOf(p, asset, 0).treasuryCredit;
              && 0 < credit <= BalanceOf(p, asset) && asset in p.tokenContract
              && credit <= CustodyOf(p, p.tokenContract[asset])
  {
    TreasuryNonNegative(p, asset);
    hide PoolInv;
  }

  /** Parameters are queued exactly when none are for the asset and the utilizations are ordered and in range;
      they are applied exactly when queued and unlocked. */
  lemma QueueSucceedsIff(p: Pool, e: Env, asset: Symbol, ps: InterestRateParams)
    ensures QueueReserveParams(p, e, asset, ps).Ok? <==>
              asset !in p.queued && ps.targetUtil <= 9_500_000 && ps.targetUtil < ps.maxUtil <= 10_000_000
    ensures ApplyQueuedParams(p, e, asset).Ok? <==> asset in p.queued && p.queued[asset].unlockTime <= e.now
  {
  }

  /** The lot can be computed exactly when the collateral is worth something and two products fit. */
  lemma LotIff(collateral: int, collateralValue: int, debtValue: int, premium: int, percent: U32)
    requires 0 <= collateral <= I128_MAX && debtValue >= 0 && 0 <= premium <= 15_000_000
    ensures LotAmount(collateral, collateralValue, debtValue, premium, percent).Ok? <==>
              && 0 < collateralValue && collateralValue * SCALAR_7 <= I128_MAX
              && premium * percent * debtValue <= I128_MAX
  {
    NumeratorNonNegative(premium, percent, debtValue);
    MulMono2(premium, 15_000_000, percent, TWO_TO_THE_32);
    MulMono2(0, premium, 0, percent);
    var numerator, denominator := premium * percent * debtValue, collateralValue * SCALAR_7;
    if 0 < collateralValue {
      CappedShare(collateral, numerator, denominator);
      FloorNonNegative(numerator, denominator);
    }
    hide FloorDiv;
  }

  lemma InitiateStagesIff(p: Pool, e: Env, user: Address, token: Address, asset: Symbol, percent: U32, premium: int)
    requires user in p.cdps && Premium(CollateralFactor(p, token)) == Ok(premium)
    ensures InitiateLiquidation(p, e, user, token, asset, percent).Ok? <==>
              && p.cdps[user].debtAsset == Some(asset) && asset in p.tokenContract
              && HealthFactor(p, e, user).Ok? && HealthFactor(p, e, user).value < 10_000_000
              && CollateralOf(p, user, token) != 0
              && token in e.collateralQuotes && e.collateralQuotes[token].price > 0
              && asset in e.assetQuotes && e.assetQuotes[asset].price > 0
              && var owed := FromDToken(p.cdps[user].dTokens, ReserveOf(p, asset, e.now).dRate);
              && owed.Ok? && MulScalar7(owed.value, percent).Ok?
              && var collateralValue := UsdValue(CollateralOf(p, user, token), e.collateralQuotes[token]);
              && var debtValue := UsdValue(owed.value, e.assetQuotes[asset]);
              && collateralValue.Ok? && debtValue.Ok?
              && LotAmount(CollateralOf(p, user, token), collateralValue.value, debtValue.value, premium, percent).Ok?
  {
    hide HealthFactor, FromDToken, UsdValue, MulScalar7, Premium, LotAmount, AuctionId, CollateralOf, ReserveOf,
      CollateralFactor, Set;
  }

  /** A liquidation starts exactly when the debt is in that asset, health is below 1.0, there is collateral of
      that token, both prices are known, the collateral is worth something, and the amounts fit. */
  lemma InitiateSucceedsIff(p: Pool, e: Env, user: Address, token: Address, asset: Symbol, percent: U32)
    requires PoolInv(p) && user in p.cdps && 0 <= CollateralOf(p, user, token) <= I128_MAX
    ensures InitiateLiquidation(p, e, user, token, asset, percent).Ok? <==>
              && p.cdps[user].debtAsset == Some(asset) && asset in p.tokenContract
              && HealthFactor(p, e, user).Ok? && HealthFactor(p, e, user).value < 10_000_000
              && CollateralOf(p, user, token) != 0
              && token in e.collateralQuotes && e.collateralQuotes[token].price > 0
              && asset in e.assetQuotes && e.assetQuotes[asset].price > 0
              && var owed := FromDToken(p.cdps[user].dTokens, ReserveOf(p, asset, e.now).dRate);
              && owed.Ok? && MulScalar7(owed.value, percent).Ok?
              && var collateralValue := UsdValue(CollateralOf(p, user, token), e.collateralQuotes[token]);
              && var debtValue := UsdValue(owed.value, e.assetQuotes[asset]);
              && collateralValue.Ok? && debtValue.Ok?
              && 0 < collateralValue.value && collateralValue.value * SCALAR_7 <= I128_MAX
              && (SCALAR_7 + (SCALAR_7 - CollateralFactor(p, token)) / 2) * percent * debtValue.value <= I128_MAX
  {
    hide PoolInv, InitiateLiquidation, HealthFactor, FromDToken, UsdValue, MulScalar7, Premium, LotAmount, CollateralOf,
      ReserveOf, CollateralFactor;
    LiquidationFacts.FactorBounded(p, token);
    PremiumRange(CollateralFactor(p, token));
    var premium := Premium(CollateralFactor(p, token)).value;
    InitiateStagesIff(p, e, user, token, asset, percent, premium);
    var owed := FromDToken(p.cdps[user].dTokens, ReserveOf(p, asset, e.now).dRate);
    if owed.Ok? && asset in e.assetQuotes && token in e.collateralQuotes {
      var collateralValue := UsdValue(CollateralOf(p, user, token), e.collateralQuotes[token]);
      var debtValue := UsdValue(owed.value, e.assetQuotes[asset]);
      if collateralValue.Ok? && debtValue.Ok? {
        OwedOfUser(p, e, user, asset);
        ValueNonNegative(owed.value, e.assetQuotes[asset]);
        LotIff(CollateralOf(p, user, token), collateralValue.value, debtValue.value, premium, percent);
      }
    }
  }

  lemma OwedOfUser(p: Pool, e: Env, user: Address, asset: Symbol)
    requires PoolInv(p) && user in p.cdps && FromDToken(p.cdps[user].dTokens, ReserveOf(p, asset, e.now).dRate).Ok?
    ensures FromDToken(p.cdps[user].dTokens, ReserveOf(p, asset, e.now).dRate).value >= 0
  {
    assert AssetInv(p, asset) && DebtorInv(p, user);
    hide PoolInv;
    OwedNonNegative(p.cdps[user].dTokens, ReserveOf(p, asset, e.now).dRate);
  }

  lemma PayIff(p: Pool, e: Env, asset: Symbol, interest: int)
    requires asset in p.tokenContract && 0 <= interest && BalanceOf(p, asset) <= I128_MAX
    ensures PayInterest(p, e, asset, p.tokenContract[asset], interest).Ok? <==>
              interest == 0 || (interest <= BalanceOf(p, asset) && interest <= CustodyOf(p, p.tokenContract[asset]))
  {
    hide BalanceOf, CustodyOf, SaturatingSub;
  }

  lemma InterestAmounts(lot: int, fillPercent: int, modifier: int)
    requires 0 <= lot <= I128_MAX && 0 < fillPercent <= SCALAR_7 && 0 <= modifier <= SCALAR_12
    ensures var interest := FloorDiv(lot * fillPercent, SCALAR_7);
            && 0 <= interest <= lot && MulScalar7(lot, fillPercent) == Ok(interest)
            && MulDivFloor(interest, SCALAR_12, SCALAR_12) == Ok(interest)
            && MulDivFloor(interest, modifier, SCALAR_12).Ok?
  {
    InterestAuctionFacts.PartialInterest(lot, fillPercent);
    var interest := FloorDiv(lot * fillPercent, SCALAR_7);
    WholeTokens(interest);
    ScaledRange(interest, modifier);
    hide FloorDiv;
  }

  lemma ModifierBounds(blocks: int)
    requires blocks >= 0
    ensures 0 <= InterestBidModifier(blocks) <= SCALAR_12
  {
  }

  /** An interest fill goes through exactly when the percentage is in (0, 1.0], the auction is an interest
      auction that has started and holds a lot of the asset's token, and balance and custody cover the payout. */
  lemma FillInterestSucceedsIff(p: Pool, e: Env, id: int, asset: Symbol, fillPercent: int)
    requires id in p.auctions && asset in p.tokenContract && BalanceOf(p, asset) <= I128_MAX
    requires 0 <= GetOr(p.auctions[id].lot, p.tokenContract[asset], 0) <= I128_MAX
    ensures var lot, token := GetOr(p.auctions[id].lot, p.tokenContract[asset], 0), p.tokenContract[asset];
            FillInterestAuction(p, e, id, asset, fillPercent).Ok? <==>
              && 0 < fillPercent <= 10_000_000 && p.auctions[id].auctionType == AuctionType.Interest
              && e.sequence >= p.auctions[id].block && lot > 0
              && var interest := FloorDiv(lot * fillPercent, 10_000_000);
              interest == 0 || (interest <= BalanceOf(p, asset) && interest <= CustodyOf(p, token))
  {
    hide PayInterest, MulScalar7, MulDivFloor, InterestBidModifier, Get, GetOr, BalanceOf, CustodyOf, Set,
      SaturatingSub, FloorDiv;
    var lot := GetOr(p.auctions[id].lot, p.tokenContract[asset], 0);
    if 0 < fillPercent <= SCALAR_7 && e.sequence >= p.auctions[id].block {
      ModifierBounds(e.sequence - p.auctions[id].block);
      InterestAmounts(lot, fillPercent, InterestBidModifier(e.sequence - p.auctions[id].block));
      PayIff(p, e, asset, FloorDiv(lot * fillPercent, SCALAR_7));
    }
  }

  // ---- Filling a liquidation ----

  lemma TransfersIff(p: Pool, token: Address, debtToken: Address, received: int, paid: int)
    requires 0 <= received <= I128_MAX && 0 <= paid && p.liquidationFeeRate <= SCALAR_7
    ensures FillTransfers(p, token, debtToken, received, paid).Ok? <==>
              received <= CustodyOf(p, token) + if token == debtToken then paid else 0
  {
    FeeWithin(received, p.liquidationFeeRate);
    var fee := CeilDiv(received * p.liquidationFeeRate, SCALAR_7);
    var p1 := Receive(p, debtToken, paid).value;
    ReceiveEffect(p, debtToken, paid);
    hide MulScalar7Ceil, CeilDiv, CustodyOf;
    if received - fee <= CustodyOf(p1, token) {
      SendEffect(p1, token, received - fee);
    }
  }

  lemma FeeWithin(amount: int, rate: int)
    requires 0 <= amount <= I128_MAX && 0 <= rate <= SCALAR_7
    ensures MulScalar7Ceil(amount, rate) == Ok(CeilDiv(amount * rate, SCALAR_7))
    ensures 0 <= CeilDiv(amount * rate, SCALAR_7) <= amount
  {
    MulMono2(0, amount, 0, rate);
    MulMono2(amount, amount, rate, SCALAR_7);
    CeilMono(0, amount * rate, SCALAR_7);
    CeilIsLeast(amount * rate, SCALAR_7, amount);
  }

  /** The borrower's position after a fill that takes `received` of the collateral and burns `burnt`. */
  function AfterFill(p: Pool, e: Env, user: Address, token: Address, received: int, burnt: int): Pool
    requires user in p.cdps
  {
    var cdp := p.cdps[user];
    p.(cdps := p.cdps[user := cdp.(dTokens := cdp.dTokens - burnt, lastUpdate := e.now,
                                   debtAsset := if cdp.dTokens == burnt then None else cdp.debtAsset,
                                   collateral := Set(cdp.collateral, token,
                                     GetOr(cdp.collateral, token, 0) - received))])
  }

  lemma BooksIff(p: Pool, e: Env, user: Address, token: Address, asset: Symbol, received: int, paid: int, rate: int)
    requires user in p.cdps && p.cdps[user].debtAsset == Some(asset) && rate == ReserveOf(p, asset, e.now).dRate > 0
    requires 0 <= received <= I128_MAX && 0 <= paid && 0 <= BalanceOf(p, asset)
    requires 0 <= GetOr(p.cdps[user].collateral, token, 0) <= I128_MAX
    requires 0 <= p.cdps[user].dTokens <= I128_MAX && 0 <= Holding(p.dTokens, user, asset) <= I128_MAX
    ensures FillBooks(p, e, user, token, received, paid).Ok? <==>
              FloorDiv(paid * SCALAR_12, rate) <= I128_MAX && BalanceOf(p, asset) + paid <= I128_MAX
    ensures FillBooks(p, e, user, token, received, paid).Ok? ==>
              FillBooks(p, e, user, token, received, paid).value.cdps
                == AfterFill(p, e, user, token, received, FloorDiv(paid * SCALAR_12, rate)).cdps
  {
    FloorNonNegative(paid * SCALAR_12, rate);
    hide FloorDiv, Set, GetOr, Holding, BalanceOf, ReserveOf;
    if FillBooks(p, e, user, token, received, paid).Ok? {
      var a, burnt := BooksEffect(p, e, user, token, received, paid);
      RateIgnoresClock(p, asset, e.now);
    }
  }

  /** What a fill that many blocks in hands over and asks for. */
  function Received(auction: Auction, blocks: int): int
    requires auction.lot != []
  {
    FloorDiv(auction.lot[0].value * Min(blocks, 200), 200)
  }

  function PaidIn(auction: Auction, blocks: int): int
    requires auction.bid != []
  {
    FloorDiv(auction.bid[0].value * Max(0, Min(200, 400 - blocks)), 200)
  }

  lemma AmountsOk(auction: Auction, blocks: int)
    requires blocks >= 0 && auction.lot != [] && auction.bid != []
    requires 0 <= auction.lot[0].value <= I128_MAX && 0 <= auction.bid[0].value <= I128_MAX
    ensures FillAmounts(auction, blocks) == Ok((Received(auction, blocks), PaidIn(auction, blocks)))
    ensures 0 <= Received(auction, blocks) <= auction.lot[0].value && 0 <= PaidIn(auction, blocks)
  {
    hide AuctionModifiers, FloorDiv;
    ModifierRange(blocks);
    ScaledRange(auction.lot[0].value, AuctionModifiers(blocks).0);
    ScaledRange(auction.bid[0].value, AuctionModifiers(blocks).1);
    LiquidationFacts.FillAmountsAre(auction, blocks);
  }

  /** A liquidation that has started, of a borrower with a position. */
  predicate Fillable(p: Pool, e: Env, id: int) {
    && id in p.auctions && p.auctions[id].auctionType == UserLiquidation
    && p.auctions[id].block <= e.sequence && p.auctions[id].user in p.cdps
    && p.auctions[id].lot != [] && p.auctions[id].bid != []
  }

  lemma FillStagesIff(p: Pool, e: Env, id: int, received: int, paid: int)
    requires Fillable(p, e, id) && p.auctions[id].lot[0].key >= 0 && p.auctions[id].bid[0].key >= 0
    requires FillAmounts(p.auctions[id], e.sequence - p.auctions[id].block) == Ok((received, paid))
    ensures var user, token, debtToken := p.auctions[id].user, p.auctions[id].lot[0].key, p.auctions[id].bid[0].key;
            var moved := FillTransfers(p, token, debtToken, received, paid);
            FillAuction(p, e, id).Ok? <==>
              && moved.Ok?
              && var books := FillBooks(moved.value.0, e, user, token, received, paid);
              && books.Ok? && HealthFactor(books.value, e, user).Ok?
              && HealthFactor(books.value, e, user).value <= 11_500_000
  {
    hide FillTransfers, FillBooks, FillAmounts, HealthFactor;
  }

  /** A liquidation that has started is filled exactly when the pool holds the collateral, the amounts fit, and
      the position it leaves has a health factor of at most 1.15. */
  lemma FillSucceedsIff(p: Pool, e: Env, id: int, asset: Symbol)
    requires PoolInv(p) && Fillable(p, e, id) && p.cdps[p.auctions[id].user].debtAsset == Some(asset)
    requires p.auctions[id].lot[0].key >= 0
    requires 0 <= CollateralOf(p, p.auctions[id].user, p.auctions[id].lot[0].key) <= I128_MAX
    requires p.auctions[id].lot[0].value <= I128_MAX && p.auctions[id].bid[0].value <= I128_MAX
    requires Holding(p.dTokens, p.auctions[id].user, asset) <= I128_MAX
    ensures var auction := p.auctions[id];
            var blocks, user, token, debtToken := e.sequence - auction.block, auction.user, auction.lot[0].key,
              auction.bid[0].key;
            var received, paid := Received(auction, blocks), PaidIn(auction, blocks);
            var rate := ReserveOf(p, asset, 0).dRate;
            && rate > 0
            && (FillAuction(p, e, id).Ok? <==>
                  && received <= CustodyOf(p, token) + (if token == debtToken then paid else 0)
                  && FloorDiv(paid * SCALAR_12, rate) <= I128_MAX && BalanceOf(p, asset) + paid <= I128_MAX
                  && var after := AfterFill(p, e, user, token, received, FloorDiv(paid * SCALAR_12, rate));
                  && HealthFactor(after, e, user).Ok? && HealthFactor(after, e, user).value <= 11_500_000)
  {
    hide FillAuction, FillTransfers, FillBooks, FillAmounts, HealthFactor, PoolInv, Received, PaidIn, FloorDiv,
      AfterFill, Set, Get;
    var auction := p.auctions[id];
    var blocks, user, token, debtToken := e.sequence - auction.block, auction.user, auction.lot[0].key,
      auction.bid[0].key;
    FillFacts(p, id, asset);
    AmountsOk(auction, blocks);
    var received, paid := Received(auction, blocks), PaidIn(auction, blocks);
    FillStagesIff(p, e, id, received, paid);
    TransfersIff(p, token, debtToken, received, paid);
    if FillTransfers(p, token, debtToken, received, paid).Ok? {
      TransfersEffect(p, token, debtToken, received, paid);
      MovedIff(p, FillTransfers(p, token, debtToken, received, paid).value.0, e, user, token, asset, received, paid);
    }
  }

  lemma FillFacts(p: Pool, id: int, asset: Symbol)
    requires PoolInv(p) && id in p.auctions && p.auctions[id].auctionType == UserLiquidation
    requires p.auctions[id].user in p.cdps && p.cdps[p.auctions[id].user].debtAsset == Some(asset)
    ensures p.auctions[id].lot != [] && p.auctions[id].lot[0].value >= 0
    ensures p.auctions[id].bid != [] && p.auctions[id].bid[0].value >= 0 && p.auctions[id].bid[0].key >= 0
    ensures ReserveOf(p, asset, 0).dRate > 0 && p.liquidationFeeRate <= SCALAR_7 && BalanceOf(p, asset) >= 0
    ensures 0 <= p.cdps[p.auctions[id].user].dTokens == Holding(p.dTokens, p.auctions[id].user, asset)
  {
    assert AuctionInv(p, id) && AssetInv(p, asset) && DebtorInv(p, p.auctions[id].user);
    BalanceNonNegative(p, asset);
  }

  /** Where tokens are does not matter to the bookkeeping that follows. */
  lemma MovedIff(p: Pool, moved: Pool, e: Env, user: Address, token: Address, asset: Symbol, received: int, paid: int)
    requires user in p.cdps && p.cdps[user].debtAsset == Some(asset) && ReserveOf(p, asset, 0).dRate > 0
    requires moved == p.(custody := moved.custody)
    requires 0 <= received <= I128_MAX && 0 <= paid && 0 <= BalanceOf(p, asset)
    requires 0 <= CollateralOf(p, user, token) <= I128_MAX
    requires 0 <= p.cdps[user].dTokens == Holding(p.dTokens, user, asset) <= I128_MAX
    ensures var burnt := FloorDiv(paid * SCALAR_12, ReserveOf(p, asset, 0).dRate);
            var books, after := FillBooks(moved, e, user, token, received, paid), AfterFill(p, e, user, token, received,
              burnt);
            && (books.Ok? <==> burnt <= I128_MAX && BalanceOf(p, asset) + paid <= I128_MAX)
            && (books.Ok? ==> HealthFactor(books.value, e, user) == HealthFactor(after, e, user))
  {
    hide FillBooks, HealthFactor, FloorDiv, Set;
    RateIgnoresClock(p, asset, e.now);
    assert ReserveOf(moved, asset, e.now) == ReserveOf(p, asset, e.now);
    BooksIff(moved, e, user, token, asset, received, paid, ReserveOf(p, asset, e.now).dRate);
    var books := FillBooks(moved, e, user, token, received, paid);
    if books.Ok? {
      var a, burnt := BooksEffect(moved, e, user, token, received, paid);
      LiquidationFacts.HealthFrame(books.value,
        AfterFill(p, e, user, token, received, FloorDiv(paid * SCALAR_12, ReserveOf(p, asset, 0).dRate)), e, user);
    }
  }
}
