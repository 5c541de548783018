/** Every step of the pool keeps the invariant and lowers no reserve's equity. */
module PoolSteps {
  import opened Outcomes
  import opened FixedPoint
  import opened Tables
  import opened Sums
  import opened PoolTypes
  import opened PoolStore
  import opened Valuation
  import opened PoolOperations
  import opened AccrualFacts
  import opened Interest
  import opened PoolInvariants

  ghost predicate Kept(p: Pool, p': Pool) {
    PoolInv(p') && forall a: Symbol :: Progress(p, p', a)
  }

  /** No debt token was left without a holder. */
  ghost predicate SameOrphans(p: Pool, p': Pool) {
    forall a: Symbol :: OrphanedDebt(p', a) == OrphanedDebt(p, a)
  }

  ghost predicate KeptExactly(p: Pool, p': Pool) {
    Kept(p, p') && SameOrphans(p, p')
  }

  /** `p'` is `p` with `amount` underlying and `bTokens` bTokens of `user` moved in (or out, when negative). */
  ghost predicate LendingWrite(p: Pool, p': Pool, user: Address, asset: Symbol, r: Reserve, amount: int, bTokens: int) {
    && asset in p.tokenContract
    && p' == p.(reserves := p.reserves[asset := r.(bSupply := r.bSupply + bTokens)],
                poolBalance := p.poolBalance[asset := BalanceOf(p, asset) + amount],
                bTokens := p.bTokens[UserAsset(user, asset) := Holding(p.bTokens, user, asset) + bTokens],
                custody := p.custody[p.tokenContract[asset] := CustodyOf(p, p.tokenContract[asset]) + amount])
    && Holding(p.bTokens, user, asset) + bTokens >= 0
  }

  lemma LendingLedger(p: Pool, p': Pool, user: Address, asset: Symbol, r: Reserve, amount: int, bTokens: int)
    requires LedgerInv(p) && Aged(ReserveOf(p, asset, 0), r)
    requires LendingWrite(p, p', user, asset, r, amount, bTokens)
    ensures LedgerInv(p') && SameOrphans(p, p')
  {
    hide TokenSum;
    forall a: Symbol
      ensures LedgerAsset(p', a) && OrphanedDebt(p', a) == OrphanedDebt(p, a)
    {
      assert LedgerAsset(p, a);
      TokenSumUpdate(p.bTokens, user, asset, Holding(p.bTokens, user, asset) + bTokens, a);
    }
    forall u: Address ensures DebtorInv(p', u) { assert DebtorInv(p, u); }
    CustodyElsewhere(p, p', p.tokenContract[asset]);
    SameAuctions(p, p');
  }

  /** A lending write at a fair price that the balance allows. */
  ghost predicate LendingMove(p: Pool, p': Pool, user: Address, asset: Symbol, r: Reserve, amount: int, bTokens: int) {
    && LendingWrite(p, p', user, asset, r, amount, bTokens)
    && Accrued(ReserveOf(p, asset, 0), r)
    && bTokens * r.bRate <= amount * SCALAR_12
    && BalanceOf(p, asset) + amount >= 0
  }

  lemma LendingMoveAsset(p: Pool, p': Pool, user: Address, asset: Symbol, r: Reserve, amount: int, bTokens: int)
    requires PoolInv(p) && LendingMove(p, p', user, asset, r, amount, bTokens) && LedgerInv(p')
    ensures AssetInv(p', asset) && Progress(p, p', asset) && OnlyAsset(p, p', asset)
  {
    hide TokenSum;
    assert AssetInv(p, asset);
    DepositEquity(BalanceOf(p, asset), r, amount, bTokens);
    assert LedgerAsset(p', asset);
    SuppliesNonNegative(p', asset);
    SolventIsEquity(p, asset);
    SolventIsEquity(p', asset);
  }

  lemma LendingMoveKeeps(p: Pool, p': Pool, user: Address, asset: Symbol, r: Reserve, amount: int, bTokens: int)
    requires PoolInv(p) && LendingMove(p, p', user, asset, r, amount, bTokens)
    ensures KeptExactly(p, p')
  {
    hide TokenSum, Progress;
    PoolIsLedger(p);
    LendingLedger(p, p', user, asset, r, amount, bTokens);
    LendingMoveAsset(p, p', user, asset, r, amount, bTokens);
    OtherAssets(p, p', asset);
  }

  /** What the invariant says about the accrued reserve and the user's positions in a call. */
  lemma CallFacts(p: Pool, e: Env, user: Address, asset: Symbol)
    requires PoolInv(p) && AccruedReserve(p, e, asset).Ok?
    ensures Accrued(ReserveOf(p, asset, 0), AccruedReserve(p, e, asset).value)
    ensures AccruedReserve(p, e, asset).value.bRate > 0 && AccruedReserve(p, e, asset).value.dRate > 0
    ensures BalanceOf(p, asset) >= 0
    ensures Holding(p.bTokens, user, asset) >= 0
    ensures CDPOrNew(p, user, e.now).dTokens >= 0 && Holding(p.dTokens, user, asset) >= 0
    ensures CDPOrNew(p, user, e.now).debtAsset == Some(asset) ==>
              Holding(p.dTokens, user, asset) == CDPOrNew(p, user, e.now).dTokens
    ensures 0 <= p.originationFeeRate
  {
    assert AssetInv(p, asset);
    assert DebtorInv(p, user);
    AccruedReserveFacts(p, e, asset);
  }

  lemma CallLedger(p: Pool, e: Env, user: Address, asset: Symbol)
    requires LedgerInv(p) && AccruedReserve(p, e, asset).Ok?
    ensures Aged(ReserveOf(p, asset, 0), AccruedReserve(p, e, asset).value)
    ensures Holding(p.bTokens, user, asset) >= 0
    ensures CDPOrNew(p, user, e.now).dTokens >= 0
    ensures CDPOrNew(p, user, e.now).debtAsset == Some(asset) ==>
              Holding(p.dTokens, user, asset) == CDPOrNew(p, user, e.now).dTokens
  {
    AccruedAges(p, e, asset);
    assert DebtorInv(p, user);
    hide TokenSum, AccruedReserve;
  }

  lemma DepositBooksEffect(p: Pool, user: Address, asset: Symbol, amount: int, r: Reserve)
    requires DepositBooks(p, user, asset, amount, r).Ok?
    ensures r.bRate > 0 && asset in p.tokenContract
    ensures var (p', bTokens) := DepositBooks(p, user, asset, amount, r).value;
            && bTokens == FloorDiv(amount * SCALAR_12, r.bRate)
            && p' == p.(reserves := p.reserves[asset := r.(bSupply := r.bSupply + bTokens)],
                        poolBalance := p.poolBalance[asset := BalanceOf(p, asset) + amount],
                        bTokens := p.bTokens[UserAsset(user, asset) := Holding(p.bTokens, user, asset) + bTokens],
                        custody := p.custody[p.tokenContract[asset] := CustodyOf(p, p.tokenContract[asset]) + amount])
  {
    hide CustodyOf, BalanceOf, Holding;
  }

  lemma DepositEffect(p: Pool, e: Env, user: Address, asset: Symbol, amount: int) returns (r: Reserve)
    requires Deposit(p, e, user, asset, amount).Ok?
    ensures AccruedReserve(p, e, asset) == Ok(r) && r.bRate > 0
    ensures var (p', bTokens) := Deposit(p, e, user, asset, amount).value;
            && asset in p.tokenContract && amount > 0
            && bTokens == FloorDiv(amount * SCALAR_12, r.bRate)
            && p' == p.(reserves := p.reserves[asset := r.(bSupply := r.bSupply + bTokens)],
                        poolBalance := p.poolBalance[asset := BalanceOf(p, asset) + amount],
                        bTokens := p.bTokens[UserAsset(user, asset) := Holding(p.bTokens, user, asset) + bTokens],
                        custody := p.custody[p.tokenContract[asset] := CustodyOf(p, p.tokenContract[asset]) + amount])
  {
    hide AccruedReserve, DepositBooks, CustodyOf, BalanceOf, Holding, FloorDiv;
    r := AccruedReserve(p, e, asset).value;
    DepositBooksEffect(p, user, asset, amount, r);
  }

  lemma DepositWrites(p: Pool, e: Env, user: Address, asset: Symbol, amount: int) returns (r: Reserve)
    requires LedgerInv(p) && Deposit(p, e, user, asset, amount).Ok?
    ensures AccruedReserve(p, e, asset) == Ok(r) && Aged(ReserveOf(p, asset, 0), r) && amount > 0
    ensures var (p', bTokens) := Deposit(p, e, user, asset, amount).value;
            LendingWrite(p, p', user, asset, r, amount, bTokens) && bTokens * r.bRate <= amount * SCALAR_12
  {
    hide Deposit, AccruedReserve, Aged, LedgerInv, FloorDiv;
    r := DepositEffect(p, e, user, asset, amount);
    CallLedger(p, e, user, asset);
    FloorNonNegative(amount * SCALAR_12, r.bRate);
  }

  lemma DepositKeeps(p: Pool, e: Env, user: Address, asset: Symbol, amount: int)
    requires PoolInv(p) && Deposit(p, e, user, asset, amount).Ok?
    ensures KeptExactly(p, Deposit(p, e, user, asset, amount).value.0)
  {
    hide Deposit, AccruedReserve, Accrued, KeptExactly, PoolInv, LedgerInv, LendingWrite;
    PoolIsLedger(p);
    var r := DepositWrites(p, e, user, asset, amount);
    CallFacts(p, e, user, asset);
    var (p', bTokens) := Deposit(p, e, user, asset, amount).value;
    LendingMoveKeeps(p, p', user, asset, r, amount, bTokens);
  }

  lemma WithdrawEffect(p: Pool, e: Env, user: Address, asset: Symbol, bTokens: int) returns (r: Reserve)
    requires Withdraw(p, e, user, asset, bTokens).Ok?
    ensures AccruedReserve(p, e, asset) == Ok(r)
    ensures var (p', amount) := Withdraw(p, e, user, asset, bTokens).value;
            var burnt := Min(bTokens, Holding(p.bTokens, user, asset));
            && asset in p.tokenContract && amount <= BalanceOf(p, asset)
            && amount == FloorDiv(burnt * r.bRate, SCALAR_12)
            && p' == p.(reserves := p.reserves[asset := r.(bSupply := r.bSupply - burnt)],
                        poolBalance := p.poolBalance[asset := BalanceOf(p, asset) - amount],
                        bTokens := p.bTokens[UserAsset(user, asset) := Holding(p.bTokens, user, asset) - burnt],
                        custody := p.custody[p.tokenContract[asset] := CustodyOf(p, p.tokenContract[asset]) - amount])
  {
    hide AccruedReserve, Interest.Utilization;
    r := AccruedReserve(p, e, asset).value;
  }

  lemma Negated(tokens: int, rate: int, amount: int)
    requires amount * SCALAR_12 <= tokens * rate
    ensures -tokens * rate <= -amount * SCALAR_12
  {
    assert -tokens * rate == -(tokens * rate);
  }

  lemma NegatedUp(tokens: int, rate: int, amount: int)
    requires tokens * rate <= amount * SCALAR_12
    ensures -amount * SCALAR_12 <= -tokens * rate
  {
    assert -tokens * rate == -(tokens * rate);
  }

  lemma WithdrawWrites(p: Pool, e: Env, user: Address, asset: Symbol, bTokens: int) returns (r: Reserve, burnt: int)
    requires LedgerInv(p) && Withdraw(p, e, user, asset, bTokens).Ok?
    ensures AccruedReserve(p, e, asset) == Ok(r) && Aged(ReserveOf(p, asset, 0), r)
    ensures var (p', amount) := Withdraw(p, e, user, asset, bTokens).value;
            && LendingWrite(p, p', user, asset, r, -amount, -burnt) && amount <= BalanceOf(p, asset)
            && -burnt * r.bRate <= -amount * SCALAR_12
  {
    hide Withdraw, AccruedReserve, Aged, LedgerInv, FloorDiv;
    r := WithdrawEffect(p, e, user, asset, bTokens);
    CallLedger(p, e, user, asset);
    burnt := Min(bTokens, Holding(p.bTokens, user, asset));
    Negated(burnt, r.bRate, Withdraw(p, e, user, asset, bTokens).value.1);
  }

  lemma WithdrawKeeps(p: Pool, e: Env, user: Address, asset: Symbol, bTokens: int)
    requires PoolInv(p) && Withdraw(p, e, user, asset, bTokens).Ok?
    ensures KeptExactly(p, Withdraw(p, e, user, asset, bTokens).value.0)
  {
    hide Withdraw, AccruedReserve, Accrued, KeptExactly, PoolInv, LedgerInv, LendingWrite;
    PoolIsLedger(p);
    var r, burnt := WithdrawWrites(p, e, user, asset, bTokens);
    CallFacts(p, e, user, asset);
    var (p', amount) := Withdraw(p, e, user, asset, bTokens).value;
    LendingMoveKeeps(p, p', user, asset, r, -amount, -burnt);
  }

  /** `p'` is `p` with `dTokens` of debt added to (or removed from) `user`, `amount` underlying
      added to the pool and `fee` credited to the treasury. */
  ghost predicate DebtWrite(p: Pool, p': Pool, user: Address, asset: Symbol, r: Reserve, amount: int, fee: int,
      dTokens: int, now: nat) {
    var cdp := CDPOrNew(p, user, now);
    var debt := cdp.dTokens + dTokens;
    && asset in p.tokenContract
    && (cdp.debtAsset.None? || cdp.debtAsset.value == asset)
    && (dTokens < 0 ==> cdp.debtAsset.Some?)
    && p' == p.(reserves := p.reserves[asset := r.(dSupply := r.dSupply + dTokens,
                                                   treasuryCredit := r.treasuryCredit + fee)],
                poolBalance := p.poolBalance[asset := BalanceOf(p, asset) + amount],
                cdps := p.cdps[user := cdp.(dTokens := debt, lastUpdate := now,
                                            debtAsset := if debt == 0 then None else Some(asset))],
                dTokens := p.dTokens[UserAsset(user, asset) := Holding(p.dTokens, user, asset) + dTokens],
                custody := p.custody[p.tokenContract[asset] := CustodyOf(p, p.tokenContract[asset]) + amount])
    && debt >= 0
  }

  lemma DebtSums(p: Pool, p': Pool, user: Address, asset: Symbol, r: Reserve, amount: int, fee: int, dTokens: int,
      now: nat)
    requires LedgerInv(p) && Aged(ReserveOf(p, asset, 0), r)
    requires DebtWrite(p, p', user, asset, r, amount, fee, dTokens, now)
    ensures forall a: Symbol :: LedgerAsset(p', a) && OrphanedDebt(p', a) == OrphanedDebt(p, a)
    ensures forall k :: k in p'.dTokens ==> p'.dTokens[k] >= 0
  {
    hide TokenSum;
    assert DebtorInv(p, user);
    forall a: Symbol
      ensures LedgerAsset(p', a) && OrphanedDebt(p', a) == OrphanedDebt(p, a)
    {
      assert LedgerAsset(p, a);
      TokenSumUpdate(p.dTokens, user, asset, Holding(p.dTokens, user, asset) + dTokens, a);
    }
  }

  lemma DebtLedger(p: Pool, p': Pool, user: Address, asset: Symbol, r: Reserve, amount: int, fee: int, dTokens: int,
      now: nat)
    requires LedgerInv(p) && Aged(ReserveOf(p, asset, 0), r)
    requires DebtWrite(p, p', user, asset, r, amount, fee, dTokens, now)
    ensures LedgerInv(p') && SameOrphans(p, p')
  {
    hide TokenSum, LedgerAsset, OrphanedDebt;
    DebtSums(p, p', user, asset, r, amount, fee, dTokens, now);
    assert DebtorInv(p, user);
    forall u: Address
      ensures DebtorInv(p', u)
    {
      assert DebtorInv(p, u);
      assert forall a: Symbol ::
        Holding(p'.dTokens, u, a) == Holding(p.dTokens, u, a) + if u == user && a == asset then dTokens else 0;
    }
    SameCollateral(p.cdps, user, p'.cdps[user]);
    CustodyElsewhere(p, p', p.tokenContract[asset]);
    SameAuctions(p, p');
  }

  /** A debt write that charges at least what it hands out and the fee. */
  ghost predicate DebtMove(p: Pool, p': Pool, user: Address, asset: Symbol, r: Reserve, amount: int, fee: int,
      dTokens: int, now: nat) {
    && DebtWrite(p, p', user, asset, r, amount, fee, dTokens, now)
    && Accrued(ReserveOf(p, asset, 0), r)
    && (-amount + fee) * SCALAR_12 <= dTokens * r.dRate
    && fee >= 0 && BalanceOf(p, asset) + amount >= 0
  }

  lemma DebtMoveAsset(p: Pool, p': Pool, user: Address, asset: Symbol, r: Reserve, amount: int, fee: int, dTokens: int,
      now: nat)
    requires PoolInv(p) && DebtMove(p, p', user, asset, r, amount, fee, dTokens, now) && LedgerInv(p')
    ensures AssetInv(p', asset) && Progress(p, p', asset) && OnlyAsset(p, p', asset)
  {
    hide TokenSum;
    assert AssetInv(p, asset);
    BorrowEquity(BalanceOf(p, asset), r, -amount, fee, dTokens);
    assert LedgerAsset(p', asset);
    SuppliesNonNegative(p', asset);
    SolventIsEquity(p, asset);
    SolventIsEquity(p', asset);
  }

  lemma DebtMoveKeeps(p: Pool, p': Pool, user: Address, asset: Symbol, r: Reserve, amount: int, fee: int, dTokens: int,
      now: nat)
    requires PoolInv(p) && DebtMove(p, p', user, asset, r, amount, fee, dTokens, now)
    ensures KeptExactly(p, p')
  {
    hide TokenSum, Progress;
    PoolIsLedger(p);
    DebtLedger(p, p', user, asset, r, amount, fee, dTokens, now);
    DebtMoveAsset(p, p', user, asset, r, amount, fee, dTokens, now);
    OtherAssets(p, p', asset);
  }

  lemma PayOutEffect(p: Pool, asset: Symbol, amount: int, r: Reserve)
    requires PayOut(p, asset, amount, r).Ok?
    ensures asset in p.tokenContract
    ensures PayOut(p, asset, amount, r).value
         == p.(reserves := p.reserves[asset := r],
               custody := p.custody[p.tokenContract[asset] := CustodyOf(p, p.tokenContract[asset]) - amount])
  {
    hide Interest.Utilization;
  }

  lemma BorrowPaysOut(p: Pool, e: Env, user: Address, asset: Symbol, amount: int, r: Reserve)
    requires BorrowBooks(p, e, user, asset, amount, r).Ok?
    ensures BorrowMint(p, amount, r).Ok?
    ensures var minted := BorrowMint(p, amount, r).value;
            var cdp := CDPOrNew(p, user, e.now);
            && asset in p.tokenContract && amount <= BalanceOf(p, asset)
            && BorrowBooks(p, e, user, asset, amount, r).value
                 == (p.(reserves := p.reserves[asset := minted.0],
                        poolBalance := p.poolBalance[asset := BalanceOf(p, asset) - amount],
                        cdps := p.cdps[user := cdp.(dTokens := cdp.dTokens + minted.1, debtAsset := Some(asset),
                          lastUpdate := e.now)],
                        dTokens := p.dTokens[UserAsset(user, asset) := Holding(p.dTokens, user, asset) + minted.1],
                        custody := p.custody[p.tokenContract[asset] := CustodyOf(p, p.tokenContract[asset]) - amount]),
                     minted.1)
  {
    hide PayOut, BorrowMint;
    var minted := BorrowMint(p, amount, r).value;
    var cdp := CDPOrNew(p, user, e.now);
    PayOutEffect(p.(poolBalance := p.poolBalance[asset := BalanceOf(p, asset) - amount],
                    cdps := p.cdps[user := cdp.(debtAsset := Some(asset), dTokens := cdp.dTokens + minted.1,
                      lastUpdate := e.now)],
                    dTokens := p.dTokens[UserAsset(user, asset) := Holding(p.dTokens, user, asset) + minted.1]),
                 asset, amount, minted.0);
  }

  lemma MintValue(p: Pool, amount: int, r: Reserve)
    requires BorrowMint(p, amount, r).Ok?
    ensures var fee := CeilDiv(amount * p.originationFeeRate, SCALAR_7);
            && r.dRate > 0
            && BorrowMint(p, amount, r).value.1 == CeilDiv((amount + fee) * SCALAR_12, r.dRate)
            && BorrowMint(p, amount, r).value.0 == r.(dSupply := r.dSupply + BorrowMint(p, amount, r).value.1,
                                                      treasuryCredit := if fee > 0 then r.treasuryCredit + fee
                                                        else r.treasuryCredit)
  {
    hide CeilDiv;
  }

  lemma AllowedAsset(p: Pool, e: Env, user: Address, asset: Symbol, amount: int)
    requires BorrowAllowed(p, e, user, asset, amount).Ok?
    ensures var cdp := CDPOrNew(p, user, e.now); cdp.debtAsset.None? || cdp.debtAsset.value == asset
  {
    hide BorrowLimit, QuoteFor, UsdValue, EffectiveDebt;
  }

  lemma BorrowEffect(p: Pool, e: Env, user: Address, asset: Symbol, amount: int) returns (r: Reserve)
    requires Borrow(p, e, user, asset, amount).Ok?
    ensures AccruedReserve(p, e, asset) == Ok(r) && r.dRate > 0
    ensures var (p', dTokens) := Borrow(p, e, user, asset, amount).value;
            var cdp := CDPOrNew(p, user, e.now);
            var fee := CeilDiv(amount * p.originationFeeRate, SCALAR_7);
            && asset in p.tokenContract && 0 < amount <= BalanceOf(p, asset)
            && (cdp.debtAsset.None? || cdp.debtAsset.value == asset)
            && dTokens == CeilDiv((amount + fee) * SCALAR_12, r.dRate)
            && p' == p.(reserves := p.reserves[asset := r.(dSupply := r.dSupply + dTokens,
                                                           treasuryCredit := if fee > 0 then r.treasuryCredit + fee
                                                             else r.treasuryCredit)],
                        poolBalance := p.poolBalance[asset := BalanceOf(p, asset) - amount],
                        cdps := p.cdps[user := cdp.(dTokens := cdp.dTokens + dTokens, debtAsset := Some(asset),
                          lastUpdate := e.now)],
                        dTokens := p.dTokens[UserAsset(user, asset) := Holding(p.dTokens, user, asset) + dTokens],
                        custody := p.custody[p.tokenContract[asset] := CustodyOf(p, p.tokenContract[asset]) - amount])
  {
    hide AccruedReserve, BorrowAllowed, BorrowBooks, BorrowMint, CeilDiv;
    r := AccruedReserve(p, e, asset).value;
    BorrowPaysOut(p, e, user, asset, amount, r);
    MintValue(p, amount, r);
    AllowedAsset(p, e, user, asset, amount);
  }

  lemma MintPositive(amount: int, feeRate: int, dRate: int)
    requires amount > 0 && feeRate >= 0 && dRate > 0
    ensures CeilDiv(amount * feeRate, SCALAR_7) >= 0
    ensures CeilDiv((amount + CeilDiv(amount * feeRate, SCALAR_7)) * SCALAR_12, dRate) > 0
  {
    MulMono2(0, amount, 0, feeRate);
    CeilMono(0, amount * feeRate, SCALAR_7);
    CeilMono(1, (amount + CeilDiv(amount * feeRate, SCALAR_7)) * SCALAR_12, dRate);
  }

  lemma BorrowWrites(p: Pool, e: Env, user: Address, asset: Symbol, amount: int) returns (r: Reserve, fee: int)
    requires LedgerInv(p) && Borrow(p, e, user, asset, amount).Ok?
    ensures AccruedReserve(p, e, asset) == Ok(r) && Aged(ReserveOf(p, asset, 0), r) && fee >= 0
    ensures var (p', dTokens) := Borrow(p, e, user, asset, amount).value;
            && DebtWrite(p, p', user, asset, r, -amount, fee, dTokens, e.now) && amount <= BalanceOf(p, asset)
            && (amount + fee) * SCALAR_12 <= dTokens * r.dRate
  {
    hide Borrow, AccruedReserve, Aged, LedgerInv, CeilDiv;
    r := BorrowEffect(p, e, user, asset, amount);
    CallLedger(p, e, user, asset);
    fee := CeilDiv(amount * p.originationFeeRate, SCALAR_7);
    MintPositive(amount, p.originationFeeRate, r.dRate);
  }

  lemma BorrowKeeps(p: Pool, e: Env, user: Address, asset: Symbol, amount: int)
    requires PoolInv(p) && Borrow(p, e, user, asset, amount).Ok?
    ensures KeptExactly(p, Borrow(p, e, user, asset, amount).value.0)
  {
    hide Borrow, AccruedReserve, Accrued, KeptExactly, PoolInv, LedgerInv, DebtWrite;
    PoolIsLedger(p);
    var r, fee := BorrowWrites(p, e, user, asset, amount);
    CallFacts(p, e, user, asset);
    var (p', dTokens) := Borrow(p, e, user, asset, amount).value;
    DebtMoveKeeps(p, p', user, asset, r, -amount, fee, dTokens, e.now);
  }

  lemma TakeInEffect(p: Pool, asset: Symbol, amount: int, r: Reserve)
    requires TakeIn(p, asset, amount, r).Ok?
    ensures asset in p.tokenContract && amount >= 0
    ensures TakeIn(p, asset, amount, r).value
         == p.(reserves := p.reserves[asset := r],
               custody := p.custody[p.tokenContract[asset] := CustodyOf(p, p.tokenContract[asset]) + amount])
  {
  }

  lemma RepayTakesIn(p: Pool, e: Env, user: Address, asset: Symbol, dTokens: int, r: Reserve)
    requires RepayBooks(p, e, user, asset, dTokens, r).Ok?
    ensures user in p.cdps && p.cdps[user].debtAsset == Some(asset)
    ensures RepayBurn(p.cdps[user], dTokens, r, e.now).Ok?
    ensures var burn := RepayBurn(p.cdps[user], dTokens, r, e.now).value;
            && asset in p.tokenContract && burn.amount >= 0 && dTokens <= Holding(p.dTokens, user, asset)
            && RepayBooks(p, e, user, asset, dTokens, r).value
                 == (p.(reserves := p.reserves[asset := burn.reserve],
                        poolBalance := p.poolBalance[asset := BalanceOf(p, asset) + burn.amount],
                        cdps := p.cdps[user := burn.cdp],
                        dTokens := p.dTokens[UserAsset(user, asset) := Holding(p.dTokens, user, asset) - burn.burnt],
                        custody := p.custody[p.tokenContract[asset] := CustodyOf(p, p.tokenContract[asset])
                          + burn.amount]),
                     burn.amount)
  {
    hide TakeIn, RepayBurn;
    var burn := RepayBurn(p.cdps[user], dTokens, r, e.now).value;
    TakeInEffect(p.(poolBalance := p.poolBalance[asset := BalanceOf(p, asset) + burn.amount],
                    cdps := p.cdps[user := burn.cdp],
                    dTokens := p.dTokens[UserAsset(user, asset) := Holding(p.dTokens, user, asset) - burn.burnt]),
                 asset, burn.amount, burn.reserve);
  }

  lemma BurnValue(cdp: CDP, dTokens: int, r: Reserve, now: nat)
    requires RepayBurn(cdp, dTokens, r, now).Ok?
    ensures var burn := RepayBurn(cdp, dTokens, r, now).value;
            var left := cdp.dTokens - burn.burnt;
            && burn.burnt == Min(dTokens, cdp.dTokens)
            && burn.amount == CeilDiv(burn.burnt * r.dRate, SCALAR_12)
            && burn.reserve == r.(dSupply := r.dSupply - burn.burnt)
            && burn.cdp == cdp.(dTokens := left, debtAsset := if left == 0 then None
                 else cdp.debtAsset, lastUpdate := now)
  {
    hide CeilDiv;
  }

  lemma RepayEffect(p: Pool, e: Env, user: Address, asset: Symbol, dTokens: int) returns (r: Reserve, burn: Burn)
    requires Repay(p, e, user, asset, dTokens).Ok?
    ensures AccruedReserve(p, e, asset) == Ok(r)
    ensures user in p.cdps && p.cdps[user].debtAsset == Some(asset)
    ensures RepayBurn(p.cdps[user], dTokens, r, e.now) == Ok(burn)
    ensures asset in p.tokenContract && dTokens > 0 && burn.amount >= 0 && dTokens <= Holding(p.dTokens, user, asset)
    ensures Repay(p, e, user, asset, dTokens).value
         == (p.(reserves := p.reserves[asset := burn.reserve],
                poolBalance := p.poolBalance[asset := BalanceOf(p, asset) + burn.amount],
                cdps := p.cdps[user := burn.cdp],
                dTokens := p.dTokens[UserAsset(user, asset) := Holding(p.dTokens, user, asset) - burn.burnt],
                custody := p.custody[p.tokenContract[asset] := CustodyOf(p, p.tokenContract[asset]) + burn.amount]),
             burn.amount)
  {
    hide AccruedReserve, RepayBooks, RepayBurn;
    r := AccruedReserve(p, e, asset).value;
    RepayTakesIn(p, e, user, asset, dTokens, r);
    burn := RepayBurn(p.cdps[user], dTokens, r, e.now).value;
  }

  /** What a repayment takes and leaves: at most the position's dTokens, at the accrued rate, rounded up. */
  lemma RepayIs(p: Pool, e: Env, user: Address, asset: Symbol, dTokens: int) returns (r: Reserve)
    requires Repay(p, e, user, asset, dTokens).Ok?
    ensures AccruedReserve(p, e, asset) == Ok(r) && user in p.cdps && asset in p.tokenContract
    ensures var (p', amount) := Repay(p, e, user, asset, dTokens).value;
            var cdp := p.cdps[user];
            var burnt := Min(dTokens, cdp.dTokens);
            && amount == CeilDiv(burnt * r.dRate, SCALAR_12) >= 0
            && p' == p.(reserves := p.reserves[asset := r.(dSupply := r.dSupply - burnt)],
                        poolBalance := p.poolBalance[asset := BalanceOf(p, asset) + amount],
                        cdps := p.cdps[user := cdp.(dTokens := cdp.dTokens - burnt, lastUpdate := e.now,
                          debtAsset := if cdp.dTokens == burnt then None else Some(asset))],
                        dTokens := p.dTokens[UserAsset(user, asset) := Holding(p.dTokens, user, asset) - burnt],
                        custody := p.custody[p.tokenContract[asset] := CustodyOf(p, p.tokenContract[asset]) + amount])
  {
    hide Repay, AccruedReserve, BalanceOf, Holding, CustodyOf, CeilDiv;
    var burn;
    r, burn := RepayEffect(p, e, user, asset, dTokens);
  }

  lemma RepayWrites(p: Pool, e: Env, user: Address, asset: Symbol, dTokens: int) returns (r: Reserve, burnt: int)
    requires LedgerInv(p) && Repay(p, e, user, asset, dTokens).Ok?
    ensures AccruedReserve(p, e, asset) == Ok(r) && Aged(ReserveOf(p, asset, 0), r)
    ensures var (p', amount) := Repay(p, e, user, asset, dTokens).value;
            && DebtWrite(p, p', user, asset, r, amount, 0, -burnt, e.now) && amount >= 0
            && -amount * SCALAR_12 <= -burnt * r.dRate
  {
    hide Repay, RepayBurn, AccruedReserve, Aged, LedgerInv, CeilDiv;
    var burn;
    r, burn := RepayEffect(p, e, user, asset, dTokens);
    CallLedger(p, e, user, asset);
    BurnValue(p.cdps[user], dTokens, r, e.now);
    burnt := burn.burnt;
    NegatedUp(burnt, r.dRate, burn.amount);
  }

  lemma RepayKeeps(p: Pool, e: Env, user: Address, asset: Symbol, dTokens: int)
    requires PoolInv(p) && Repay(p, e, user, asset, dTokens).Ok?
    ensures KeptExactly(p, Repay(p, e, user, asset, dTokens).value.0)
  {
    hide Repay, AccruedReserve, Accrued, KeptExactly, PoolInv, LedgerInv, DebtWrite;
    PoolIsLedger(p);
    var r, burnt := RepayWrites(p, e, user, asset, dTokens);
    CallFacts(p, e, user, asset);
    DebtMoveKeeps(p, Repay(p, e, user, asset, dTokens).value.0, user, asset, r,
                  Repay(p, e, user, asset, dTokens).value.1, 0, -burnt, e.now);
  }

  // ---- Collateral moves ----

  /** `p'` is `p` with the collateral of `user` in `token` moved by `amount`, and custody with it. */
  ghost predicate CollateralMove(p: Pool, p': Pool, user: Address, token: Address, amount: int, now: nat) {
    var cdp := CDPOrNew(p, user, now);
    p' == p.(cdps := p.cdps[user :=
      cdp.(collateral := Set(cdp.collateral, token, GetOr(cdp.collateral, token, 0) + amount), lastUpdate := now)],
             custody := p.custody[token := CustodyOf(p, token) + amount])
  }

  /** Moving one collateral position moves the custody sum of that token by as much. */
  lemma CollateralSum(cdps: map<Address, CDP>, user: Address, before: seq<Entry<int>>, after: CDP, token: Address,
      amount: int, t: Address)
    requires Sorted(before)
    requires user in cdps ==> cdps[user].collateral == before
    requires user !in cdps ==> before == []
    requires after.collateral == Set(before, token, GetOr(before, token, 0) + amount)
    ensures SumBy(cdps[user := after], CollateralIn(t))
         == SumBy(cdps, CollateralIn(t)) + if t == token then amount else 0
  {
    GetSet(before, token, GetOr(before, token, 0) + amount, t);
    SumUpdate(cdps, CollateralIn(t), user, after);
  }

  lemma CollateralCustody(p: Pool, p': Pool, user: Address, token: Address, amount: int, now: nat)
    requires CollateralMove(p, p', user, token, amount, now) && Sorted(CDPOrNew(p, user, now).collateral)
    requires forall t: Address :: CustodyInv(p, t)
    ensures forall t: Address :: CustodyInv(p', t)
  {
    forall t: Address
      ensures CustodyInv(p', t)
    {
      assert CustodyInv(p, t);
      CollateralSum(p.cdps, user, CDPOrNew(p, user, now).collateral, p'.cdps[user], token, amount, t);
    }
  }

  lemma CollateralLedger(p: Pool, p': Pool, user: Address, token: Address, amount: int, now: nat)
    requires LedgerInv(p) && CollateralMove(p, p', user, token, amount, now)
    ensures LedgerInv(p') && SameOrphans(p, p')
  {
    hide TokenSum, CustodyInv;
    assert DebtorInv(p, user);
    var cdp := CDPOrNew(p, user, now);
    SetSorted(cdp.collateral, token, GetOr(cdp.collateral, token, 0) + amount);
    CollateralCustody(p, p', user, token, amount, now);
    forall a: Symbol ensures LedgerAsset(p', a) { assert LedgerAsset(p, a); }
    forall u: Address ensures DebtorInv(p', u) { assert DebtorInv(p, u); }
    SameAuctions(p, p');
  }

  lemma CollateralMoveKeeps(p: Pool, p': Pool, user: Address, token: Address, amount: int, now: nat)
    requires PoolInv(p) && CollateralMove(p, p', user, token, amount, now)
    ensures KeptExactly(p, p')
  {
    hide TokenSum, Progress, AssetInv;
    AllAssetsSame(p, p');
    PoolIsLedger(p);
    CollateralLedger(p, p', user, token, amount, now);
  }

  lemma AddCollateralEffect(p: Pool, e: Env, user: Address, token: Address, amount: int)
    requires AddCollateral(p, e, user, token, amount).Ok?
    ensures CollateralMove(p, AddCollateral(p, e, user, token, amount).value.0, user, token, amount, e.now)
  {
    hide Set;
  }

  lemma AddCollateralKeeps(p: Pool, e: Env, user: Address, token: Address, amount: int)
    requires PoolInv(p) && AddCollateral(p, e, user, token, amount).Ok?
    ensures KeptExactly(p, AddCollateral(p, e, user, token, amount).value.0)
  {
    hide AddCollateral, KeptExactly, PoolInv, CollateralMove;
    AddCollateralEffect(p, e, user, token, amount);
    CollateralMoveKeeps(p, AddCollateral(p, e, user, token, amount).value.0, user, token, amount, e.now);
  }

  lemma RemoveCollateralEffect(p: Pool, e: Env, user: Address, token: Address, amount: int)
    requires RemoveCollateral(p, e, user, token, amount).Ok?
    ensures CollateralMove(p, RemoveCollateral(p, e, user, token, amount).value.0, user, token, -amount, e.now)
  {
    hide RemovalAllowed;
  }

  lemma RemoveCollateralKeeps(p: Pool, e: Env, user: Address, token: Address, amount: int)
    requires PoolInv(p) && RemoveCollateral(p, e, user, token, amount).Ok?
    ensures KeptExactly(p, RemoveCollateral(p, e, user, token, amount).value.0)
  {
    var p' := RemoveCollateral(p, e, user, token, amount).value.0;
    RemoveCollateralEffect(p, e, user, token, amount);
    hide RemoveCollateral;
    CollateralMoveKeeps(p, p', user, token, -amount, e.now);
  }

  // ---- Liquidation ----

  /** The premium lies between 1.0 and 1.5. */
  lemma PremiumRange(factor: U32)
    requires factor <= SCALAR_7
    ensures Premium(factor) == Ok(SCALAR_7 + (SCALAR_7 - factor) / 2)
    ensures SCALAR_7 <= Premium(factor).value <= SCALAR_7 + SCALAR_7 / 2
  {
    FloorIsGreatest(factor * SCALAR_7, SCALAR_7, factor);
  }

  lemma PositiveValue(amount: int, q: Quote)
    requires UsdValue(amount, q).Ok? && UsdValue(amount, q).value > 0
    ensures amount > 0
  {
    if amount < 0 {
      var scale := TenPow(q.decimals).value;
      MulMono(amount, 0, q.price);
      FloorIsGreatest(0, scale, FloorDiv(amount * q.price, scale));
      FloorMono(amount * q.price, 0, scale);
    }
  }

  lemma ValueNonNegative(amount: int, q: Quote)
    requires amount >= 0 && UsdValue(amount, q).Ok?
    ensures UsdValue(amount, q).value >= 0
  {
    if amount != 0 && q.price > 0 {
      MulMono2(0, amount, 0, q.price);
      FloorNonNegative(amount * q.price, TenPow(q.decimals).value);
    }
  }

  lemma LotValue(collateral: int, collateralValue: int, debtValue: int, premium: int, percent: int)
    requires LotAmount(collateral, collateralValue, debtValue, premium, percent).Ok?
    ensures collateralValue > 0
    ensures LotAmount(collateral, collateralValue, debtValue, premium, percent).value
         == FloorDiv(collateral * Min(FloorDiv(premium * percent * debtValue * 1, collateralValue * SCALAR_7),
           SCALAR_7), SCALAR_7)
  {
  }

  lemma NumeratorNonNegative(premium: int, percent: int, debtValue: int)
    requires premium >= 0 && percent >= 0 && debtValue >= 0
    ensures premium * percent * debtValue >= 0
  {
    MulMono2(0, premium, 0, percent);
    MulMono2(0, premium * percent, 0, debtValue);
  }

  lemma CappedShare(collateral: int, numerator: int, denominator: int)
    requires collateral >= 0 && numerator >= 0 && denominator > 0
    ensures var capped := Min(FloorDiv(numerator * 1, denominator), SCALAR_7);
            var lot := FloorDiv(collateral * capped, SCALAR_7);
            && 0 <= lot <= collateral && lot * SCALAR_7 * denominator <= collateral * numerator
  {
    var share := FloorDiv(numerator * 1, denominator);
    FloorNonNegative(numerator, denominator);
    var capped := Min(share, SCALAR_7);
    assert capped * denominator <= numerator by {
      MulMono(capped, share, denominator);
    }
    MulMono2(0, collateral, 0, capped);
    FloorNonNegative(collateral * capped, SCALAR_7);
    MulMono(capped, SCALAR_7, collateral);
    MulCancel(FloorDiv(collateral * capped, SCALAR_7), collateral, SCALAR_7);
    LotProduct(FloorDiv(collateral * capped, SCALAR_7), collateral, capped, denominator, numerator);
  }

  /** The lot never exceeds the collateral, and its value never exceeds the premium times the
      share of the debt being liquidated. */
  lemma LotBounds(collateral: int, collateralValue: int, debtValue: int, premium: int, percent: int)
    requires collateral >= 0 && debtValue >= 0 && premium >= 0 && percent >= 0
    requires LotAmount(collateral, collateralValue, debtValue, premium, percent).Ok?
    ensures var lot := LotAmount(collateral, collateralValue, debtValue, premium, percent).value;
            && 0 <= lot <= collateral && collateralValue > 0
            && lot * SCALAR_7 * (collateralValue * SCALAR_7) <= collateral * (premium * percent * debtValue)
  {
    hide LotAmount, FloorDiv;
    LotValue(collateral, collateralValue, debtValue, premium, percent);
    NumeratorNonNegative(premium, percent, debtValue);
    CappedShare(collateral, premium * percent * debtValue, collateralValue * SCALAR_7);
  }

  lemma LotProduct(lot: int, collateral: int, capped: int, denominator: int, numerator: int)
    requires lot * SCALAR_7 <= collateral * capped && capped * denominator <= numerator
    requires collateral >= 0 && denominator >= 0
    ensures lot * SCALAR_7 * denominator <= collateral * numerator
  {
    MulMono(lot * SCALAR_7, collateral * capped, denominator);
    MulMono(capped * denominator, numerator, collateral);
    assert collateral * capped * denominator == collateral * (capped * denominator);
  }

  lemma InitiateEffect(p: Pool, e: Env, user: Address, token: Address, asset: Symbol, percent: U32)
    returns (auction: Auction, collateral: int, collateralValue: int, owed: int, debtValue: int, premium: int)
    requires InitiateLiquidation(p, e, user, token, asset, percent).Ok?
    ensures var (p', id) := InitiateLiquidation(p, e, user, token, asset, percent).value;
            && user in p.cdps && p.cdps[user].debtAsset == Some(asset)
            && HealthFactor(p, e, user).Ok? && HealthFactor(p, e, user).value < SCALAR_7
            && asset in p.tokenContract && token in e.collateralQuotes && asset in e.assetQuotes
            && collateral == CollateralOf(p, user, token)
            && Ok(owed) == FromDToken(p.cdps[user].dTokens, ReserveOf(p, asset, e.now).dRate)
            && UsdValue(collateral, e.collateralQuotes[token]) == Ok(collateralValue)
            && UsdValue(owed, e.assetQuotes[asset]) == Ok(debtValue)
            && Premium(CollateralFactor(p, token)) == Ok(premium)
            && MulScalar7(owed, percent).Ok?
            && LotAmount(collateral, collateralValue, debtValue, premium, percent).Ok?
            && auction == Auction(UserLiquidation, user,
                 [Entry(p.tokenContract[asset], MulScalar7(owed, percent).value)],
                                  [Entry(token, LotAmount(collateral, collateralValue, debtValue, premium,
                                    percent).value)], e.sequence)
            && p' == p.(auctions := p.auctions[id := auction])
  {
    hide HealthFactor, FromDToken, UsdValue, MulScalar7, Premium, LotAmount;
    var (p', id) := InitiateLiquidation(p, e, user, token, asset, percent).value;
    auction := p'.auctions[id];
    collateral := CollateralOf(p, user, token);
    owed := FromDToken(p.cdps[user].dTokens, ReserveOf(p, asset, e.now).dRate).value;
    collateralValue := UsdValue(collateral, e.collateralQuotes[token]).value;
    debtValue := UsdValue(owed, e.assetQuotes[asset]).value;
    premium := Premium(CollateralFactor(p, token)).value;
  }

  lemma BidNonNegative(dTokens: int, dRate: int, percent: int)
    requires dTokens >= 0 && dRate >= 0 && percent >= 0 && FromDToken(dTokens, dRate).Ok?
    requires MulScalar7(FromDToken(dTokens, dRate).value, percent).Ok?
    ensures FromDToken(dTokens, dRate).value >= 0
    ensures MulScalar7(FromDToken(dTokens, dRate).value, percent).value >= 0
  {
    var owed := FromDToken(dTokens, dRate).value;
    MulMono2(0, dTokens, 0, dRate);
    CeilMono(0, dTokens * dRate, SCALAR_12);
    MulMono2(0, owed, 0, percent);
    FloorNonNegative(owed * percent, SCALAR_7);
  }

  /** The auction a liquidation starts is well formed. */
  lemma InitiateAuctionOk(p: Pool, e: Env, user: Address, token: Address, asset: Symbol, percent: U32)
    requires LedgerInv(p) && InitiateLiquidation(p, e, user, token, asset, percent).Ok?
    ensures var (p', id) := InitiateLiquidation(p, e, user, token, asset, percent).value;
            && id in p'.auctions && p' == p.(auctions := p.auctions[id := p'.auctions[id]]) && AuctionInv(p', id)
  {
    hide InitiateLiquidation, HealthFactor, UsdValue, LotAmount, FromDToken, MulScalar7, TokenSum;
    var auction, collateral, collateralValue, owed, debtValue,
      premium := InitiateEffect(p, e, user, token, asset, percent);
    assert LedgerAsset(p, asset) && DebtorInv(p, user);
    BidNonNegative(p.cdps[user].dTokens, ReserveOf(p, asset, e.now).dRate, percent);
    LotValue(collateral, collateralValue, debtValue, premium, percent);
    PositiveValue(collateral, e.collateralQuotes[token]);
    ValueNonNegative(owed, e.assetQuotes[asset]);
    PremiumRange(CollateralFactor(p, token));
    LotBounds(collateral, collateralValue, debtValue, premium, percent);
  }

  lemma InitiateKeeps(p: Pool, e: Env, user: Address, token: Address, asset: Symbol, percent: U32)
    requires PoolInv(p) && InitiateLiquidation(p, e, user, token, asset, percent).Ok?
    ensures KeptExactly(p, InitiateLiquidation(p, e, user, token, asset, percent).value.0)
  {
    hide InitiateLiquidation, PoolInv, LedgerInv, KeptExactly, AuctionInv;
    PoolIsLedger(p);
    InitiateAuctionOk(p, e, user, token, asset, percent);
    var (p', id) := InitiateLiquidation(p, e, user, token, asset, percent).value;
    NewAuctionKeeps(p, p', id, p'.auctions[id]);
  }

  /** Ledgers, positions, custody and rates as they were; of the auctions, only sound ones added. */
  lemma AuctionLedger(p: Pool, p': Pool)
    requires LedgerInv(p) && p' == p.(auctions := p'.auctions)
    requires forall id :: id in p'.auctions && p'.auctions[id].auctionType == UserLiquidation
               ==> (id in p.auctions && p'.auctions[id] == p.auctions[id]) || AuctionInv(p', id)
    ensures LedgerInv(p') && SameOrphans(p, p')
  {
    hide TokenSum;
    forall a: Symbol ensures LedgerAsset(p', a) { assert LedgerAsset(p, a); }
    forall u: Address ensures DebtorInv(p', u) { assert DebtorInv(p, u); }
    forall t: Address ensures CustodyInv(p', t) { assert CustodyInv(p, t); }
    forall i: int ensures AuctionInv(p', i) { assert AuctionInv(p, i); }
  }

  lemma NewAuctionKeeps(p: Pool, p': Pool, id: int, auction: Auction)
    requires PoolInv(p) && p' == p.(auctions := p.auctions[id := auction]) && AuctionInv(p', id)
    ensures KeptExactly(p, p')
  {
    hide TokenSum, Progress, AssetInv;
    AllAssetsSame(p, p');
    PoolIsLedger(p);
    AuctionLedger(p, p');
  }

  /** A health factor within the liquidation ceiling means there is debt left: a CDP without
      debt value reads as `u32::MAX`. */
  lemma HealthyMeansDebt(p: Pool, e: Env, user: Address)
    requires HealthFactor(p, e, user).Ok? && HealthFactor(p, e, user).value <= MAX_HEALTH_FACTOR
    ensures user in p.cdps && p.cdps[user].debtAsset.Some? && p.cdps[user].dTokens > 0
  {
  }

  /** What a successful fill did, for the values it computed. */
  ghost predicate FillMove(p: Pool, p': Pool, id: int, token: Address, debtToken: Address, asset: Symbol, received: int,
      paid: int, burnt: int, now: nat) {
    && id in p.auctions && p.auctions[id].auctionType == UserLiquidation
    && p.auctions[id].lot != [] && p.auctions[id].bid != []
    && p.auctions[id].lot[0].key == token && p.auctions[id].bid[0].key == debtToken
    && var user := p.auctions[id].user;
    && user in p.cdps
    && var cdp := p.cdps[user];
    && cdp.debtAsset == Some(asset) && cdp.dTokens - burnt > 0
    && paid >= 0 && burnt >= 0
    && var custody := p.custody[debtToken := CustodyOf(p, debtToken) + paid];
    && p' == p.(cdps := p.cdps[user := cdp.(dTokens := cdp.dTokens - burnt, lastUpdate := now,
                                           collateral := Set(cdp.collateral, token,
                                             GetOr(cdp.collateral, token, 0) - received))],
                dTokens := p.dTokens[UserAsset(user, asset) := Holding(p.dTokens, user, asset) - burnt],
                poolBalance := p.poolBalance[asset := BalanceOf(p, asset) + paid],
                auctions := p.auctions - {id},
                custody := p'.custody)
    && forall t: Address :: CustodyOf(p', t)
         == CustodyOf(p, t) + (if t == debtToken then paid else 0) - (if t == token then received else 0)
  }

  lemma FillLedger(p: Pool, p': Pool, id: int, token: Address, debtToken: Address, asset: Symbol, received: int,
      paid: int, burnt: int, now: nat)
    requires LedgerInv(p) && FillMove(p, p', id, token, debtToken, asset, received, paid, burnt, now)
    ensures LedgerInv(p')
    ensures forall a: Symbol :: OrphanedDebt(p', a) == OrphanedDebt(p, a) + if a == asset then burnt else 0
  {
    hide TokenSum;
    var user := p.auctions[id].user;
    var cdp := p.cdps[user];
    assert DebtorInv(p, user);
    forall a: Symbol
      ensures LedgerAsset(p', a) && OrphanedDebt(p', a) == OrphanedDebt(p, a) + if a == asset then burnt else 0
    {
      assert LedgerAsset(p, a);
      TokenSumUpdate(p.dTokens, user, asset, Holding(p.dTokens, user, asset) - burnt, a);
    }
    SetSorted(cdp.collateral, token, GetOr(cdp.collateral, token, 0) - received);
    forall u: Address
      ensures DebtorInv(p', u)
    {
      assert DebtorInv(p, u);
      assert forall a: Symbol ::
        Holding(p'.dTokens, u, a) == Holding(p.dTokens, u, a) - if u == user && a == asset then burnt else 0;
    }
    assert AuctionInv(p, id);
    forall t: Address
      ensures CustodyInv(p', t)
    {
      assert CustodyInv(p, t);
      CollateralSum(p.cdps, user, cdp.collateral, p'.cdps[user], token, -received, t);
    }
    SameAuctions(p, p');
  }

  lemma FillMoveAsset(p: Pool, p': Pool, id: int, token: Address, debtToken: Address, asset: Symbol, received: int,
      paid: int, burnt: int, now: nat)
    requires PoolInv(p) && FillMove(p, p', id, token, debtToken, asset, received, paid, burnt, now) && LedgerInv(p')
    ensures AssetInv(p', asset) && Progress(p, p', asset) && OnlyAsset(p, p', asset)
  {
    hide TokenSum;
    assert AssetInv(p, asset) && LedgerAsset(p', asset);
    SolventIsEquity(p, asset);
    SolventIsEquity(p', asset);
    SmallLoss(ReserveOf(p, asset, 0), ReserveOf(p', asset, 0));
  }

  lemma FillMoveKeeps(p: Pool, p': Pool, id: int, token: Address, debtToken: Address, asset: Symbol, received: int,
      paid: int, burnt: int, now: nat)
    requires PoolInv(p) && FillMove(p, p', id, token, debtToken, asset, received, paid, burnt, now)
    ensures Kept(p, p')
    ensures forall a: Symbol :: OrphanedDebt(p', a) == OrphanedDebt(p, a) + if a == asset then burnt else 0
  {
    hide PoolInv, LedgerInv, FillMove, AssetInv, Progress, OnlyAsset;
    PoolIsLedger(p);
    FillLedger(p, p', id, token, debtToken, asset, received, paid, burnt, now);
    FillMoveAsset(p, p', id, token, debtToken, asset, received, paid, burnt, now);
    OtherAssets(p, p', asset);
  }

  lemma FeeNonNegative(amount: int, rate: int)
    requires amount >= 0 && rate >= 0 && MulScalar7Ceil(amount, rate).Ok?
    ensures MulScalar7Ceil(amount, rate).value >= 0
  {
    MulMono2(0, amount, 0, rate);
    CeilMono(0, amount * rate, SCALAR_7);
  }

  ghost predicate CustodyMove(p: Pool, p': Pool, token: Address, amount: int) {
    && p' == p.(custody := p'.custody)
    && forall t: Address :: CustodyOf(p', t) == CustodyOf(p, t) + if t == token then amount else 0
  }

  lemma ReceiveEffect(p: Pool, token: Address, amount: int)
    requires Receive(p, token, amount).Ok?
    ensures amount >= 0 && CustodyMove(p, Receive(p, token, amount).value, token, amount)
  {
  }

  lemma SendEffect(p: Pool, token: Address, amount: int)
    requires Send(p, token, amount).Ok?
    ensures CustodyMove(p, Send(p, token, amount).value, token, -amount)
  {
  }

  lemma SentNonNegative(p: Pool, token: Address, amount: int)
    requires Send(p, token, amount).Ok?
    ensures amount >= 0
  {
  }

  lemma CeilOfFee(amount: int, rate: int)
    requires MulScalar7Ceil(amount, rate).Ok?
    ensures MulScalar7Ceil(amount, rate).value == CeilDiv(amount * rate, SCALAR_7)
  {
  }

  lemma TransfersEffect(p: Pool, token: Address, debtToken: Address, received: int, paid: int)
    requires FillTransfers(p, token, debtToken, received, paid).Ok? && received >= 0
    ensures var (p', sent) := FillTransfers(p, token, debtToken, received, paid).value;
            && sent == (received - sent.1, CeilDiv(received * p.liquidationFeeRate, SCALAR_7)) && sent.0 >= 0
            && paid >= 0 && p' == p.(custody := p'.custody)
            && forall t: Address :: CustodyOf(p', t)
                 == CustodyOf(p, t) + (if t == debtToken then paid else 0) - (if t == token then received else 0)
  {
    hide MulScalar7Ceil, Send, Receive, CustodyOf;
    var p1 := Receive(p, debtToken, paid).value;
    CeilOfFee(received, p.liquidationFeeRate);
    ReceiveEffect(p, debtToken, paid);
    var fee := MulScalar7Ceil(received, p.liquidationFeeRate).value;
    FeeNonNegative(received, p.liquidationFeeRate);
    var p2 := Send(p1, token, received - fee).value;
    SendEffect(p1, token, received - fee);
    assert received - fee >= 0 by { SentNonNegative(p1, token, received - fee); }
    if fee > 0 {
      SendEffect(p2, token, fee);
    }
  }

  ghost predicate BooksMove(p: Pool, p': Pool, user: Address, token: Address, asset: Symbol, received: int, paid: int,
      burnt: int, now: nat) {
    && user in p.cdps
    && var cdp := p.cdps[user];
    && cdp.debtAsset == Some(asset)
    && p' == p.(cdps := p.cdps[user := cdp.(dTokens := cdp.dTokens - burnt, lastUpdate := now,
                                           debtAsset := if cdp.dTokens == burnt then None else Some(asset),
                                           collateral := Set(cdp.collateral, token,
                                             GetOr(cdp.collateral, token, 0) - received))],
                dTokens := p.dTokens[UserAsset(user, asset) := Holding(p.dTokens, user, asset) - burnt],
                poolBalance := p.poolBalance[asset := BalanceOf(p, asset) + paid])
  }

  lemma BooksEffect(p: Pool, e: Env, user: Address, token: Address, received: int, paid: int)
    returns (asset: Symbol, burnt: int)
    requires FillBooks(p, e, user, token, received, paid).Ok?
    ensures BooksMove(p, FillBooks(p, e, user, token, received, paid).value, user, token, asset, received, paid, burnt,
      e.now)
    ensures Ok(burnt) == ToDTokenDown(paid, ReserveOf(p, asset, 0).dRate)
  {
    hide ToDTokenDown, Set, GetOr, Holding, BalanceOf, ReserveOf;
    asset := p.cdps[user].debtAsset.value;
    RateIgnoresClock(p, asset, e.now);
    burnt := ToDTokenDown(paid, ReserveOf(p, asset, 0).dRate).value;
    var debt := p.cdps[user].dTokens - burnt;
    assert WithLessDebt(p.cdps[user], burnt, e.now)
        == Ok(p.cdps[user].(dTokens := debt, debtAsset := if debt == 0 then None
          else Some(asset), lastUpdate := e.now));
    hide WithLessDebt;
  }

  lemma RateIgnoresClock(p: Pool, asset: Symbol, now: nat)
    ensures ReserveOf(p, asset, 0).dRate == ReserveOf(p, asset, now).dRate
  {
  }

  /** The checks of a fill and the stages it went through. */
  lemma FillStages(p: Pool, e: Env, id: int)
    returns (token: Address, debtToken: Address, received: int, paid: int, moved: Pool, sent: (int, int), books: Pool)
    requires FillAuction(p, e, id).Ok?
    ensures id in p.auctions && p.auctions[id].auctionType == UserLiquidation
    ensures p.auctions[id].lot != [] && p.auctions[id].lot[0].key == token
    ensures p.auctions[id].bid != [] && p.auctions[id].bid[0].key == debtToken
    ensures e.sequence >= p.auctions[id].block
    ensures FillAmounts(p.auctions[id], e.sequence - p.auctions[id].block) == Ok((received, paid))
    ensures FillTransfers(p, token, debtToken, received, paid) == Ok((moved, sent))
    ensures FillBooks(moved, e, p.auctions[id].user, token, received, paid) == Ok(books)
    ensures HealthFactor(books, e, p.auctions[id].user).Ok?
    ensures HealthFactor(books, e, p.auctions[id].user).value <= MAX_HEALTH_FACTOR
    ensures FillAuction(p, e, id).value == (books.(auctions := books.auctions - {id}), sent)
  {
    hide HealthFactor, AuctionModifiers, FillTransfers, FillBooks, FillAmounts;
    var auction := p.auctions[id];
    token, debtToken := auction.lot[0].key, auction.bid[0].key;
    var amounts := FillAmounts(auction, e.sequence - auction.block).value;
    received, paid := amounts.0, amounts.1;
    var done := FillTransfers(p, token, debtToken, received, paid).value;
    moved, sent := done.0, done.1;
    books := FillBooks(moved, e, auction.user, token, received, paid).value;
  }

  lemma FillEffect(p: Pool, e: Env, id: int)
    returns (token: Address, debtToken: Address, asset: Symbol, received: int, paid: int, burnt: int, books: Pool)
    requires LedgerInv(p) && FillAuction(p, e, id).Ok?
    ensures var p' := FillAuction(p, e, id).value.0;
            && FillMove(p, p', id, token, debtToken, asset, received, paid, burnt, e.now)
            && e.sequence >= p.auctions[id].block
            && FillAmounts(p.auctions[id], e.sequence - p.auctions[id].block) == Ok((received, paid))
            && Ok(burnt) == ToDTokenDown(paid, ReserveOf(p, asset, 0).dRate)
            && p' == books.(auctions := p.auctions - {id})
            && var sent := FillAuction(p, e, id).value.1;
            && sent == (received - sent.1, CeilDiv(received * p.liquidationFeeRate, SCALAR_7)) && sent.0 >= 0
            && HealthFactor(books, e, p.auctions[id].user).Ok?
            && HealthFactor(books, e, p.auctions[id].user).value <= MAX_HEALTH_FACTOR
  {
    hide HealthFactor, FillTransfers, FillBooks, FillAmounts, FillAuction, LedgerInv, ToDTokenDown;
    var moved, sent;
    token, debtToken, received, paid, moved, sent, books := FillStages(p, e, id);
    FillAmountsRange(p, id, e.sequence - p.auctions[id].block);
    TransfersEffect(p, token, debtToken, received, paid);
    asset, burnt := BooksEffect(moved, e, p.auctions[id].user, token, received, paid);
    HealthyMeansDebt(books, e, p.auctions[id].user);
    BurntNonNegative(p, asset, paid);
  }

  lemma BurntNonNegative(p: Pool, asset: Symbol, paid: int)
    requires paid >= 0 && ToDTokenDown(paid, ReserveOf(p, asset, 0).dRate).Ok?
    ensures ToDTokenDown(paid, ReserveOf(p, asset, 0).dRate).value >= 0
  {
    FloorNonNegative(paid * SCALAR_12, ReserveOf(p, asset, 0).dRate);
  }

  lemma ModifierRange(blocks: int)
    requires blocks >= 0
    ensures 0 <= AuctionModifiers(blocks).0 <= SCALAR_12 && 0 <= AuctionModifiers(blocks).1 <= SCALAR_12
  {
  }

  /** A fill hands over at most the lot and asks for at most the bid, and neither is negative. */
  lemma FillAmountsRange(p: Pool, id: int, blocks: int)
    requires LedgerInv(p) && id in p.auctions && p.auctions[id].auctionType == UserLiquidation && blocks >= 0
    requires p.auctions[id].lot != [] && p.auctions[id].bid != [] && FillAmounts(p.auctions[id], blocks).Ok?
    ensures 0 <= FillAmounts(p.auctions[id], blocks).value.0 <= p.auctions[id].lot[0].value
    ensures 0 <= FillAmounts(p.auctions[id], blocks).value.1 <= p.auctions[id].bid[0].value
  {
    assert AuctionInv(p, id);
    ModifierRange(blocks);
    ScaledRange(p.auctions[id].lot[0].value, AuctionModifiers(blocks).0);
    ScaledRange(p.auctions[id].bid[0].value, AuctionModifiers(blocks).1);
  }

  lemma ScaledRange(amount: int, modifier: int)
    requires amount >= 0 && 0 <= modifier <= SCALAR_12
    ensures 0 <= FloorDiv(amount * modifier, SCALAR_12) <= amount
  {
    MulMono2(0, amount, 0, modifier);
    MulMono(modifier, SCALAR_12, amount);
    FloorNonNegative(amount * modifier, SCALAR_12);
    MulCancel(FloorDiv(amount * modifier, SCALAR_12), amount, SCALAR_12);
  }

  lemma FillKeeps(p: Pool, e: Env, id: int)
    requires PoolInv(p) && FillAuction(p, e, id).Ok?
    ensures Kept(p, FillAuction(p, e, id).value.0)
    ensures forall a: Symbol :: OrphanedDebt(FillAuction(p, e, id).value.0, a) >= OrphanedDebt(p, a)
  {
    hide FillAuction, PoolInv, LedgerInv;
    PoolIsLedger(p);
    var token, debtToken, asset, received, paid, burnt, books := FillEffect(p, e, id);
    FillMoveKeeps(p, FillAuction(p, e, id).value.0, id, token, debtToken, asset, received, paid, burnt, e.now);
  }

  // ---- Interest auctions, accrual, fees and configuration ----

  lemma CreateInterestKeeps(p: Pool, e: Env, contract: Address, asset: Symbol)
    requires PoolInv(p) && CreateInterestAuction(p, e, contract, asset).Ok?
    ensures KeptExactly(p, CreateInterestAuction(p, e, contract, asset).value.0)
  {
    var (p', id) := CreateInterestAuction(p, e, contract, asset).value;
    hide PoolInv, Kept, KeptExactly;
    NewAuctionKeeps(p, p', id, p'.auctions[id]);
  }

  /** `p'` is `p` with `amount` of an asset's tokens paid out and its credits changed. */
  ghost predicate CreditWrite(p: Pool, p': Pool, asset: Symbol, r: Reserve, amount: int) {
    && asset in p.tokenContract
    && r == ReserveOf(p, asset, 0).(backstopCredit := r.backstopCredit, treasuryCredit := r.treasuryCredit,
         lastTime := r.lastTime)
    && p' == p.(reserves := p.reserves[asset := r],
                poolBalance := p.poolBalance[asset := BalanceOf(p, asset) - amount],
                custody := p.custody[p.tokenContract[asset] := CustodyOf(p, p.tokenContract[asset]) - amount],
                auctions := p'.auctions)
    && (forall id :: id in p'.auctions && p'.auctions[id].auctionType == UserLiquidation
          ==> id in p.auctions && p'.auctions[id] == p.auctions[id])
  }

  lemma CreditLedger(p: Pool, p': Pool, asset: Symbol, r: Reserve, amount: int)
    requires LedgerInv(p) && CreditWrite(p, p', asset, r, amount)
    ensures LedgerInv(p') && SameOrphans(p, p')
  {
    hide TokenSum;
    forall a: Symbol ensures LedgerAsset(p', a) { assert LedgerAsset(p, a); }
    forall u: Address ensures DebtorInv(p', u) { assert DebtorInv(p, u); }
    CustodyElsewhere(p, p', p.tokenContract[asset]);
    forall i: int ensures AuctionInv(p', i) { assert AuctionInv(p, i); }
  }

  /** A payout against credits of the same size. */
  ghost predicate CreditPayout(p: Pool, p': Pool, asset: Symbol, r: Reserve, amount: int) {
    && CreditWrite(p, p', asset, r, amount)
    && 0 <= amount <= BalanceOf(p, asset)
    && r.backstopCredit + r.treasuryCredit
         <= ReserveOf(p, asset, 0).backstopCredit + ReserveOf(p, asset, 0).treasuryCredit - amount
    && r.treasuryCredit >= 0
  }

  lemma CreditPayoutAsset(p: Pool, p': Pool, asset: Symbol, r: Reserve, amount: int)
    requires PoolInv(p) && CreditPayout(p, p', asset, r, amount) && LedgerInv(p')
    ensures AssetInv(p', asset) && Progress(p, p', asset) && OnlyAsset(p, p', asset)
  {
    hide TokenSum;
    assert AssetInv(p, asset) && LedgerAsset(p', asset);
    var before := ReserveOf(p, asset, 0);
    assert Margin(r) - Margin(before)
        == (before.backstopCredit + before.treasuryCredit - r.backstopCredit - r.treasuryCredit) * SCALAR_12;
    SmallLoss(before, r);
    SolventIsEquity(p, asset);
    SolventIsEquity(p', asset);
  }

  lemma CreditPayoutKeeps(p: Pool, p': Pool, asset: Symbol, r: Reserve, amount: int)
    requires PoolInv(p) && CreditPayout(p, p', asset, r, amount)
    ensures KeptExactly(p, p')
  {
    hide PoolInv, LedgerInv, AssetInv, Progress, OnlyAsset, CreditWrite;
    PoolIsLedger(p);
    CreditLedger(p, p', asset, r, amount);
    CreditPayoutAsset(p, p', asset, r, amount);
    OtherAssets(p, p', asset);
  }

  lemma CollectKeeps(p: Pool, e: Env, asset: Symbol)
    requires PoolInv(p) && CollectTreasuryFees(p, e, asset).Ok?
    ensures KeptExactly(p, CollectTreasuryFees(p, e, asset).value.0)
  {
    var (p', amount) := CollectTreasuryFees(p, e, asset).value;
    assert AssetInv(p, asset);
    hide CollectTreasuryFees, PoolInv, AssetInv, Kept, KeptExactly;
    CollectEffect(p, e, asset);
    CreditPayoutKeeps(p, p', asset, ReserveOf(p', asset, 0), amount);
  }

  lemma CollectEffect(p: Pool, e: Env, asset: Symbol)
    requires PoolInv(p) && CollectTreasuryFees(p, e, asset).Ok?
    ensures var (p', amount) := CollectTreasuryFees(p, e, asset).value;
            amount == ReserveOf(p, asset, 0).treasuryCredit
              && CreditPayout(p, p', asset, ReserveOf(p', asset, 0), amount)
  {
    assert AssetInv(p, asset);
  }

  /** What filling `fillPercent` of an interest auction pays out: that part of the lot it holds. */
  function InterestDrawn(p: Pool, id: int, asset: Symbol, fillPercent: int): int {
    if id in p.auctions && p.auctions[id].auctionType == AuctionType.Interest
       && asset in p.tokenContract && 0 < fillPercent <= SCALAR_7
    then FloorDiv(GetOr(p.auctions[id].lot, p.tokenContract[asset], 0) * fillPercent, SCALAR_7)
    else 0
  }

  /** The `i128` subtraction of a payout from the credit does not stop at the type's lower bound. */
  predicate DrawInRange(p: Pool, id: int, asset: Symbol, fillPercent: int) {
    var drawn := InterestDrawn(p, id, asset, fillPercent);
    drawn > 0 ==> CreditOf(p, asset) - drawn >= I128_MIN
  }

  /** What a fill of an interest auction did, for the interest it paid. */
  lemma FillInterestEffect(p: Pool, e: Env, id: int, asset: Symbol, fillPercent: int)
      returns (token: Address, lot: int, interest: int)
    requires FillInterestAuction(p, e, id, asset, fillPercent).Ok?
    ensures var (p', paid) := FillInterestAuction(p, e, id, asset, fillPercent).value;
            && paid.0 == interest
            && id in p.auctions && p.auctions[id].auctionType == AuctionType.Interest
            && asset in p.tokenContract && p.tokenContract[asset] == token
            && lot == GetOr(p.auctions[id].lot, token, 0) && lot != 0
            && 0 < fillPercent <= SCALAR_7 && interest == FloorDiv(lot * fillPercent, SCALAR_7)
            && interest == InterestDrawn(p, id, asset, fillPercent)
            && PayInterest(p, e, asset, token, interest).Ok?
            && p' == PayInterest(p, e, asset, token, interest).value.(auctions := p'.auctions)
            && p'.auctions == (if SaturatingSub(lot, interest) <= 0 then p.auctions - {id}
                 else p.auctions[id := p.auctions[id].(lot :=
                   Set(p.auctions[id].lot, token, SaturatingSub(lot, interest)))])
  {
    hide PayInterest, InterestBidModifier;
    token := p.tokenContract[asset];
    lot := GetOr(p.auctions[id].lot, token, 0);
    interest := FillInterestAuction(p, e, id, asset, fillPercent).value.1.0;
    WholeTokens(MulScalar7(lot, fillPercent).value);
  }

  lemma PayWrites(p: Pool, e: Env, asset: Symbol, interest: int)
    requires asset in p.tokenContract && interest > 0
    requires PayInterest(p, e, asset, p.tokenContract[asset], interest).Ok?
    ensures var p' := PayInterest(p, e, asset, p.tokenContract[asset], interest).value;
            var r, r' := ReserveOf(p, asset, 0), ReserveOf(p', asset, 0);
            && interest <= BalanceOf(p, asset)
            && p' == p.(reserves := p.reserves[asset := r'],
                        poolBalance := p.poolBalance[asset := BalanceOf(p, asset) - interest],
                        custody := p.custody[p.tokenContract[asset] := CustodyOf(p, p.tokenContract[asset]) - interest])
            && r' == r.(backstopCredit := SaturatingSub(r.backstopCredit, interest), lastTime := r'.lastTime)
  {
  }

  lemma PayInterestEffect(p: Pool, e: Env, asset: Symbol, interest: int, auctions: map<int, Auction>)
    requires PoolInv(p) && CreditOf(p, asset) - interest >= I128_MIN && asset in p.tokenContract
    requires PayInterest(p, e, asset, p.tokenContract[asset], interest).Ok? && interest > 0
    requires forall id :: id in auctions && auctions[id].auctionType == UserLiquidation
               ==> id in p.auctions && auctions[id] == p.auctions[id]
    ensures var p' := PayInterest(p, e, asset, p.tokenContract[asset], interest).value.(auctions := auctions);
            && CreditPayout(p, p', asset, ReserveOf(p', asset, 0), interest)
            && CreditOf(p', asset) == SaturatingSub(CreditOf(p, asset), interest)
            && ReserveOf(p', asset, 0).treasuryCredit == ReserveOf(p, asset, 0).treasuryCredit
  {
    hide PayInterest, PoolInv;
    TreasuryNonNegative(p, asset);
    PayWrites(p, e, asset, interest);
  }

  lemma TreasuryNonNegative(p: Pool, asset: Symbol)
    requires PoolInv(p)
    ensures ReserveOf(p, asset, 0).treasuryCredit >= 0
  {
    assert AssetInv(p, asset);
  }

  lemma FillInterestKeeps(p: Pool, e: Env, id: int, asset: Symbol, fillPercent: int)
    requires PoolInv(p) && FillInterestAuction(p, e, id, asset, fillPercent).Ok?
    requires DrawInRange(p, id, asset, fillPercent)
    ensures KeptExactly(p, FillInterestAuction(p, e, id, asset, fillPercent).value.0)
  {
    hide FillInterestAuction, PayInterest, PoolInv, Kept, KeptExactly, CreditPayout;
    var (p', paid) := FillInterestAuction(p, e, id, asset, fillPercent).value;
    var token, lot, interest := FillInterestEffect(p, e, id, asset, fillPercent);
    if interest > 0 {
      PayInterestEffect(p, e, asset, interest, p'.auctions);
      CreditPayoutKeeps(p, p', asset, ReserveOf(p', asset, 0), interest);
    } else {
      NothingPaid(p, e, asset, token, interest);
      AuctionsOnlyKeeps(p, p');
    }
  }

  lemma NothingPaid(p: Pool, e: Env, asset: Symbol, token: Address, interest: int)
    requires interest <= 0
    ensures PayInterest(p, e, asset, token, interest) == Ok(p)
  {
  }

  lemma AuctionsOnlyKeeps(p: Pool, p': Pool)
    requires PoolInv(p) && p' == p.(auctions := p'.auctions)
    requires forall id :: id in p'.auctions && p'.auctions[id].auctionType == UserLiquidation
               ==> id in p.auctions && p'.auctions[id] == p.auctions[id]
    ensures KeptExactly(p, p')
  {
    hide TokenSum, Progress, AssetInv;
    AllAssetsSame(p, p');
    PoolIsLedger(p);
    AuctionLedger(p, p');
  }

  lemma AccrueOnlyEffect(p: Pool, e: Env, asset: Symbol)
    requires AccrueOnly(p, e, asset).Ok?
    ensures AccruedReserve(p, e, asset).Ok?
    ensures var p' := AccrueOnly(p, e, asset).value.0;
            p' == p || p' == p.(reserves := p.reserves[asset := AccruedReserve(p, e, asset).value])
  {
    hide AccruedReserve;
  }

  lemma ReserveLedger(p: Pool, p': Pool, asset: Symbol, r: Reserve)
    requires LedgerInv(p) && p' == p.(reserves := p.reserves[asset := r]) && Aged(ReserveOf(p, asset, 0), r)
    ensures LedgerInv(p') && SameOrphans(p, p')
  {
    hide TokenSum;
    forall a: Symbol ensures LedgerAsset(p', a) { assert LedgerAsset(p, a); }
    forall u: Address ensures DebtorInv(p', u) { assert DebtorInv(p, u); }
    forall t: Address ensures CustodyInv(p', t) { assert CustodyInv(p, t); }
    SameAuctions(p, p');
  }

  lemma ReserveOnlyKeeps(p: Pool, p': Pool, asset: Symbol, r: Reserve)
    requires PoolInv(p) && p' == p.(reserves := p.reserves[asset := r]) && Accrued(ReserveOf(p, asset, 0), r)
    ensures KeptExactly(p, p')
  {
    hide TokenSum;
    PoolIsLedger(p);
    ReserveLedger(p, p', asset, r);
    assert AssetInv(p, asset) && LedgerAsset(p', asset);
    SolventIsEquity(p, asset);
    SolventIsEquity(p', asset);
    OtherAssets(p, p', asset);
  }

  lemma AccrueOnlyKeeps(p: Pool, e: Env, asset: Symbol)
    requires PoolInv(p) && AccrueOnly(p, e, asset).Ok?
    ensures KeptExactly(p, AccrueOnly(p, e, asset).value.0)
  {
    hide AccrueOnly, AccruedReserve, Accrued, PoolInv, Kept, KeptExactly;
    var p' := AccrueOnly(p, e, asset).value.0;
    AccrueOnlyEffect(p, e, asset);
    if p' == p {
      ConfigKeeps(p, p');
    } else {
      CallFacts(p, e, 0, asset);
      ReserveOnlyKeeps(p, p', asset, AccruedReserve(p, e, asset).value);
    }
  }

  /** `p'` is `p` with other configuration values. */
  predicate ConfigMove(p: Pool, p': Pool) {
    p' == p.(state := p'.state, takeRate := p'.takeRate, reserveFactor := p'.reserveFactor,
             originationFeeRate := p'.originationFeeRate, liquidationFeeRate := p'.liquidationFeeRate,
             collateralFactor := p'.collateralFactor, params := p'.params, queued := p'.queued)
  }

  lemma ConfigLedger(p: Pool, p': Pool)
    requires LedgerInv(p) && ConfigMove(p, p') && FactorsOk(p')
    ensures LedgerInv(p') && SameOrphans(p, p')
  {
    hide TokenSum;
    forall a: Symbol ensures LedgerAsset(p', a) { assert LedgerAsset(p, a); }
    forall u: Address ensures DebtorInv(p', u) { assert DebtorInv(p, u); }
    forall t: Address ensures CustodyInv(p', t) { assert CustodyInv(p, t); }
    SameAuctions(p, p');
  }

  /** Configuration changes touch no ledger. */
  lemma ConfigKeeps(p: Pool, p': Pool)
    requires PoolInv(p) && ConfigMove(p, p') && (p' == p || FeesOk(p'))
    ensures KeptExactly(p, p')
  {
    hide TokenSum, Progress, AssetInv;
    AllAssetsSame(p, p');
    PoolIsLedger(p);
    ConfigLedger(p, p');
  }
}
