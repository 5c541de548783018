/** Rate parameters change only through the queue, and only after its delay. */
module ConfigTimelock {
  import opened Outcomes
  import opened FixedPoint
  import opened PoolTypes
  import opened PoolStore
  import opened Valuation
  import opened PoolOperations
  import opened PoolSteps
  import opened Interest

  predicate SameParams(p: Pool, p': Pool) {
    p'.params == p.params && p'.queued == p.queued
  }

  /** No setting of the pool has changed. */
  predicate SameConfig(p: Pool, p': Pool) {
    && SameParams(p, p') && p'.state == p.state
    && p'.takeRate == p.takeRate && p'.reserveFactor == p.reserveFactor
    && p'.originationFeeRate == p.originationFeeRate && p'.liquidationFeeRate == p.liquidationFeeRate
    && p'.collateralFactor == p.collateralFactor && p'.tokenContract == p.tokenContract
    && p'.backstopContract == p.backstopContract
  }

  /** Token transfers change custody only. */
  lemma MoveFrame(p: Pool, to: Address, from: Address, amount: int)
    ensures Receive(p, from, amount).Ok? ==> SameConfig(p, Receive(p, from, amount).value)
    ensures Send(p, to, amount).Ok? ==> SameConfig(p, Send(p, to, amount).value)
  {
  }

  lemma TransfersFrame(p: Pool, token: Address, debtToken: Address, received: int, paid: int)
    requires FillTransfers(p, token, debtToken, received, paid).Ok?
    ensures SameConfig(p, FillTransfers(p, token, debtToken, received, paid).value.0)
  {
    hide MulScalar7Ceil, Send, Receive, CustodyMove;
    var p1 := Receive(p, debtToken, paid).value;
    MoveFrame(p, token, debtToken, paid);
    var fee := MulScalar7Ceil(received, p1.liquidationFeeRate).value;
    MoveFrame(p1, token, token, received - fee);
    if fee > 0 {
      MoveFrame(Send(p1, token, received - fee).value, token, token, fee);
    }
  }

  lemma FillFrame(p: Pool, e: Env, id: int)
    requires FillAuction(p, e, id).Ok?
    ensures SameConfig(p, FillAuction(p, e, id).value.0)
  {
    hide FillAuction, FillTransfers, FillBooks, FillAmounts, HealthFactor;
    var token, debtToken, received, paid, moved, sent, books := FillStages(p, e, id);
    TransfersFrame(p, token, debtToken, received, paid);
    var asset, burnt := BooksEffect(moved, e, p.auctions[id].user, token, received, paid);
  }

  lemma FillInterestFrame(p: Pool, e: Env, id: int, asset: Symbol, fillPercent: int)
    requires FillInterestAuction(p, e, id, asset, fillPercent).Ok?
    ensures SameConfig(p, FillInterestAuction(p, e, id, asset, fillPercent).value.0)
  {
    hide FillInterestAuction;
    var token, lot, interest := FillInterestEffect(p, e, id, asset, fillPercent);
  }

  lemma DepositFrame(p: Pool, e: Env, user: Address, asset: Symbol, amount: int)
    requires Deposit(p, e, user, asset, amount).Ok?
    ensures SameConfig(p, Deposit(p, e, user, asset, amount).value.0)
  {
    hide Deposit;
    var r := DepositEffect(p, e, user, asset, amount);
  }

  lemma WithdrawFrame(p: Pool, e: Env, user: Address, asset: Symbol, bTokens: int)
    requires Withdraw(p, e, user, asset, bTokens).Ok?
    ensures SameConfig(p, Withdraw(p, e, user, asset, bTokens).value.0)
  {
    hide Withdraw;
    var r := WithdrawEffect(p, e, user, asset, bTokens);
  }

  lemma BorrowFrame(p: Pool, e: Env, user: Address, asset: Symbol, amount: int)
    requires Borrow(p, e, user, asset, amount).Ok?
    ensures SameConfig(p, Borrow(p, e, user, asset, amount).value.0)
  {
    hide Borrow;
    var r := BorrowEffect(p, e, user, asset, amount);
  }

  lemma RepayFrame(p: Pool, e: Env, user: Address, asset: Symbol, dTokens: int)
    requires Repay(p, e, user, asset, dTokens).Ok?
    ensures SameConfig(p, Repay(p, e, user, asset, dTokens).value.0)
  {
    hide Repay;
    var r, burn := RepayEffect(p, e, user, asset, dTokens);
  }

  lemma RemoveCollateralFrame(p: Pool, e: Env, user: Address, token: Address, amount: int)
    requires RemoveCollateral(p, e, user, token, amount).Ok?
    ensures SameConfig(p, RemoveCollateral(p, e, user, token, amount).value.0)
  {
    hide RemoveCollateral;
    RemoveCollateralEffect(p, e, user, token, amount);
  }

  lemma AddCollateralFrame(p: Pool, e: Env, user: Address, token: Address, amount: int)
    requires AddCollateral(p, e, user, token, amount).Ok?
    ensures SameConfig(p, AddCollateral(p, e, user, token, amount).value.0)
  {
  }

  lemma LedgerStepFrame(p: Pool, e: Env, step: Step)
    requires LedgerStep(step)
    ensures SameConfig(p, LedgerNext(p, e, step))
  {
    assert SameConfig(p, p);
    hide SameConfig, Deposit, Withdraw, Borrow, Repay, AddCollateral, RemoveCollateral;
    match step
    case DepositStep(u, a, x) => if Deposit(p, e, u, a, x).Ok? { DepositFrame(p, e, u, a, x); }
    case WithdrawStep(u, a, x) => if Withdraw(p, e, u, a, x).Ok? { WithdrawFrame(p, e, u, a, x); }
    case BorrowStep(u, a, x) => if Borrow(p, e, u, a, x).Ok? { BorrowFrame(p, e, u, a, x); }
    case RepayStep(u, a, x) => if Repay(p, e, u, a, x).Ok? { RepayFrame(p, e, u, a, x); }
    case AddCollateralStep(u, t, x) => if AddCollateral(p, e, u, t, x).Ok? { AddCollateralFrame(p, e, u, t, x); }
    case RemoveCollateralStep(u, t, x) => if RemoveCollateral(p, e, u, t,
      x).Ok? { RemoveCollateralFrame(p, e, u, t, x); }
  }

  lemma InitiateFrame(p: Pool, e: Env, user: Address, token: Address, asset: Symbol, percent: U32)
    requires InitiateLiquidation(p, e, user, token, asset, percent).Ok?
    ensures SameConfig(p, InitiateLiquidation(p, e, user, token, asset, percent).value.0)
  {
    hide InitiateLiquidation;
    var auction, collateral, collateralValue, owed, debtValue, premium :=
      InitiateEffect(p, e, user, token, asset, percent);
  }

  lemma AccrueFrame(p: Pool, e: Env, asset: Symbol)
    requires AccrueOnly(p, e, asset).Ok?
    ensures SameConfig(p, AccrueOnly(p, e, asset).value.0)
  {
    hide AccrueOnly;
    AccrueOnlyEffect(p, e, asset);
  }

  lemma CreateAndCollectFrame(p: Pool, e: Env, contract: Address, asset: Symbol)
    ensures CreateInterestAuction(p, e, contract, asset).Ok? ==>
              SameConfig(p, CreateInterestAuction(p, e, contract, asset).value.0)
    ensures CollectTreasuryFees(p, e, asset).Ok? ==> SameConfig(p, CollectTreasuryFees(p, e, asset).value.0)
  {
  }

  lemma AuctionStepFrame(p: Pool, e: Env, step: Step)
    requires AuctionStep(step)
    ensures SameConfig(p, AuctionNext(p, e, step))
  {
    assert SameConfig(p, p);
    hide InitiateLiquidation, FillAuction, CreateInterestAuction, FillInterestAuction, AccrueOnly, CollectTreasuryFees;
    match step
    case InitiateLiquidationStep(u, t, a, x) =>
      if InitiateLiquidation(p, e, u, t, a, x).Ok? { InitiateFrame(p, e, u, t, a, x); }
    case FillAuctionStep(id) => if FillAuction(p, e, id).Ok? { FillFrame(p, e, id); }
    case CreateInterestAuctionStep(c, a) => CreateAndCollectFrame(p, e, c, a);
    case FillInterestAuctionStep(id, a, x) =>
      if FillInterestAuction(p, e, id, a, x).Ok? { FillInterestFrame(p, e, id, a, x); }
    case AccrueStep(a) => if AccrueOnly(p, e, a).Ok? { AccrueFrame(p, e, a); }
    case CollectTreasuryStep(a) => CreateAndCollectFrame(p, e, 0, a);
    case DropAuctionStep(id) =>
  }

  lemma SettingStepFrame(p: Pool, step: Step)
    requires !LedgerStep(step) && !AuctionStep(step) && !QueueStep(step)
    ensures SameParams(p, SettingNext(p, step))
  {
  }

  /** Steps other than the queue's own leave parameters and queue alone. */
  lemma StepFrame(p: Pool, e: Env, step: Step)
    requires !QueueStep(step)
    ensures SameParams(p, Next(p, e, step))
  {
    hide LedgerNext, AuctionNext, SettingNext;
    if LedgerStep(step) {
      LedgerStepFrame(p, e, step);
    } else if AuctionStep(step) {
      AuctionStepFrame(p, e, step);
    } else {
      SettingStepFrame(p, step);
    }
  }

  predicate QueuedIn(p: Pool, asset: Symbol, entry: QueuedReserveConfig) {
    asset in p.queued && p.queued[asset] == entry
  }

  predicate InForce(p: Pool, asset: Symbol, ps: InterestRateParams) {
    asset in p.params && p.params[asset] == ps
  }

  /** Event `i` succeeded in queueing `entry` for `asset`, to unlock at once while the pool was on ice
      and seven days later otherwise, and the entry stayed queued until the state after `n` events. */
  ghost predicate QueuedSince(p: Pool, events: seq<Event>, i: int, n: int, asset: Symbol, entry: QueuedReserveConfig) {
    && 0 <= i < n <= |events|
    && events[i].step == QueueParamsStep(asset, entry.newParams)
    && QueueReserveParams(Run(p, events[..i]), events[i].env, asset, entry.newParams).Ok?
    && ValidParams(entry.newParams)
    && entry.unlockTime == events[i].env.now + (if Run(p, events[..i]).state == OnIce then 0 else CONFIG_DELAY_SECONDS)
    && forall k :: i < k <= n ==> QueuedIn(Run(p, events[..k]), asset, entry)
  }

  /** Event `j` succeeded in putting `entry`, queued until then, in force no earlier than it unlocked,
      and nothing has replaced it since. */
  ghost predicate AppliedAt(p: Pool, events: seq<Event>, i: int, j: int, asset: Symbol, entry: QueuedReserveConfig) {
    && j < |events|
    && QueuedSince(p, events, i, j, asset, entry)
    && events[j].step == ApplyParamsStep(asset) && events[j].env.now >= entry.unlockTime
    && ApplyQueuedParams(Run(p, events[..j]), events[j].env, asset).Ok?
    && forall k :: j < k <= |events| ==> InForce(Run(p, events[..k]), asset, entry.newParams)
  }

  ghost predicate QueueTraced(p: Pool, events: seq<Event>, asset: Symbol) {
    asset in Run(p, events).queued ==>
      exists i :: QueuedSince(p, events, i, |events|, asset, Run(p, events).queued[asset])
  }

  ghost predicate ParamsTraced(p: Pool, events: seq<Event>, asset: Symbol) {
    asset in Run(p, events).params ==>
      exists i, j, entry: QueuedReserveConfig ::
        entry.newParams == Run(p, events).params[asset] && AppliedAt(p, events, i, j, asset, entry)
  }

  /** A trace within a prefix is a trace within the run. */
  lemma QueuedInPrefix(p: Pool, events: seq<Event>, i: int, n: int, asset: Symbol, entry: QueuedReserveConfig)
    requires events != [] && QueuedSince(p, events[..|events| - 1], i, n, asset, entry)
    ensures QueuedSince(p, events, i, n, asset, entry)
  {
    hide Run, ValidParams, QueueReserveParams, QueuedIn;
    var init := events[..|events| - 1];
    assert init[..i] == events[..i];
    forall k | i < k <= n
      ensures QueuedIn(Run(p, events[..k]), asset, entry)
    {
      assert init[..k] == events[..k];
      assert QueuedIn(Run(p, init[..k]), asset, entry);
    }
  }

  /** An entry that is still there after one more event. */
  lemma QueuedLonger(p: Pool, events: seq<Event>, i: int, asset: Symbol, entry: QueuedReserveConfig)
    requires events != [] && QueuedSince(p, events[..|events| - 1], i, |events| - 1, asset, entry)
    requires QueuedIn(Run(p, events), asset, entry)
    ensures QueuedSince(p, events, i, |events|, asset, entry)
  {
    hide Run, ValidParams, QueueReserveParams, QueuedIn;
    QueuedInPrefix(p, events, i, |events| - 1, asset, entry);
    forall k | i < k <= |events|
      ensures QueuedIn(Run(p, events[..k]), asset, entry)
    {
      if k == |events| {
        assert events[..k] == events;
      }
    }
  }

  lemma AppliedLonger(p: Pool, events: seq<Event>, i: int, j: int, asset: Symbol, entry: QueuedReserveConfig)
    requires events != [] && AppliedAt(p, events[..|events| - 1], i, j, asset, entry)
    requires InForce(Run(p, events), asset, entry.newParams)
    ensures AppliedAt(p, events, i, j, asset, entry)
  {
    QueuedInPrefix(p, events, i, j, asset, entry);
    hide Run, ApplyQueuedParams, QueuedSince, InForce;
    var init := events[..|events| - 1];
    assert init[..j] == events[..j];
    forall k | j < k <= |events|
      ensures InForce(Run(p, events[..k]), asset, entry.newParams)
    {
      if k <= |init| {
        assert init[..k] == events[..k];
        assert InForce(Run(p, init[..k]), asset, entry.newParams);
      } else {
        assert events[..k] == events;
      }
    }
  }

  /** A queue entry or a parameter set that a step changed was put there by the step for it. */
  ghost predicate ChangesAccounted(p: Pool, p': Pool, e: Env, step: Step, asset: Symbol) {
    && (asset in p'.queued && !(asset in p.queued && p.queued[asset] == p'.queued[asset]) ==>
          && step == QueueParamsStep(asset, p'.queued[asset].newParams) && ValidParams(p'.queued[asset].newParams)
          && QueueReserveParams(p, e, asset, p'.queued[asset].newParams).Ok?
          && p'.queued[asset].unlockTime == e.now + if p.state == OnIce then 0 else CONFIG_DELAY_SECONDS)
    && (asset in p'.params && !(asset in p.params && p.params[asset] == p'.params[asset]) ==>
          && step == ApplyParamsStep(asset) && ApplyQueuedParams(p, e, asset).Ok? && asset in p.queued
          && p.queued[asset].newParams == p'.params[asset] && p.queued[asset].unlockTime <= e.now)
  }

  lemma QueueCase(p: Pool, e: Env, a: Symbol, ps: InterestRateParams, asset: Symbol)
    ensures ChangesAccounted(p, Settle(p, QueueReserveParams(p, e, a, ps)).0, e, QueueParamsStep(a, ps), asset)
  {
  }

  lemma ApplyCase(p: Pool, e: Env, a: Symbol, asset: Symbol)
    ensures ChangesAccounted(p, Settle(p, ApplyQueuedParams(p, e, a)).0, e, ApplyParamsStep(a), asset)
  {
    var r := ApplyQueuedParams(p, e, a);
    if r.Ok? {
      var p' := r.value.0;
      assert a in p.queued && p.queued[a].unlockTime <= e.now;
      assert p'.params == p.params[a := p.queued[a].newParams] && p'.queued == p.queued - {a};
      hide ApplyQueuedParams;
      if asset == a {
        assert asset !in p'.queued && p'.params[asset] == p.queued[asset].newParams;
      } else {
        assert asset in p'.queued ==> p'.queued[asset] == p.queued[asset];
        assert asset in p'.params ==> p'.params[asset] == p.params[asset];
      }
    }
  }

  lemma QueueStepCases(p: Pool, e: Env, step: Step, asset: Symbol)
    requires QueueStep(step)
    ensures ChangesAccounted(p, QueueNext(p, e, step), e, step, asset)
  {
    match step
    case QueueParamsStep(a, ps) =>
      hide ChangesAccounted, QueueReserveParams, Settle;
      QueueCase(p, e, a, ps, asset);
    case ApplyParamsStep(a) =>
      hide ChangesAccounted, ApplyQueuedParams, Settle;
      ApplyCase(p, e, a, asset);
    case DropParamsStep(a) =>
  }

  lemma StepCases(p: Pool, e: Env, step: Step, asset: Symbol)
    ensures ChangesAccounted(p, Next(p, e, step), e, step, asset)
  {
    hide LedgerNext, AuctionNext, QueueNext, SettingNext;
    if QueueStep(step) {
      QueueStepCases(p, e, step, asset);
    } else {
      StepFrame(p, e, step);
    }
  }

  /** One step keeps the queue traced. */
  lemma QueueTracedStep(p: Pool, events: seq<Event>, asset: Symbol)
    requires events != [] && QueueTraced(p, events[..|events| - 1], asset)
    ensures QueueTraced(p, events, asset)
  {
    hide Next, ValidParams, QueueReserveParams, ApplyQueuedParams;
    var init, last := events[..|events| - 1], events[|events| - 1];
    var before, after := Run(p, init), Run(p, events);
    if asset in after.queued {
      var entry := after.queued[asset];
      StepCases(before, last.env, last.step, asset);
      if QueuedIn(before, asset, entry) {
        var i :| QueuedSince(p, init, i, |init|, asset, entry);
        hide QueuedSince;
        QueuedLonger(p, events, i, asset, entry);
      } else {
        assert events[..|events|] == events;
        assert QueuedSince(p, events, |init|, |events|, asset, entry);
      }
    }
  }

  /** One step keeps the parameters in force traced. */
  lemma ParamsTracedStep(p: Pool, events: seq<Event>, asset: Symbol)
    requires events != []
    requires QueueTraced(p, events[..|events| - 1], asset) && ParamsTraced(p, events[..|events| - 1], asset)
    ensures ParamsTraced(p, events, asset)
  {
    hide Next, QueuedSince, ValidParams, QueueReserveParams, ApplyQueuedParams;
    var init, last := events[..|events| - 1], events[|events| - 1];
    var before, after := Run(p, init), Run(p, events);
    if asset in after.params {
      var ps := after.params[asset];
      StepCases(before, last.env, last.step, asset);
      if InForce(before, asset, ps) {
        var i, j, entry: QueuedReserveConfig :| entry.newParams == ps && AppliedAt(p, init, i, j, asset, entry);
        hide AppliedAt;
        AppliedLonger(p, events, i, j, asset, entry);
      } else {
        var entry := before.queued[asset];
        var i :| QueuedSince(p, init, i, |init|, asset, entry);
        QueuedInPrefix(p, events, i, |init|, asset, entry);
        assert events[..|events|] == events;
        assert AppliedAt(p, events, i, |init|, asset, entry);
      }
    }
  }

  /** Over every run from a pool without configured parameters, whatever is in force was validated and
      queued by a successful event, stayed queued until a successful event applied it after its unlock
      time — at once if it was queued while the pool was on ice, seven days later otherwise — and has
      been in force since. */
  lemma {:induction false} ParamsAreTimelocked(p: Pool, events: seq<Event>, asset: Symbol)
    requires p.params == map[] && p.queued == map[]
    ensures QueueTraced(p, events, asset) && ParamsTraced(p, events, asset)
  {
    if events != [] {
      ParamsAreTimelocked(p, events[..|events| - 1], asset);
      QueueTracedStep(p, events, asset);
      ParamsTracedStep(p, events, asset);
      hide QueueTraced, ParamsTraced;
    }
  }
}
