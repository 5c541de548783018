/** Safety of the lending pool over every run of its operations. */
module PoolRuns {
  import opened Outcomes
  import opened FixedPoint
  import opened PoolTypes
  import opened PoolStore
  import opened PoolOperations
  import opened PoolInvariants
  import opened PoolSteps

  /** What the run theorems ask of a step: the administrator keeps the two interest shares within
      100%, and an interest fill does not take the credit past the end of the `i128` range. */
  predicate StepAllowed(p: Pool, step: Step) {
    match step
    case SetTakeRateStep(rate) => rate <= SCALAR_7 ==> rate + p.reserveFactor <= SCALAR_7
    case FillInterestAuctionStep(id, asset, fillPercent) => DrawInRange(p, id, asset, fillPercent)
    case _ => true
  }

  predicate RunAllowed(p: Pool, events: seq<Event>) {
    events == [] ||
      (RunAllowed(p, events[..|events| - 1])
       && StepAllowed(Run(p, events[..|events| - 1]), events[|events| - 1].step))
  }

  lemma UnchangedKept(p: Pool)
    requires PoolInv(p)
    ensures KeptExactly(p, p)
  {
    ConfigKeeps(p, p);
  }

  /** User operations on the ledgers. */
  lemma LedgerStepKeeps(p: Pool, e: Env, step: Step)
    requires PoolInv(p) && LedgerStep(step)
    ensures KeptExactly(p, LedgerNext(p, e, step))
  {
    UnchangedKept(p);
    hide PoolInv, KeptExactly, Deposit, Withdraw, Borrow, Repay, AddCollateral, RemoveCollateral;
    match step
    case DepositStep(u, a, x) => if Deposit(p, e, u, a, x).Ok? { DepositKeeps(p, e, u, a, x); }
    case WithdrawStep(u, a, x) => if Withdraw(p, e, u, a, x).Ok? { WithdrawKeeps(p, e, u, a, x); }
    case BorrowStep(u, a, x) => if Borrow(p, e, u, a, x).Ok? { BorrowKeeps(p, e, u, a, x); }
    case RepayStep(u, a, x) => if Repay(p, e, u, a, x).Ok? { RepayKeeps(p, e, u, a, x); }
    case AddCollateralStep(u, t, x) => if AddCollateral(p, e, u, t, x).Ok? { AddCollateralKeeps(p, e, u, t, x); }
    case RemoveCollateralStep(u, t, x) => if RemoveCollateral(p, e, u, t,
      x).Ok? { RemoveCollateralKeeps(p, e, u, t, x); }
  }

  /** Auctions, accrual and fee collection, liquidation fills aside. */
  lemma AuctionStepKeeps(p: Pool, e: Env, step: Step)
    requires PoolInv(p) && StepAllowed(p, step) && AuctionStep(step) && !step.FillAuctionStep?
    ensures KeptExactly(p, AuctionNext(p, e, step))
  {
    UnchangedKept(p);
    hide PoolInv, KeptExactly, InitiateLiquidation, CreateInterestAuction, FillInterestAuction, AccrueOnly,
      CollectTreasuryFees;
    match step
    case InitiateLiquidationStep(u, t, a, x) =>
      if InitiateLiquidation(p, e, u, t, a, x).Ok? { InitiateKeeps(p, e, u, t, a, x); }
    case CreateInterestAuctionStep(c, a) =>
      if CreateInterestAuction(p, e, c, a).Ok? { CreateInterestKeeps(p, e, c, a); }
    case FillInterestAuctionStep(id, a, x) =>
      if FillInterestAuction(p, e, id, a, x).Ok? { FillInterestKeeps(p, e, id, a, x); }
    case AccrueStep(a) => if AccrueOnly(p, e, a).Ok? { AccrueOnlyKeeps(p, e, a); }
    case CollectTreasuryStep(a) => if CollectTreasuryFees(p, e, a).Ok? { CollectKeeps(p, e, a); }
    case DropAuctionStep(id) => AuctionsOnlyKeeps(p, AuctionNext(p, e, step));
  }

  lemma SettledConfig(p: Pool, r: Result<(Pool, ())>)
    requires FeesOk(p) && (r.Ok? ==> FeesOk(r.value.0) && ConfigMove(p, r.value.0))
    ensures FeesOk(Settle(p, r).0) && ConfigMove(p, Settle(p, r).0)
  {
  }

  /** Settings touch configuration only, and validated fees stay within bounds. */
  lemma SettingEffect(p: Pool, step: Step)
    requires FeesOk(p) && StepAllowed(p, step)
    requires !LedgerStep(step) && !AuctionStep(step) && !QueueStep(step)
    ensures FeesOk(SettingNext(p, step)) && ConfigMove(p, SettingNext(p, step))
  {
    hide Settle;
    match step
    case SetTakeRateStep(rate) => SettledConfig(p, SetBackstopTakeRate(p, rate));
    case SetReserveFactorStep(rate) => SettledConfig(p, SetReserveFactor(p, rate));
    case SetOriginationFeeStep(rate) => SettledConfig(p, SetOriginationFeeRate(p, rate));
    case SetLiquidationFeeStep(rate) => SettledConfig(p, SetLiquidationFeeRate(p, rate));
    case SetCollateralFactorStep(t, f) => SettledConfig(p, SetCollateralFactor(p, t, f));
    case SetPoolStateStep(s) =>
    case BackstopPushStep(c, ordinal) => SettledConfig(p, UpdatePoolStateFromBackstop(p, c, ordinal));
  }

  lemma QueueEffect(p: Pool, e: Env, step: Step)
    requires FeesOk(p) && QueueStep(step)
    ensures FeesOk(QueueNext(p, e, step)) && ConfigMove(p, QueueNext(p, e, step))
  {
    hide Settle;
    match step
    case QueueParamsStep(a, ps) => SettledConfig(p, QueueReserveParams(p, e, a, ps));
    case ApplyParamsStep(a) => SettledConfig(p, ApplyQueuedParams(p, e, a));
    case DropParamsStep(a) =>
  }

  lemma SettingStepKeeps(p: Pool, step: Step)
    requires PoolInv(p) && StepAllowed(p, step)
    requires !LedgerStep(step) && !AuctionStep(step) && !QueueStep(step)
    ensures KeptExactly(p, SettingNext(p, step))
  {
    assert FeesOk(p);
    hide PoolInv, KeptExactly;
    SettingEffect(p, step);
    hide SettingNext, FeesOk;
    ConfigKeeps(p, SettingNext(p, step));
  }

  lemma QueueStepKeeps(p: Pool, e: Env, step: Step)
    requires PoolInv(p) && QueueStep(step)
    ensures KeptExactly(p, QueueNext(p, e, step))
  {
    assert FeesOk(p);
    hide PoolInv, KeptExactly;
    QueueEffect(p, e, step);
    hide QueueNext, FeesOk;
    ConfigKeeps(p, QueueNext(p, e, step));
  }

  lemma FillStepKeeps(p: Pool, e: Env, id: int)
    requires PoolInv(p)
    ensures Kept(p, AuctionNext(p, e, FillAuctionStep(id)))
    ensures forall a: Symbol :: OrphanedDebt(AuctionNext(p, e, FillAuctionStep(id)), a) >= OrphanedDebt(p, a)
  {
    UnchangedKept(p);
    hide PoolInv, FillAuction;
    if FillAuction(p, e, id).Ok? {
      FillKeeps(p, e, id);
    }
  }

  /** Every step keeps the invariant, lowers no reserve's equity and no debt rate; only a
      liquidation fill changes the amount of debt tokens without a holder, and it adds to it. */
  lemma StepKeeps(p: Pool, e: Env, step: Step)
    requires PoolInv(p) && StepAllowed(p, step)
    ensures Kept(p, Next(p, e, step))
    ensures forall a: Symbol :: OrphanedDebt(Next(p, e, step), a) >= OrphanedDebt(p, a)
    ensures !step.FillAuctionStep? ==> SameOrphans(p, Next(p, e, step))
  {
    hide PoolInv, Kept, StepAllowed, LedgerNext, AuctionNext, QueueNext, SettingNext;
    if LedgerStep(step) {
      LedgerStepKeeps(p, e, step);
    } else if step.FillAuctionStep? {
      FillStepKeeps(p, e, step.id);
    } else if AuctionStep(step) {
      AuctionStepKeeps(p, e, step);
    } else if QueueStep(step) {
      QueueStepKeeps(p, e, step);
    } else {
      SettingStepKeeps(p, step);
    }
  }

  /** Over every run: no reserve's equity falls, so a solvent pool stays solvent with both
      protocol credits counted; no debt rate falls. */
  lemma {:induction false} SolvencyOverRuns(p: Pool, events: seq<Event>)
    requires PoolInv(p) && RunAllowed(p, events)
    ensures PoolInv(Run(p, events))
    ensures forall a: Symbol :: EquityOf(Run(p, events), a) >= EquityOf(p, a)
    ensures forall a: Symbol :: ReserveOf(Run(p, events), a, 0).dRate >= ReserveOf(p, a, 0).dRate
    ensures forall a: Symbol :: Solvent(Run(p, events), a)
    ensures forall a: Symbol :: ReserveOf(Run(p, events), a, 0).bRate >= SCALAR_12
  {
    hide Next, StepAllowed;
    if events != [] {
      var init, last := events[..|events| - 1], events[|events| - 1];
      SolvencyOverRuns(p, init);
      StepKeeps(Run(p, init), last.env, last.step);
      forall a: Symbol
        ensures EquityOf(Run(p, events), a) >= EquityOf(p, a)
        ensures ReserveOf(Run(p, events), a, 0).dRate >= ReserveOf(p, a, 0).dRate
      {
        assert Progress(Run(p, init), Run(p, events), a);
      }
    }
    forall a: Symbol
      ensures Solvent(Run(p, events), a) && ReserveOf(Run(p, events), a, 0).bRate >= SCALAR_12
    {
      assert AssetInv(Run(p, events), a);
    }
  }

  /** One more event on a run. */
  lemma RunStep(p: Pool, events: seq<Event>, event: Event)
    ensures Run(p, events + [event]) == Next(Run(p, events), event.env, event.step)
    ensures RunAllowed(p, events + [event]) <==> RunAllowed(p, events) && StepAllowed(Run(p, events), event.step)
  {
    hide Next, StepAllowed;
    assert (events + [event])[..|events|] == events;
  }

  /** The run of one more event of a script. */
  lemma RunNext(p: Pool, events: seq<Event>, k: nat, q: Pool)
    requires k < |events| && Run(p, events[..k]) == q && RunAllowed(p, events[..k])
    requires StepAllowed(q, events[k].step)
    ensures Run(p, events[..k + 1]) == Next(q, events[k].env, events[k].step) && RunAllowed(p, events[..k + 1])
  {
    hide *;
    RunStep(p, events[..k], events[k]);
    assert events[..k] + [events[k]] == events[..k + 1];
  }

  lemma RunStart(p: Pool)
    ensures Run(p, []) == p && RunAllowed(p, [])
  {
  }

  /** A freshly initialized pool: fees validated, nothing deposited. */
  predicate Fresh(p: Pool) {
    && FeesOk(p)
    && p.reserves == map[] && p.poolBalance == map[] && p.bTokens == map[] && p.dTokens == map[]
    && p.cdps == map[] && p.auctions == map[] && p.custody == map[]
  }

  lemma FreshPoolInv(p: Pool)
    requires Fresh(p)
    ensures PoolInv(p)
  {
  }

  /** The share limit is enforced when the reserve factor is set but not when the take rate is. */
  lemma TakeRateKeepsFeesIff(p: Pool, rate: U32)
    requires FeesOk(p) && SetBackstopTakeRate(p, rate).Ok?
    ensures FeesOk(SetBackstopTakeRate(p, rate).value.0) <==> rate + p.reserveFactor <= SCALAR_7
  {
  }

  lemma TakeRateCanBreakFees(p: Pool)
    requires FeesOk(p) && p.reserveFactor == 1
    ensures SetBackstopTakeRate(p, SCALAR_7).Ok? && !FeesOk(SetBackstopTakeRate(p, SCALAR_7).value.0)
  {
  }
}
