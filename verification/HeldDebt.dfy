/** Equity that counts only debt somebody owes: what accrual adds to dTokens without a holder is never paid. */
module HeldDebt {
  import opened Outcomes
  import opened FixedPoint
  import opened Sums
  import opened PoolTypes
  import opened PoolStore
  import opened PoolOperations
  import opened PoolInvariants
  import opened PoolSteps
  import opened PoolRuns
  import opened LedgerRuns
  import Interest

  function DebtRate(p: Pool, asset: Symbol): int {
    ReserveOf(p, asset, 0).dRate
  }

  /** Liquid tokens and the debt of the borrowers, less lender claims and both credits. */
  ghost function HeldEquity(p: Pool, asset: Symbol): int {
    var r := ReserveOf(p, asset, 0);
    BalanceOf(p, asset) * SCALAR_12 + TokenSum(p.dTokens, asset) * r.dRate
      - r.bSupply * r.bRate - (r.backstopCredit + r.treasuryCredit) * SCALAR_12
  }

  lemma HeldIsEquityLessOrphans(p: Pool, asset: Symbol)
    ensures HeldEquity(p, asset) == EquityOf(p, asset) - OrphanedDebt(p, asset) * DebtRate(p, asset)
  {
    var r := ReserveOf(p, asset, 0);
    assert (r.dSupply - TokenSum(p.dTokens, asset)) * r.dRate
      == r.dSupply * r.dRate - TokenSum(p.dTokens, asset) * r.dRate;
  }

  /** Held equity falls by at most what the debt rate's rise adds to dTokens without a holder. */
  ghost predicate HeldKept(p: Pool, p': Pool, asset: Symbol) {
    HeldEquity(p', asset) >= HeldEquity(p, asset) - OrphanedDebt(p, asset) * (DebtRate(p', asset) - DebtRate(p, asset))
  }

  lemma OrdinaryStep(p: Pool, p': Pool, asset: Symbol)
    requires Progress(p, p', asset) && OrphanedDebt(p', asset) == OrphanedDebt(p, asset)
    ensures HeldKept(p, p', asset)
  {
    HeldIsEquityLessOrphans(p, asset);
    HeldIsEquityLessOrphans(p', asset);
    var o := OrphanedDebt(p, asset);
    assert o * (DebtRate(p', asset) - DebtRate(p, asset)) == o * DebtRate(p', asset) - o * DebtRate(p, asset);
    hide EquityOf, OrphanedDebt, HeldEquity, DebtRate;
  }

  /** A fill orphans dTokens only against at least their value in tokens. */
  lemma FillStep(p: Pool, e: Env, id: int, asset: Symbol)
    requires PoolInv(p) && FillAuction(p, e, id).Ok?
    ensures HeldKept(p, FillAuction(p, e, id).value.0, asset)
  {
    hide FillAuction, PoolInv, LedgerInv, TokenSum, HeldKept;
    PoolIsLedger(p);
    var token, debtToken, debtAsset, received, paid, burnt, books := FillEffect(p, e, id);
    var p', user := FillAuction(p, e, id).value.0, p.auctions[id].user;
    TokenSumUpdate(p.dTokens, user, debtAsset, Holding(p.dTokens, user, debtAsset) - burnt, asset);
    if asset == debtAsset {
      assert burnt * ReserveOf(p, asset, 0).dRate <= paid * SCALAR_12;
      PaidForDebt(p, p', asset, paid, burnt);
    } else {
      PaidForDebt(p, p', asset, 0, 0);
    }
  }

  lemma PaidForDebt(p: Pool, p': Pool, asset: Symbol, paid: int, burnt: int)
    requires ReserveOf(p', asset, 0) == ReserveOf(p, asset, 0) && BalanceOf(p', asset) == BalanceOf(p, asset) + paid
    requires TokenSum(p'.dTokens, asset) == TokenSum(p.dTokens, asset) - burnt
    requires burnt * ReserveOf(p, asset, 0).dRate <= paid * SCALAR_12
    ensures HeldKept(p, p', asset)
  {
    hide TokenSum, BalanceOf, ReserveOf, OrphanedDebt;
    var sum, rate := TokenSum(p.dTokens, asset), ReserveOf(p, asset, 0).dRate;
    assert (sum - burnt) * rate == sum * rate - burnt * rate;
    assert OrphanedDebt(p, asset) * 0 == 0;
  }

  lemma StepKeepsHeld(p: Pool, e: Env, step: Step, asset: Symbol)
    requires PoolInv(p) && StepAllowed(p, step)
    ensures HeldKept(p, Next(p, e, step), asset)
  {
    hide PoolInv, StepAllowed, Kept;
    StepKeeps(p, e, step);
    if step.FillAuctionStep? {
      hide FillAuction;
      if FillAuction(p, e, step.id).Ok? {
        FillStep(p, e, step.id, asset);
      } else {
        Unmoved(p, asset);
      }
    } else {
      hide Next;
      KeptProgress(p, Next(p, e, step), asset);
      OrdinaryStep(p, Next(p, e, step), asset);
    }
  }

  lemma Unmoved(p: Pool, asset: Symbol)
    ensures HeldKept(p, p, asset)
  {
  }

  lemma KeptProgress(p: Pool, p': Pool, asset: Symbol)
    requires Kept(p, p')
    ensures Progress(p, p', asset) && PoolInv(p')
  {
  }

  /** The invariant's view of one asset's orphans and debt rate over a step. */
  lemma StepGrows(p: Pool, e: Env, step: Step, asset: Symbol)
    requires PoolInv(p) && StepAllowed(p, step)
    ensures PoolInv(Next(p, e, step))
    ensures 0 <= OrphanedDebt(p, asset) <= OrphanedDebt(Next(p, e, step), asset)
    ensures DebtRate(p, asset) <= DebtRate(Next(p, e, step), asset)
  {
    assert AssetInv(p, asset);
    hide PoolInv, StepAllowed, Next, Kept;
    StepKeeps(p, e, step);
    KeptProgress(p, Next(p, e, step), asset);
  }

  lemma OrphanCost(o0: int, o1: int, rate0: int, rate1: int, rate2: int, held0: int, held1: int, held2: int)
    requires 0 <= o0 <= o1 && rate0 <= rate1 <= rate2
    requires held1 >= held0 - o0 * (rate1 - rate0) && held2 >= held1 - o0 * (rate2 - rate1)
    ensures held2 >= held0 - o1 * (rate2 - rate0)
  {
    assert o0 * (rate1 - rate0) + o0 * (rate2 - rate1) == o0 * (rate2 - rate0);
    MulMono(o0, o1, rate2 - rate0);
  }

  /** From `p` to `q`, held equity has fallen by at most the debt rate's rise on the orphans of `q`. */
  ghost predicate HeldOver(p: Pool, q: Pool, asset: Symbol) {
    && 0 <= OrphanedDebt(p, asset) <= OrphanedDebt(q, asset)
    && DebtRate(p, asset) <= DebtRate(q, asset)
    && HeldEquity(q, asset) >= HeldEquity(p, asset) - OrphanedDebt(q, asset) * (DebtRate(q, asset) - DebtRate(p, asset))
  }

  lemma HeldOverStep(p: Pool, mid: Pool, e: Env, step: Step, asset: Symbol)
    requires HeldOver(p, mid, asset) && PoolInv(mid) && StepAllowed(mid, step)
    ensures HeldOver(p, Next(mid, e, step), asset)
  {
    hide Next, StepAllowed, PoolInv, HeldEquity, OrphanedDebt, DebtRate;
    StepGrows(mid, e, step, asset);
    StepKeepsHeld(mid, e, step, asset);
    var end := Next(mid, e, step);
    OrphanCost(OrphanedDebt(mid, asset), OrphanedDebt(end, asset),
               DebtRate(p, asset), DebtRate(mid, asset), DebtRate(end, asset),
               HeldEquity(p, asset), HeldEquity(mid, asset), HeldEquity(end, asset));
  }

  lemma HeldOverStart(p: Pool, asset: Symbol)
    requires PoolInv(p)
    ensures HeldOver(p, p, asset)
  {
    assert AssetInv(p, asset);
  }

  /** Over every run, held equity falls by at most the growth of the debt rate on the dTokens that
      have no holder at the end.  Only liquidation fills leave any, and only accrual moves the rate. */
  lemma {:induction false} HeldEquityOverRuns(p: Pool, events: seq<Event>, asset: Symbol)
    requires PoolInv(p) && RunAllowed(p, events)
    ensures PoolInv(Run(p, events)) && HeldOver(p, Run(p, events), asset)
  {
    hide Next, StepAllowed, PoolInv, HeldOver, Kept;
    if events == [] {
      HeldOverStart(p, asset);
    } else {
      var init, last := events[..|events| - 1], events[|events| - 1];
      HeldEquityOverRuns(p, init, asset);
      HeldOverStep(p, Run(p, init), last.env, last.step, asset);
      StepKeeps(Run(p, init), last.env, last.step);
      KeptProgress(Run(p, init), Next(Run(p, init), last.env, last.step), asset);
    }
  }

  /** On runs without liquidation fills, from a pool without orphans, held equity never falls: the
      borrowers' debt and liquid tokens keep covering every claim. */
  lemma HeldEquityWithoutFills(p: Pool, events: seq<Event>, asset: Symbol)
    requires PoolInv(p) && RunAllowed(p, events) && OrphanedDebt(p, asset) == 0
    requires forall i :: 0 <= i < |events| ==> !events[i].step.FillAuctionStep?
    ensures OrphanedDebt(Run(p, events), asset) == 0
    ensures HeldEquity(Run(p, events), asset) >= HeldEquity(p, asset)
  {
    hide PoolInv, RunAllowed, Run, HeldEquity, DebtRate;
    HeldEquityOverRuns(p, events, asset);
    PoolIsLedger(p);
    SupplyOverRuns(p, events);
    assert OrphanedDebt(Run(p, events), asset) == OrphanedDebt(p, asset);
  }

  // ---- What orphans cost ----

  /** A pool whose lender is fully covered by liquid tokens, while half as many dTokens have no holder. */
  function OrphanPool(r: Reserve): Pool {
    Pool(Active, 0, 0, 0, 0, None, map[0 := 5], map[], map[], map[],
         map[0 := r], map[0 := 1_000_000_000_000],
         map[UserAsset(1, 0) := 1_000_000_000_000], map[], map[], map[], map[5 := 1_000_000_000_000])
  }

  const ORPHANED: Reserve :=
    Reserve(SCALAR_12, SCALAR_12, SCALAR_7, 1_000_000_000_000, 500_000_000_000, 0, 0, 0)

  lemma OrphanPoolInv()
    ensures PoolInv(OrphanPool(ORPHANED)) && HeldEquity(OrphanPool(ORPHANED), 0) == 0
  {
    var p := OrphanPool(ORPHANED);
    forall a: Symbol
      ensures AssetInv(p, a) && TokenSum(p.dTokens, a) == 0
    {
      SumSplit(p.bTokens, OfAsset(a), UserAsset(1, 0));
      assert p.bTokens - {UserAsset(1, 0)} == map[];
    }
    forall t: Address
      ensures CustodyInv(p, t)
    {
      if t == 5 {
        assert 0 in p.tokenContract;
      }
    }
  }

  const AFTER_A_YEAR: Reserve :=
    Reserve(1_021_666_650_000, 1_043_333_300_000, 1_000_000, 1_000_000_000_000, 500_000_000_000, 0, 0, 31_536_000)

  lemma OrphanYear()
    ensures Interest.Accrue(ORPHANED, None, 0, 0, 31_536_000) == Ok(AFTER_A_YEAR)
  {
    var ps := Interest.DEFAULT_PARAMS;
    assert Interest.Utilization(ORPHANED) == Ok(5_000_000);
    assert Interest.InterestRate(ps, 5_000_000, SCALAR_7) == Ok(433_333);
    assert Interest.AccrualFactor(433_333, 31_536_000) == Ok(1_043_333_300_000);
    assert Interest.NextIrMod(ps, 5_000_000, SCALAR_7, 31_536_000) == Ok(1_000_000);
    assert Interest.InterestEarned(500_000_000_000, 43_333_300_000) == Ok(21_666_650_000);
    assert Interest.SpreadToLenders(1_000_000_000_000, 1_000_000_000_000, 21_666_650_000) == Ok(1_021_666_650_000);
    hide Interest.Utilization, Interest.InterestRate, Interest.AccrualFactor, Interest.NextIrMod,
         Interest.InterestEarned, Interest.SpreadToLenders;
  }

  lemma OrphanYearPasses()
    ensures Next(OrphanPool(ORPHANED), Env(31_536_000, 0, map[], map[]), AccrueStep(0)) == OrphanPool(AFTER_A_YEAR)
  {
    OrphanYear();
    hide Interest.Accrue;
    assert OrphanPool(ORPHANED).reserves[0 := AFTER_A_YEAR] == OrphanPool(AFTER_A_YEAR).reserves;
  }

  lemma OrphansUncovered()
    ensures HeldEquity(OrphanPool(AFTER_A_YEAR), 0) < 0
  {
    assert OrphanPool(AFTER_A_YEAR).dTokens == map[];
    assert TokenSum(map[], 0) == 0;
    hide TokenSum;
  }

  /** Accrual credits lenders with interest on debt nobody owes.  From a pool that satisfies the
      invariant, one year's accrual leaves a claim that tokens in hand and held debt do not cover,
      while the invariant, which counts the orphans, goes on holding. */
  lemma OrphansUncoverLenders()
    ensures var p := OrphanPool(ORPHANED);
            var p' := Next(p, Env(31_536_000, 0, map[], map[]), AccrueStep(0));
            && PoolInv(p) && HeldEquity(p, 0) == 0 && PoolInv(p') && HeldEquity(p', 0) < 0
  {
    hide Next, PoolInv, HeldEquity, OrphanPool;
    OrphanPoolInv();
    OrphanYearPasses();
    OrphansUncovered();
    StepKeeps(OrphanPool(ORPHANED), Env(31_536_000, 0, map[], map[]), AccrueStep(0));
  }
}
