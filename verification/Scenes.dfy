/** Runs from a fresh pool, evaluated: a borrow that leaves its borrower liquidatable, a removal of
    collateral that leaves a health factor below 1.1, and an accrual that lowers the lenders' rate. */
module Scenes {
  import opened Outcomes
  import opened FixedPoint
  import opened Tables
  import opened PoolTypes
  import opened PoolStore
  import opened Valuation
  import opened PoolOperations
  import opened PoolInvariants
  import opened PoolSteps
  import opened PoolRuns
  import opened BorrowSafety
  import opened ParSteps
  import Interest

  /** One lender, one borrower: the rates and parameters, and what each puts in or takes out. */
  datatype Scene = Scene(takeRate: U32, feeRate: U32, ps: InterestRateParams,
                         supply: int, held: int, amount: int, fee: int)

  predicate Configurable(s: Scene) {
    Interest.ValidParams(s.ps) && s.ps.enabled && s.ps.supplyCap == 0
  }

  predicate Playable(s: Scene) {
    && Configurable(s) && 0 < s.supply <= LARGE && 0 < s.held <= LARGE
    && 0 < s.amount && 0 <= s.fee && s.amount + s.fee < s.supply && MulScalar7Ceil(s.amount, s.feeRate) == Ok(s.fee)
  }

  /** Asset 0 on token 5, collateral token 10 of factor 1.0, nothing deposited. */
  function Opened(s: Scene, state: PoolState, params: map<Symbol, InterestRateParams>,
      queued: map<Symbol, QueuedReserveConfig>): Pool {
    Pool(state, s.takeRate, 0, s.feeRate, 0, None, map[0 := 5], map[10 := 10_000_000], params, queued,
         map[], map[], map[], map[], map[], map[], map[])
  }

  function NewPool(s: Scene): Pool {
    Opened(s, Active, map[], map[])
  }

  function Ready(s: Scene): Pool {
    Opened(s, Active, map[0 := s.ps], map[])
  }

  /** Lender 1 has put in the supply. */
  function Funded(s: Scene): Pool {
    Ready(s).(reserves := map[0 := Reserve(SCALAR_12, SCALAR_12, SCALAR_7, s.supply, 0, 0, 0, 0)],
              poolBalance := map[0 := s.supply], bTokens := map[UserAsset(1, 0) := s.supply],
              custody := map[5 := s.supply])
  }

  /** Borrower 2 has put up the collateral. */
  function Secured(s: Scene): Pool {
    Funded(s).(cdps := map[2 := CDP([Entry(10, s.held)], None, 0, 0, 0)],
               custody := map[5 := s.supply, 10 := s.held])
  }

  function DebtOf(s: Scene): int {
    s.amount + s.fee
  }

  /** Borrower 2 has taken the amount and owes the fee on top; the reserve may have accrued since. */
  function Owing(s: Scene, r: Reserve): Pool {
    Funded(s).(reserves := map[0 := r], poolBalance := map[0 := s.supply - s.amount],
               cdps := map[2 := CDP([Entry(10, s.held)], Some(0), DebtOf(s), 0, 0)],
               dTokens := map[UserAsset(2, 0) := DebtOf(s)],
               custody := map[5 := s.supply - s.amount, 10 := s.held])
  }

  function Indebted(s: Scene): Pool {
    Owing(s, Reserve(SCALAR_12, SCALAR_12, SCALAR_7, s.supply, DebtOf(s), 0, s.fee, 0))
  }

  /** Every token is worth one. */
  const ONE: Env := Env(0, 0, map[10 := Quote(1, 0)], map[0 := Quote(1, 0)])

  /** The parameters are set while the pool is on ice, then lender and borrower come in. */
  function Opening(s: Scene): seq<Event> {
    [Event(ONE, SetPoolStateStep(OnIce)), Event(ONE, QueueParamsStep(0, s.ps)), Event(ONE, ApplyParamsStep(0)),
     Event(ONE, SetPoolStateStep(Active)), Event(ONE, DepositStep(1, 0, s.supply)),
     Event(ONE, AddCollateralStep(2, 10, s.held)), Event(ONE, BorrowStep(2, 0, s.amount))]
  }

  lemma StateSet(p: Pool, e: Env, state: PoolState)
    ensures Next(p, e, SetPoolStateStep(state)) == p.(state := state)
  {
  }

  lemma QueuedOnIce(s: Scene)
    requires Configurable(s)
    ensures Next(Opened(s, OnIce, map[], map[]), ONE, QueueParamsStep(0, s.ps))
         == Opened(s, OnIce, map[], map[0 := QueuedReserveConfig(s.ps, 0)])
  {
    hide LedgerNext, AuctionNext, SettingNext;
    assert map[][0 := QueuedReserveConfig(s.ps, 0)] == map[0 := QueuedReserveConfig(s.ps, 0)];
  }

  lemma Applied(s: Scene)
    ensures Next(Opened(s, OnIce, map[], map[0 := QueuedReserveConfig(s.ps, 0)]), ONE, ApplyParamsStep(0))
         == Opened(s, OnIce, map[0 := s.ps], map[])
  {
    hide LedgerNext, AuctionNext, SettingNext;
    assert map[0 := QueuedReserveConfig(s.ps, 0)] - {0} == map[] && map[][0 := s.ps] == map[0 := s.ps];
  }

  lemma Fund(s: Scene)
    requires Playable(s)
    ensures Deposit(Ready(s), ONE, 1, 0, s.supply) == Ok((Funded(s), s.supply))
  {
    hide Deposit;
    var p, p' := Ready(s), Funded(s);
    DepositAtPar(p, ONE, 1, 0, s.supply);
    assert p.reserves[0 := p'.reserves[0]] == p'.reserves && p.poolBalance[0 := s.supply] == p'.poolBalance;
    assert p.bTokens[UserAsset(1, 0) := s.supply] == p'.bTokens && p.custody[5 := s.supply] == p'.custody;
  }

  lemma Secure(s: Scene)
    requires Playable(s)
    ensures AddCollateral(Funded(s), ONE, 2, 10, s.held) == Ok((Secured(s), ()))
  {
    hide AddCollateral;
    var p, p' := Funded(s), Secured(s);
    AddCollateralAlways(p, ONE, 2, 10, s.held);
    assert Set([], 10, s.held) == [Entry(10, s.held)];
    assert p.cdps[2 := p'.cdps[2]] == p'.cdps && p.custody[10 := s.held] == p'.custody;
  }

  lemma SecuredIs(s: Scene)
    requires Playable(s)
    ensures var p := Secured(s);
            && AtPar(p, ONE, 0) && BalanceOf(p, 0) == s.supply && CustodyOf(p, 5) == s.supply
            && ReserveOf(p, 0, 0) == Reserve(SCALAR_12, SCALAR_12, SCALAR_7, s.supply, 0, 0, 0, 0)
            && Holding(p.dTokens, 2, 0) == 0 && CDPOrNew(p, 2, 0) == CDP([Entry(10, s.held)], None, 0, 0, 0)
  {
  }

  lemma DebtBooked(s: Scene)
    ensures var p, debt, left := Secured(s), DebtOf(s), s.supply - s.amount;
            p.(reserves := p.reserves[0 := Reserve(SCALAR_12, SCALAR_12, SCALAR_7, s.supply, debt, 0, s.fee, 0)],
               poolBalance := p.poolBalance[0 := left],
               cdps := p.cdps[2 := CDP([Entry(10, s.held)], Some(0), debt, 0, 0)],
               dTokens := p.dTokens[UserAsset(2, 0) := debt],
               custody := p.custody[5 := left]) == Indebted(s)
  {
    var p, p', left := Secured(s), Indebted(s), s.supply - s.amount;
    assert p.cdps[2 := p'.cdps[2]] == p'.cdps && p.reserves[0 := p'.reserves[0]] == p'.reserves;
    assert p.custody[5 := left] == p'.custody && p.poolBalance[0 := left] == p'.poolBalance;
    assert p.dTokens[UserAsset(2, 0) := DebtOf(s)] == p'.dTokens;
  }

  lemma TakeDebt(s: Scene)
    requires Playable(s) && BorrowAllowed(Secured(s), ONE, 2, 0, s.amount).Ok?
    ensures Borrow(Secured(s), ONE, 2, 0, s.amount) == Ok((Indebted(s), DebtOf(s)))
  {
    hide Borrow, BorrowAllowed, MulScalar7Ceil, AtPar, BalanceOf, CustodyOf, ReserveOf, Holding, CDPOrNew, Indebted;
    SecuredIs(s);
    BorrowAtPar(Secured(s), ONE, 2, 0, s.amount, s.fee);
    DebtBooked(s);
  }

  lemma OpeningConfigures(s: Scene)
    requires Configurable(s)
    ensures Run(NewPool(s), Opening(s)[..4]) == Ready(s) && RunAllowed(NewPool(s), Opening(s)[..4])
  {
    hide Next, Run, RunAllowed;
    var p, events := NewPool(s), Opening(s);
    RunStart(p);
    assert events[..0] == [];
    StateSet(p, ONE, OnIce);
    RunNext(p, events, 0, p);
    QueuedOnIce(s);
    RunNext(p, events, 1, Opened(s, OnIce, map[], map[]));
    Applied(s);
    RunNext(p, events, 2, Opened(s, OnIce, map[], map[0 := QueuedReserveConfig(s.ps, 0)]));
    StateSet(Opened(s, OnIce, map[0 := s.ps], map[]), ONE, Active);
    RunNext(p, events, 3, Opened(s, OnIce, map[0 := s.ps], map[]));
  }

  lemma OpeningSecures(s: Scene)
    requires Playable(s)
    ensures Run(NewPool(s), Opening(s)[..6]) == Secured(s) && RunAllowed(NewPool(s), Opening(s)[..6])
  {
    hide Next, Run, RunAllowed, Deposit, AddCollateral, Opened, Ready, Funded, Secured, MulScalar7Ceil;
    var p, events := NewPool(s), Opening(s);
    OpeningConfigures(s);
    Fund(s);
    DepositNext(Ready(s), ONE, 1, 0, s.supply);
    RunNext(p, events, 4, Ready(s));
    Secure(s);
    AddCollateralNext(Funded(s), ONE, 2, 10, s.held);
    RunNext(p, events, 5, Funded(s));
  }

  /** The whole opening, from a fresh pool to the borrower's debt. */
  lemma OpeningRuns(s: Scene)
    requires Playable(s) && BorrowAllowed(Secured(s), ONE, 2, 0, s.amount).Ok?
    ensures Run(NewPool(s), Opening(s)) == Indebted(s) && RunAllowed(NewPool(s), Opening(s))
  {
    hide Next, Run, RunAllowed, Borrow, BorrowAllowed, MulScalar7Ceil, Opened, Secured, Indebted;
    var events := Opening(s);
    OpeningSecures(s);
    TakeDebt(s);
    BorrowNext(Secured(s), ONE, 2, 0, s.amount);
    RunNext(NewPool(s), events, 6, Secured(s));
    assert events[..7] == events;
  }

  lemma StartsFresh(s: Scene)
    requires s.takeRate <= SCALAR_7 && s.feeRate <= SCALAR_7
    ensures Fresh(NewPool(s))
  {
  }

  // ---- The values ----

  /** At these prices and factor a token of collateral counts one. */
  lemma OneToOne(p: Pool, held: int)
    requires 0 < held <= LARGE && p.collateralFactor == map[10 := 10_000_000]
    ensures CollateralValue(p, ONE, [Entry(10, held)]) == Ok(held)
  {
    assert UsdValue(held, Quote(1, 0)) == Ok(held) && MulScalar7(held, 10_000_000) == Ok(held);
    hide UsdValue, MulScalar7;
    assert [Entry(10, held)][..0] == [];
    assert FactoredValue(p, ONE, 10, held) == Ok(held);
  }

  lemma PlainValue(amount: int)
    requires 0 < amount <= 2 * LARGE
    ensures UsdValue(amount, Quote(1, 0)) == Ok(amount) && FromDToken(amount, SCALAR_12) == Ok(amount)
  {
    WholeTokens(amount);
  }

  lemma NothingWeighted()
    ensures EffectiveDebt(0, SCALAR_7) == Ok(0)
  {
  }

  /** The limit before the debt, and the test of the borrow. */
  lemma LimitIsHeld(s: Scene)
    requires 0 < s.held <= LARGE
    ensures FactoredCollateral(Secured(s), ONE, 2) == Ok(s.held)
    ensures BorrowLimit(Secured(s), ONE, 2) == Ok(s.held)
  {
    hide CollateralValue, EffectiveDebt;
    OneToOne(Secured(s), s.held);
    NothingWeighted();
  }

  lemma Allowed(s: Scene, effective: int)
    requires 0 < s.amount <= LARGE && EffectiveDebt(s.amount, s.ps.lFactor) == Ok(effective)
    requires effective <= s.held <= LARGE && 0 < s.held
    ensures BorrowAllowed(Secured(s), ONE, 2, 0, s.amount).Ok?
  {
    hide BorrowLimit, UsdValue, EffectiveDebt;
    LimitIsHeld(s);
    PlainValue(s.amount);
  }

  /** Borrower 2 owes `debt` against `held` of token 10, at par. */
  predicate Owes(p: Pool, ps: InterestRateParams, held: int, debt: int) {
    && p.collateralFactor == map[10 := 10_000_000] && p.params == map[0 := ps]
    && ReserveOf(p, 0, 0).dRate == SCALAR_12
    && 2 in p.cdps && p.cdps[2] == CDP([Entry(10, held)], Some(0), debt, 0, 0)
    && 0 < held <= LARGE && 0 < debt <= LARGE
  }

  lemma ValuesOwed(p: Pool, ps: InterestRateParams, held: int, debt: int, effective: int)
    requires Owes(p, ps, held, debt) && EffectiveDebt(debt, ps.lFactor) == Ok(effective)
    ensures DebtUsd(p, ONE, 2) == Ok(debt) && FactoredCollateral(p, ONE, 2) == Ok(held)
    ensures EffectiveDebtOf(p, ONE, 2) == Ok(effective)
  {
    hide CollateralValue, FromDToken, UsdValue, EffectiveDebt;
    OneToOne(p, held);
    PlainValue(debt);
  }

  lemma HealthOwed(p: Pool, ps: InterestRateParams, held: int, debt: int, effective: int, health: U32)
    requires Owes(p, ps, held, debt) && EffectiveDebt(debt, ps.lFactor) == Ok(effective)
    requires MulDivFloor(held, SCALAR_7, effective) == Ok(health)
    ensures HealthFactor(p, ONE, 2) == Ok(health)
  {
    hide CollateralValue, DebtValue, EffectiveDebt, MulDivFloor;
    ValuesOwed(p, ps, held, debt, effective);
  }

  lemma LimitOwed(p: Pool, ps: InterestRateParams, held: int, debt: int, effective: int)
    requires Owes(p, ps, held, debt) && EffectiveDebt(debt, ps.lFactor) == Ok(effective)
    requires 0 <= effective <= held
    ensures BorrowLimit(p, ONE, 2) == Ok(held - effective)
  {
    hide CollateralValue, DebtValue, EffectiveDebt;
    ValuesOwed(p, ps, held, debt, effective);
  }

  lemma IndebtedOwes(s: Scene)
    requires 0 < s.held <= LARGE && 0 < DebtOf(s) <= LARGE
    ensures Owes(Indebted(s), s.ps, s.held, DebtOf(s))
  {
  }

  // ---- A borrow that leaves its borrower liquidatable ----

  /** The contract's default fee of 0.4%. */
  const WITH_FEE: Scene := Scene(0, 40_000, Interest.DEFAULT_PARAMS, 10_000, 1_000, 1_000, 4)

  lemma FeeNumbers()
    ensures Playable(WITH_FEE)
    ensures EffectiveDebt(1_000, 10_000_000) == Ok(1_000) && EffectiveDebt(1_004, 10_000_000) == Ok(1_004)
    ensures MulDivFloor(1_000, SCALAR_7, 1_004) == Ok(9_960_159)
  {
  }

  /** The fee counts against the borrower, not against the limit.  At the default fee, borrowing the
      whole limit of 1_000 leaves a health factor of 0.996. */
  lemma BorrowCanLeaveLiquidatable()
    ensures var p := Run(NewPool(WITH_FEE), Opening(WITH_FEE)[..6]);
            && Fresh(NewPool(WITH_FEE)) && PoolInv(p) && BorrowLimit(p, ONE, 2) == Ok(1_000)
            && Borrow(p, ONE, 2, 0, 1_000).Ok?
            && HealthFactor(Borrow(p, ONE, 2, 0, 1_000).value.0, ONE, 2) == Ok(9_960_159)
  {
    hide Run, RunAllowed, Borrow, BorrowLimit, BorrowAllowed, EffectiveDebt, MulScalar7Ceil, MulDivFloor, HealthFactor,
      PoolInv, Secured, Indebted, NewPool, Playable, Owes;
    FeeNumbers();
    OpeningSecures(WITH_FEE);
    StartsFresh(WITH_FEE);
    FreshPoolInv(NewPool(WITH_FEE));
    SolvencyOverRuns(NewPool(WITH_FEE), Opening(WITH_FEE)[..6]);
    LimitIsHeld(WITH_FEE);
    Allowed(WITH_FEE, 1_000);
    TakeDebt(WITH_FEE);
    IndebtedOwes(WITH_FEE);
    HealthOwed(Indebted(WITH_FEE), WITH_FEE.ps, 1_000, 1_004, 1_004, 9_960_159);
  }

  // ---- A removal that leaves less than 1.1 ----

  /** Parameters the setter accepts, with a liability factor of 0.05. */
  const LOW: InterestRateParams := Interest.DEFAULT_PARAMS.(lFactor := 500_000)

  const LOW_FACTOR: Scene := Scene(0, 0, LOW, 10_000, 2_300, 100, 0)

  lemma LowNumbers()
    ensures Playable(LOW_FACTOR)
    ensures EffectiveDebt(100, LOW.lFactor) == Ok(2_000)
    ensures MulDivFloor(2_300, SCALAR_7, 2_000) == Ok(11_500_000)
    ensures MulDivFloor(2_100, SCALAR_7, 2_000) == Ok(10_500_000)
  {
  }

  lemma ReducedOwes(p: Pool, ps: InterestRateParams)
    requires Owes(p, ps, 2_300, 100)
    ensures Owes(WithCollateral(p, 2, 10, 2_100, 0), ps, 2_100, 100)
  {
    assert Set([Entry(10, 2_300)], 10, 2_100) == [Entry(10, 2_100)];
  }

  lemma LowHeld(p: Pool)
    requires Owes(p, LOW, 2_300, 100)
    ensures CollateralOf(p, 2, 10) == 2_300
  {
  }

  lemma LowAllows(p: Pool)
    requires Owes(p, LOW, 2_300, 100)
    ensures RemovalAllowed(p, WithCollateral(p, 2, 10, 2_100, 0), ONE, 2).Ok?
  {
    hide BorrowLimit, HealthFactor, DebtValue, WithCollateral, EffectiveDebt, MulDivFloor, Playable;
    LowNumbers();
    ReducedOwes(p, LOW);
    ValuesOwed(p, LOW, 2_300, 100, 2_000);
    HealthOwed(p, LOW, 2_300, 100, 2_000, 11_500_000);
    LimitOwed(WithCollateral(p, 2, 10, 2_100, 0), LOW, 2_100, 100, 2_000);
  }

  lemma RemovedOwes(p: Pool)
    requires Owes(p, LOW, 2_300, 100) && RemoveCollateral(p, ONE, 2, 10, 200).Ok?
    ensures Owes(RemoveCollateral(p, ONE, 2, 10, 200).value.0, LOW, 2_100, 100)
  {
    hide RemoveCollateral;
    RemoveCollateralEffect(p, ONE, 2, 10, 200);
    assert GetOr([Entry(10, 2_300)], 10, 0) == 2_300;
    assert Set([Entry(10, 2_300)], 10, 2_100) == [Entry(10, 2_100)];
  }

  lemma LowCustody()
    ensures CustodyOf(Indebted(LOW_FACTOR), 10) == 2_300
  {
  }

  /** The health that is tested is the one before the removal, and a limit that still covers the debt
      value is not a margin of a tenth when the liability factor is below a tenth: a debt of 100 counts
      2_000, and taking 200 out of 2_300 leaves a health factor of 1.05. */
  lemma RemovalCanLeaveBelowMin()
    ensures var p := Run(NewPool(LOW_FACTOR), Opening(LOW_FACTOR));
            && Fresh(NewPool(LOW_FACTOR)) && PoolInv(p)
            && RemoveCollateral(p, ONE, 2, 10, 200).Ok?
            && HealthFactor(RemoveCollateral(p, ONE, 2, 10, 200).value.0, ONE, 2) == Ok(10_500_000)
  {
    hide Run, RunAllowed, RemoveCollateral, HealthFactor, BorrowAllowed, EffectiveDebt, MulScalar7Ceil, MulDivFloor,
      PoolInv, Secured, Indebted, Opening, WithCollateral, RemovalAllowed, Owes, CollateralOf, NewPool, Playable;
    var p := Indebted(LOW_FACTOR);
    LowNumbers();
    Allowed(LOW_FACTOR, 2_000);
    OpeningRuns(LOW_FACTOR);
    StartsFresh(LOW_FACTOR);
    FreshPoolInv(NewPool(LOW_FACTOR));
    SolvencyOverRuns(NewPool(LOW_FACTOR), Opening(LOW_FACTOR));
    IndebtedOwes(LOW_FACTOR);
    LowAllows(p);
    LowHeld(p);
    LowCustody();
    RemovalWhenAllowed(p, ONE, 2, 10, 200);
    RemovedOwes(p);
    HealthOwed(RemoveCollateral(p, ONE, 2, 10, 200).value.0, LOW, 2_100, 100, 2_000, 10_500_000);
  }

  // ---- An accrual that lowers the lenders' rate ----

  lemma Ages(s: Scene, r: Reserve, r': Reserve, e: Env)
    requires Interest.Accrue(r, Some(s.ps), s.takeRate, 0, e.now) == Ok(r') && r.lastTime < e.now
    ensures Next(Owing(s, r), e, AccrueStep(0)) == Owing(s, r')
  {
    hide Interest.Accrue, LedgerNext, QueueNext, SettingNext;
    assert map[0 := r][0 := r'] == map[0 := r'];
  }

  const SMALL: Scene := Scene(0, 0, Interest.DEFAULT_PARAMS, 9_000, 2_000, 1_000, 0)

  const AFTER_A_YEAR: Reserve :=
    Reserve(1_001_888_888_888, 1_017_407_400_000, 1_000_000, 9_000, 1_000, 0, 0, 31_536_000)

  const A_SECOND_LATER: Reserve :=
    Reserve(1_001_777_777_777, 1_017_407_400_055, 1_000_000, 9_000, 1_000, 0, 0, 31_536_001)

  lemma SmallYear()
    ensures Interest.Accrue(Reserve(SCALAR_12, SCALAR_12, SCALAR_7, 9_000, 1_000, 0, 0, 0), Some(SMALL.ps), 0, 0,
              31_536_000) == Ok(AFTER_A_YEAR)
  {
    var ps := Interest.DEFAULT_PARAMS;
    assert Interest.Utilization(Reserve(SCALAR_12, SCALAR_12, SCALAR_7, 9_000, 1_000, 0, 0, 0)) == Ok(1_111_111);
    assert Interest.InterestRate(ps, 1_111_111, SCALAR_7) == Ok(174_074);
    assert Interest.AccrualFactor(174_074, 31_536_000) == Ok(1_017_407_400_000);
    assert Interest.NextIrMod(ps, 1_111_111, SCALAR_7, 31_536_000) == Ok(1_000_000);
    assert Interest.InterestEarned(1_000, 17_407_400_000) == Ok(17);
    assert Interest.SpreadToLenders(9_000, 9_000, 17) == Ok(1_001_888_888_888);
    hide Interest.Utilization, Interest.InterestRate, Interest.AccrualFactor, Interest.NextIrMod,
         Interest.InterestEarned, Interest.SpreadToLenders;
  }

  lemma SmallSecond()
    ensures Interest.Accrue(AFTER_A_YEAR, Some(SMALL.ps), 0, 0, 31_536_001) == Ok(A_SECOND_LATER)
  {
    var ps := Interest.DEFAULT_PARAMS;
    assert Interest.Utilization(AFTER_A_YEAR) == Ok(1_127_994);
    assert Interest.InterestRate(ps, 1_127_994, 1_000_000) == Ok(17_519);
    assert Interest.AccrualFactor(17_519, 1) == Ok(1_000_000_000_055);
    assert Interest.NextIrMod(ps, 1_127_994, 1_000_000, 1) == Ok(1_000_000);
    assert Interest.InterestEarned(1_000, 55) == Ok(0);
    assert Interest.SpreadToLenders(9_000, 9_016, 0) == Ok(1_001_777_777_777);
    hide Interest.Utilization, Interest.InterestRate, Interest.AccrualFactor, Interest.NextIrMod,
         Interest.InterestEarned, Interest.SpreadToLenders;
  }

  function Clock(now: nat, sequence: U32): Env {
    Env(now, sequence, map[], map[])
  }

  /** The opening, a year of interest, and one second more. */
  function Aged(): seq<Event> {
    Opening(SMALL) + [Event(Clock(31_536_000, 0), AccrueStep(0)), Event(Clock(31_536_001, 0), AccrueStep(0))]
  }

  lemma SmallPlays()
    ensures Playable(SMALL) && EffectiveDebt(1_000, SMALL.ps.lFactor) == Ok(1_000)
  {
  }

  lemma AgedRuns()
    ensures var p, events := NewPool(SMALL), Aged();
            && |events| == 9 && RunAllowed(p, events)
            && Run(p, events[..8]) == Owing(SMALL, AFTER_A_YEAR) && Run(p, events) == Owing(SMALL, A_SECOND_LATER)
  {
    hide Next, Run, RunAllowed, Interest.Accrue, BorrowAllowed, EffectiveDebt, Playable, Secured, Owing, NewPool;
    var p, events := NewPool(SMALL), Aged();
    SmallPlays();
    Allowed(SMALL, 1_000);
    OpeningRuns(SMALL);
    assert events[..7] == Opening(SMALL);
    SmallYear();
    Ages(SMALL, Reserve(SCALAR_12, SCALAR_12, SCALAR_7, 9_000, 1_000, 0, 0, 0), AFTER_A_YEAR, events[7].env);
    RunNext(p, events, 7, Indebted(SMALL));
    SmallSecond();
    Ages(SMALL, AFTER_A_YEAR, A_SECOND_LATER, events[8].env);
    RunNext(p, events, 8, Owing(SMALL, AFTER_A_YEAR));
    assert events[..9] == events;
  }

  /** The lenders' rate is not monotone over runs: with too little debt to earn a unit in a second,
      flooring the supplied amount loses value that the quotient does not give back. */
  lemma LenderRateCanFall()
    ensures var p, events := NewPool(SMALL), Aged();
            && Fresh(p) && RunAllowed(p, events) && |events| == 9
            && ReserveOf(Run(p, events[..8]), 0, 0).bRate == 1_001_888_888_888
            && ReserveOf(Run(p, events), 0, 0).bRate == 1_001_777_777_777
  {
    hide Run, RunAllowed, NewPool, Aged;
    AgedRuns();
    StartsFresh(SMALL);
  }
}
