/** A run after which a fill leaves a CDP with one negative collateral position, and a price move then
    makes the CDP worth less than nothing: it reads as healthy. */
module HiddenInsolvency {
  import opened Outcomes
  import opened FixedPoint
  import opened Tables
  import opened PoolTypes
  import opened PoolStore
  import opened Valuation
  import opened PoolOperations
  import opened PoolInvariants
  import opened PoolSteps
  import opened PoolRuns
  import opened BorrowSafety
  import opened ParSteps

  // ---- The pools of the run ----

  const FACTORS: map<Address, U32> := map[10 := 10_000_000, 20 := 10_000_000]

  /** Asset 0 on token 5, collateral tokens 10 and 20 of factor 1.0, nothing deposited. */
  function Start(): Pool {
    Pool(Active, 0, 0, 0, 0, None, map[0 := 5], FACTORS, map[], map[],
         map[], map[], map[], map[], map[], map[], map[])
  }

  /** Lender 1 has put in 2_000, and the CDPs and custody are as given. */
  function Lent(cdps: map<Address, CDP>, custody: map<Address, int>): Pool {
    Start().(reserves := map[0 := Reserve(SCALAR_12, SCALAR_12, SCALAR_7, 2_000, 0, 0, 0, 0)],
             poolBalance := map[0 := 2_000], bTokens := map[UserAsset(1, 0) := 2_000],
             cdps := cdps, custody := custody)
  }

  /** The positions of borrower 2. */
  function Positions(ten: int): seq<Entry<int>> {
    [Entry(10, ten), Entry(20, 2_000)]
  }

  const BYSTANDER: CDP := CDP([Entry(10, 500)], None, 0, 0, 0)

  const FUNDS: map<Address, int> := map[5 := 2_000]
  const TEN_HELD: map<Address, CDP> := map[2 := CDP([Entry(10, 400)], None, 0, 0, 0)]
  const BOTH_HELD: map<Address, CDP> := map[2 := CDP(Positions(400), None, 0, 0, 0)]
  const ALL_HELD: map<Address, CDP> := map[2 := CDP(Positions(400), None, 0, 0, 0), 3 := BYSTANDER]
  const ALL_FUNDS: map<Address, int> := map[5 := 2_000, 10 := 900, 20 := 2_000]

  /** Both borrowers have put up their collateral. */
  function Secured(): Pool {
    Lent(ALL_HELD, ALL_FUNDS)
  }

  /** Borrower 2 owes `debt`, of the 1_000 it took. */
  function Indebted(ten: int, debt: int, balance: int, held10: int, auctions: map<int, Auction>): Pool {
    Pool(Active, 0, 0, 0, 0, None, map[0 := 5], FACTORS, map[], map[],
         map[0 := Reserve(SCALAR_12, SCALAR_12, SCALAR_7, 2_000, 1_000, 0, 0, 0)],
         map[0 := balance],
         map[UserAsset(1, 0) := 2_000], map[UserAsset(2, 0) := debt],
         map[2 := CDP(Positions(ten), Some(0), debt, 0, 0), 3 := BYSTANDER],
         auctions, map[5 := balance, 10 := held10, 20 := 2_000])
  }

  const OPEN_AUCTION: Auction := Auction(UserLiquidation, 2, [Entry(5, 400)], [Entry(10, 200)], 0)

  /** The auction is open on token 10, of which some was removed since. */
  function Before(): Pool {
    Indebted(100, 1_000, 1_000, 600, map[2_000 := OPEN_AUCTION])
  }

  function After(): Pool {
    Indebted(-100, 600, 1_400, 400, map[])
  }

  // ---- Prices and values ----

  /** One unit of the debt is worth one, of token 10 `ten`, of token 20 `price / 10^decimals`. */
  function Market(sequence: U32, ten: int, price: int, decimals: nat): Env {
    Env(0, sequence, map[10 := Quote(ten, 0), 20 := Quote(price, decimals)], map[0 := Quote(1, 0)])
  }

  function Prices(price: int, decimals: nat): Env {
    Market(200, 1, price, decimals)
  }

  const CALM: Env := Market(0, 1, 1, 0)
  const SLUMP: Env := Market(0, 2, 3, 2)

  lemma Powers()
    ensures Pow10(0) == 1 && Pow10(1) == 10 && Pow10(2) == 100
  {
    assert Pow10(1) == 10 * Pow10(0) && Pow10(2) == 10 * Pow10(1);
  }

  /** What the positions are worth at the prices of the run. */
  lemma Amounts()
    ensures UsdValue(400, Quote(1, 0)) == Ok(400) && UsdValue(100, Quote(1, 0)) == Ok(100)
    ensures UsdValue(-100, Quote(1, 0)) == Ok(-100) && UsdValue(400, Quote(2, 0)) == Ok(800)
    ensures UsdValue(2_000, Quote(1, 0)) == Ok(2_000) && UsdValue(2_000, Quote(3, 2)) == Ok(60)
    ensures UsdValue(2_000, Quote(3, 1)) == Ok(600) && UsdValue(2_000, Quote(1, 2)) == Ok(20)
    ensures UsdValue(600, Quote(1, 0)) == Ok(600) && UsdValue(1_000, Quote(1, 0)) == Ok(1_000)
  {
    Powers();
    hide Pow10;
  }

  lemma FullFactor(value: int)
    requires -LARGE <= value <= LARGE
    ensures MulScalar7(value, 10_000_000) == Ok(value)
  {
  }

  lemma Worth(p: Pool, e: Env, token: Address, amount: int, value: int)
    requires p.collateralFactor == FACTORS && token in FACTORS && token in e.collateralQuotes
    requires e.collateralQuotes[token].price > 0 && UsdValue(amount, e.collateralQuotes[token]) == Ok(value)
    requires -LARGE <= value <= LARGE
    ensures FactoredValue(p, e, token, amount) == Ok(value)
  {
    hide UsdValue, MulScalar7;
    FullFactor(value);
  }

  /** Two positions, valued one by one. */
  lemma TwoPositions(p: Pool, e: Env, ten: int, x: int, y: int)
    requires ten != 0 && FactoredValue(p, e, 10, ten) == Ok(x) && FactoredValue(p, e, 20, 2_000) == Ok(y)
    requires FitsI128(x) && FitsI128(x + y)
    ensures CollateralValue(p, e, Positions(ten)) == Ok(x + y)
  {
    hide FactoredValue;
    assert Positions(ten)[..1] == [Entry(10, ten)] && [Entry(10, ten)][..0] == [];
    assert CollateralValue(p, e, [Entry(10, ten)]) == Ok(x);
  }

  lemma Valued(p: Pool, sequence: U32, price10: int, price: int, decimals: nat, ten: int, x: int, y: int)
    requires p.collateralFactor == FACTORS && price10 > 0 && price > 0 && ten != 0
    requires UsdValue(ten, Quote(price10, 0)) == Ok(x) && UsdValue(2_000, Quote(price, decimals)) == Ok(y)
    requires -LARGE <= x <= LARGE && -LARGE <= y <= LARGE
    ensures CollateralValue(p, Market(sequence, price10, price, decimals), Positions(ten)) == Ok(x + y)
  {
    hide UsdValue, FactoredValue, CollateralValue, Positions;
    var e := Market(sequence, price10, price, decimals);
    Worth(p, e, 10, ten, x);
    Worth(p, e, 20, 2_000, y);
    TwoPositions(p, e, ten, x, y);
  }

  /** Borrower 2 owes `debt` against `ten` and 2_000, at par. */
  predicate Owes(p: Pool, ten: int, debt: int) {
    && p.collateralFactor == FACTORS && p.params == map[] && ReserveOf(p, 0, 0).dRate == SCALAR_12
    && 2 in p.cdps && p.cdps[2] == CDP(Positions(ten), Some(0), debt, 0, 0)
    && 0 < debt <= LARGE
  }

  lemma DebtWeighs(debt: int)
    requires 0 < debt <= LARGE
    ensures FromDToken(debt, SCALAR_12) == Ok(debt) && UsdValue(debt, Quote(1, 0)) == Ok(debt)
    ensures EffectiveDebt(debt, SCALAR_7) == Ok(debt)
  {
    WholeTokens(debt);
  }

  lemma Numbers(p: Pool, e: Env, ten: int, debt: int, total: int)
    requires Owes(p, ten, debt) && e.now == 0 && e.assetQuotes == map[0 := Quote(1, 0)]
    requires CollateralValue(p, e, Positions(ten)) == Ok(total)
    ensures DebtUsd(p, e, 2) == EffectiveDebtOf(p, e, 2) == Ok(debt) && FactoredCollateral(p, e, 2) == Ok(total)
    ensures -LARGE <= total <= LARGE ==> BorrowLimit(p, e, 2) == Ok(Max(total - debt, 0))
    ensures MulDivFloor(total, SCALAR_7, debt).Ok? ==>
              HealthFactor(p, e, 2) == Ok(ToU32(MulDivFloor(total, SCALAR_7, debt).value))
  {
    hide CollateralValue, UsdValue, FromDToken, EffectiveDebt, MulDivFloor, Positions, ToU32;
    DebtWeighs(debt);
  }

  // ---- The run up to the fill ----

  function Script(): seq<Event> {
    [Event(CALM, DepositStep(1, 0, 2_000)), Event(CALM, AddCollateralStep(2, 10, 400)),
     Event(CALM, AddCollateralStep(2, 20, 2_000)), Event(CALM, AddCollateralStep(3, 10, 500)),
     Event(CALM, BorrowStep(2, 0, 1_000)), Event(SLUMP, InitiateLiquidationStep(2, 10, 0, 4_000_000)),
     Event(CALM, RemoveCollateralStep(2, 10, 300))]
  }

  lemma Lends()
    ensures Deposit(Start(), CALM, 1, 0, 2_000) == Ok((Lent(map[], FUNDS), 2_000))
  {
    hide Deposit;
    var p, p' := Start(), Lent(map[], FUNDS);
    DepositAtPar(p, CALM, 1, 0, 2_000);
    assert p.reserves[0 := p'.reserves[0]] == p'.reserves && p.poolBalance[0 := 2_000] == p'.poolBalance;
    assert p.bTokens[UserAsset(1, 0) := 2_000] == p'.bTokens && p.custody[5 := 2_000] == p'.custody;
  }

  lemma Adds(cdps: map<Address, CDP>, custody: map<Address, int>, user: Address, token: Address, amount: int,
      cdps': map<Address, CDP>, custody': map<Address, int>)
    requires token in FACTORS && 0 < amount <= LARGE
    requires var cdp := if user in cdps then cdps[user] else NewCDP(0);
             && GetOr(cdp.collateral, token, 0) == 0
             && cdps' == cdps[user := cdp.(collateral := Set(cdp.collateral, token, amount), lastUpdate := 0)]
    requires custody' == custody[token := (if token in custody then custody[token] else 0) + amount]
    ensures AddCollateral(Lent(cdps, custody), CALM, user, token, amount) == Ok((Lent(cdps', custody'), ()))
  {
    hide AddCollateral, Set, GetOr;
    AddCollateralAlways(Lent(cdps, custody), CALM, user, token, amount);
  }

  lemma AddsTen()
    ensures AddCollateral(Lent(map[], FUNDS), CALM, 2, 10, 400) == Ok((Lent(TEN_HELD, FUNDS[10 := 400]), ()))
  {
    hide AddCollateral, Lent;
    assert Set([], 10, 400) == [Entry(10, 400)];
    assert map[][2 := TEN_HELD[2]] == TEN_HELD;
    Adds(map[], FUNDS, 2, 10, 400, TEN_HELD, FUNDS[10 := 400]);
  }

  lemma AddsTwenty()
    ensures AddCollateral(Lent(TEN_HELD, FUNDS[10 := 400]), CALM, 2, 20, 2_000)
         == Ok((Lent(BOTH_HELD, FUNDS[10 := 400][20 := 2_000]), ()))
  {
    hide AddCollateral, Lent;
    assert Set([Entry(10, 400)], 20, 2_000) == Positions(400);
    assert GetOr([Entry(10, 400)], 20, 0) == 0;
    assert TEN_HELD[2 := BOTH_HELD[2]] == BOTH_HELD;
    Adds(TEN_HELD, FUNDS[10 := 400], 2, 20, 2_000, BOTH_HELD, FUNDS[10 := 400][20 := 2_000]);
  }

  lemma AddsOther()
    ensures AddCollateral(Lent(BOTH_HELD, FUNDS[10 := 400][20 := 2_000]), CALM, 3, 10, 500) == Ok((Secured(), ()))
  {
    hide AddCollateral, Lent;
    assert Set([], 10, 500) == [Entry(10, 500)];
    assert FUNDS[10 := 400][20 := 2_000][10 := 900] == ALL_FUNDS && BOTH_HELD[3 := BYSTANDER] == ALL_HELD;
    Adds(BOTH_HELD, FUNDS[10 := 400][20 := 2_000], 3, 10, 500, ALL_HELD, ALL_FUNDS);
  }

  // ---- Debt, auction, removal ----

  lemma SecuredIs()
    ensures var p := Secured();
            && AtPar(p, CALM, 0) && BalanceOf(p, 0) == 2_000 && CustodyOf(p, 5) == 2_000
            && ReserveOf(p, 0, 0) == Reserve(SCALAR_12, SCALAR_12, SCALAR_7, 2_000, 0, 0, 0, 0)
            && Holding(p.dTokens, 2, 0) == 0 && CDPOrNew(p, 2, 0) == CDP(Positions(400), None, 0, 0, 0)
  {
    hide Positions;
  }

  lemma SecuredLimit()
    ensures BorrowLimit(Secured(), CALM, 2) == Ok(2_400)
  {
    hide CollateralValue, UsdValue, EffectiveDebt, Positions, CDPOrNew, Secured;
    SecuredIs();
    SecuredFactors();
    Amounts();
    Valued(Secured(), 0, 1, 1, 0, 400, 400, 2_000);
    NothingWeighs();
  }

  lemma SecuredFactors()
    ensures Secured().collateralFactor == FACTORS && LFactor(Secured(), 0) == SCALAR_7
  {
    hide Positions;
  }

  lemma BorrowIsAllowed()
    ensures BorrowAllowed(Secured(), CALM, 2, 0, 1_000).Ok?
  {
    hide BorrowLimit, UsdValue, EffectiveDebt, Positions, CDPOrNew, Secured, LFactor;
    SecuredIs();
    SecuredFactors();
    SecuredLimit();
    DebtWeighs(1_000);
  }

  lemma NothingWeighs()
    ensures EffectiveDebt(0, SCALAR_7) == Ok(0) && MulScalar7Ceil(1_000, 0) == Ok(0)
  {
  }

  lemma DebtBooked()
    ensures var p := Secured();
            p.(reserves := p.reserves[0 := Reserve(SCALAR_12, SCALAR_12, SCALAR_7, 2_000, 1_000, 0, 0, 0)],
               poolBalance := p.poolBalance[0 := 1_000],
               cdps := p.cdps[2 := CDP(Positions(400), Some(0), 1_000, 0, 0)],
               dTokens := p.dTokens[UserAsset(2, 0) := 1_000],
               custody := p.custody[5 := 1_000]) == Indebted(400, 1_000, 1_000, 900, map[])
  {
    hide Positions;
    var p, p' := Secured(), Indebted(400, 1_000, 1_000, 900, map[]);
    assert p.cdps[2 := p'.cdps[2]] == p'.cdps && p.reserves[0 := p'.reserves[0]] == p'.reserves;
    assert p.custody[5 := 1_000] == p'.custody && p.poolBalance[0 := 1_000] == p'.poolBalance;
    assert p.dTokens[UserAsset(2, 0) := 1_000] == p'.dTokens;
  }

  lemma Borrows()
    ensures Borrow(Secured(), CALM, 2, 0, 1_000) == Ok((Indebted(400, 1_000, 1_000, 900, map[]), 1_000))
  {
    hide Borrow, BorrowAllowed, MulScalar7Ceil, AtPar, BalanceOf, CustodyOf, ReserveOf, Holding, CDPOrNew, Indebted,
      Positions, EffectiveDebt;
    SecuredIs();
    BorrowIsAllowed();
    NothingWeighs();
    BorrowAtPar(Secured(), CALM, 2, 0, 1_000, 0);
    DebtBooked();
  }

  lemma IndebtedOwes(ten: int, debt: int, balance: int, held10: int, auctions: map<int, Auction>)
    requires 0 < debt <= LARGE
    ensures Owes(Indebted(ten, debt, balance, held10, auctions), ten, debt)
  {
    hide Positions;
  }

  lemma LotNumbers()
    ensures MulScalar7(1_000, 4_000_000) == Ok(400)
    ensures LotAmount(400, 800, 1_000, SCALAR_7, 4_000_000) == Ok(200)
    ensures MulDivFloor(860, SCALAR_7, 1_000) == Ok(8_600_000)
    ensures Premium(10_000_000) == Ok(SCALAR_7)
  {
  }

  lemma StartsUnhealthy()
    ensures HealthFactor(Indebted(400, 1_000, 1_000, 900, map[]), SLUMP, 2) == Ok(8_600_000)
  {
    hide HealthFactor, UsdValue, CollateralValue, MulDivFloor, Indebted, Positions, Owes, LotAmount, MulScalar7;
    var p := Indebted(400, 1_000, 1_000, 900, map[]);
    IndebtedOwes(400, 1_000, 1_000, 900, map[]);
    Factors(400, 1_000, 1_000, 900, map[]);
    Amounts();
    LotNumbers();
    Valued(p, 0, 2, 3, 2, 400, 800, 60);
    Numbers(p, SLUMP, 400, 1_000, 860);
  }

  lemma Factors(ten: int, debt: int, balance: int, held10: int, auctions: map<int, Auction>)
    ensures Indebted(ten, debt, balance, held10, auctions).collateralFactor == FACTORS
  {
  }

  lemma Initiates()
    ensures InitiateLiquidation(Indebted(400, 1_000, 1_000, 900, map[]), SLUMP, 2, 10, 0, 4_000_000)
         == Ok((Indebted(400, 1_000, 1_000, 900, map[2_000 := OPEN_AUCTION]), 2_000))
  {
    hide HealthFactor, UsdValue, MulScalar7, LotAmount, Premium, FromDToken, MulDivFloor, EffectiveDebt;
    StartsUnhealthy();
    Amounts();
    LotNumbers();
    DebtWeighs(1_000);
    assert GetOr(Positions(400), 10, 0) == 400;
    assert Set([], 5, 400) == [Entry(5, 400)] && Set([], 10, 200) == [Entry(10, 200)];
    assert map[][2_000 := OPEN_AUCTION] == map[2_000 := OPEN_AUCTION];
    assert AuctionId(SLUMP, LIQUIDATION_ID_OFFSET) == 2_000;
  }

  const OPEN: map<int, Auction> := map[2_000 := OPEN_AUCTION]

  lemma RemovalNumbers()
    ensures MulDivFloor(2_400, SCALAR_7, 1_000) == Ok(24_000_000)
    ensures Set(Positions(400), 10, 100) == Positions(100) && GetOr(Positions(400), 10, 0) == 400
  {
  }

  lemma Reduced()
    ensures Owes(WithCollateral(Indebted(400, 1_000, 1_000, 900, OPEN), 2, 10, 100, 0), 100, 1_000)
    ensures CollateralOf(Indebted(400, 1_000, 1_000, 900, OPEN), 2, 10) == 400
    ensures CustodyOf(Indebted(400, 1_000, 1_000, 900, OPEN), 10) == 900
  {
    hide Positions, Set, GetOr;
    RemovalNumbers();
  }

  lemma OwedFacts(p: Pool, ten: int)
    requires Owes(p, ten, 1_000)
    ensures p.collateralFactor == FACTORS && 2 in p.cdps && p.cdps[2].dTokens == 1_000 && p.cdps[2].debtAsset == Some(0)
    ensures CDPOrNew(p, 2, 0) == p.cdps[2]
  {
    hide Positions;
  }

  lemma RemovalIsAllowed()
    ensures var p := Indebted(400, 1_000, 1_000, 900, OPEN);
            RemovalAllowed(p, WithCollateral(p, 2, 10, 100, 0), CALM, 2).Ok?
  {
    hide BorrowLimit, HealthFactor, DebtValue, CollateralValue, UsdValue, Indebted, WithCollateral, Owes, Positions,
      MulDivFloor, CDPOrNew;
    var p := Indebted(400, 1_000, 1_000, 900, OPEN);
    IndebtedOwes(400, 1_000, 1_000, 900, OPEN);
    Reduced();
    OwedFacts(p, 400);
    OwedFacts(WithCollateral(p, 2, 10, 100, 0), 100);
    Amounts();
    RemovalNumbers();
    Valued(p, 0, 1, 1, 0, 400, 400, 2_000);
    Valued(WithCollateral(p, 2, 10, 100, 0), 0, 1, 1, 0, 100, 100, 2_000);
    Numbers(p, CALM, 400, 1_000, 2_400);
    Numbers(WithCollateral(p, 2, 10, 100, 0), CALM, 100, 1_000, 2_100);
  }

  lemma RemovalBooked()
    ensures CollateralMove(Indebted(400, 1_000, 1_000, 900, OPEN), Before(), 2, 10, -300, 0)
  {
    hide Positions, Set, GetOr;
    RemovalNumbers();
    var p := Indebted(400, 1_000, 1_000, 900, OPEN);
    assert p.cdps[2 := Before().cdps[2]] == Before().cdps && p.custody[10 := 600] == Before().custody;
  }

  lemma SameMove(p: Pool, q: Pool, q': Pool, user: Address, token: Address, amount: int)
    requires CollateralMove(p, q, user, token, amount, 0) && CollateralMove(p, q', user, token, amount, 0)
    ensures q == q'
  {
  }

  lemma Removes()
    ensures var p := Indebted(400, 1_000, 1_000, 900, OPEN);
            RemoveCollateral(p, CALM, 2, 10, 300).Ok? && RemoveCollateral(p, CALM, 2, 10, 300).value.0 == Before()
  {
    hide RemoveCollateral, RemovalAllowed, WithCollateral, CollateralOf, CollateralMove, Indebted, Before;
    var p := Indebted(400, 1_000, 1_000, 900, OPEN);
    Reduced();
    RemovalIsAllowed();
    RemovalWhenAllowed(p, CALM, 2, 10, 300);
    RemoveCollateralEffect(p, CALM, 2, 10, 300);
    RemovalBooked();
    SameMove(p, RemoveCollateral(p, CALM, 2, 10, 300).value.0, Before(), 2, 10, -300);
  }

  /** The first four steps. */
  lemma ScriptSecures()
    ensures Run(Start(), Script()[..4]) == Secured() && RunAllowed(Start(), Script()[..4])
  {
    hide Next, Run, RunAllowed, Deposit, AddCollateral, Start, Lent, Secured, Positions;
    var p, events, funds := Start(), Script(), FUNDS[10 := 400];
    RunStart(p);
    assert events[..0] == [];
    Lends();
    DepositNext(p, CALM, 1, 0, 2_000);
    RunNext(p, events, 0, p);
    AddsTen();
    AddCollateralNext(Lent(map[], FUNDS), CALM, 2, 10, 400);
    RunNext(p, events, 1, Lent(map[], FUNDS));
    AddsTwenty();
    AddCollateralNext(Lent(TEN_HELD, funds), CALM, 2, 20, 2_000);
    RunNext(p, events, 2, Lent(TEN_HELD, funds));
    AddsOther();
    AddCollateralNext(Lent(BOTH_HELD, funds[20 := 2_000]), CALM, 3, 10, 500);
    RunNext(p, events, 3, Lent(BOTH_HELD, funds[20 := 2_000]));
  }

  lemma ScriptRuns()
    ensures Run(Start(), Script()) == Before() && RunAllowed(Start(), Script())
  {
    hide Next, Run, RunAllowed, Borrow, InitiateLiquidation, RemoveCollateral, Start, Secured, Indebted, Before;
    var p, events := Start(), Script();
    ScriptSecures();
    Borrows();
    BorrowNext(Secured(), CALM, 2, 0, 1_000);
    RunNext(p, events, 4, Secured());
    Initiates();
    InitiateNext(Indebted(400, 1_000, 1_000, 900, map[]), SLUMP, 2, 10, 0, 4_000_000);
    RunNext(p, events, 5, Indebted(400, 1_000, 1_000, 900, map[]));
    Removes();
    RemoveCollateralNext(Indebted(400, 1_000, 1_000, 900, OPEN), CALM, 2, 10, 300);
    RunNext(p, events, 6, Indebted(400, 1_000, 1_000, 900, OPEN));
    assert events[..7] == events;
  }

  // ---- The fill ----

  /** The pool between the token transfers and the book writes. */
  function Moved(): Pool {
    Before().(custody := map[5 := 1_400, 10 := 400, 20 := 2_000])
  }

  /** The books after the fill, before the auction is closed. */
  function Books(): Pool {
    Indebted(-100, 600, 1_400, 400, OPEN)
  }

  lemma NoFee()
    ensures MulScalar7Ceil(200, 0) == Ok(0)
  {
  }

  lemma Transfers()
    ensures FillTransfers(Before(), 10, 5, 200, 400) == Ok((Moved(), (200, 0)))
  {
    hide MulScalar7Ceil, Positions;
    NoFee();
    assert Before().custody[5 := 1_400][10 := 400] == map[5 := 1_400, 10 := 400, 20 := 2_000];
  }

  lemma FillNumbers()
    ensures Set(Positions(100), 10, -100) == Positions(-100) && GetOr(Positions(100), 10, 0) == 100
    ensures ToDTokenDown(400, SCALAR_12) == Ok(400)
    ensures FillAmounts(OPEN_AUCTION, 200) == Ok((200, 400))
  {
    assert Positions(100)[0] == Entry(10, 100);
  }

  lemma Writes()
    ensures FillBooks(Moved(), Prices(3, 1), 2, 10, 200, 400) == Ok(Books())
  {
    hide Set, GetOr, ToDTokenDown, Positions, FillAmounts;
    FillNumbers();
    var p, p' := Moved(), Books();
    assert p.cdps[2 := p'.cdps[2]] == p'.cdps && p.poolBalance[0 := 1_400] == p'.poolBalance;
    assert p.dTokens[UserAsset(2, 0) := 600] == p'.dTokens;
  }

  /** What the fill finds and leaves, field by field. */
  lemma FillScene()
    ensures Before().auctions == OPEN && Books().auctions == OPEN
    ensures Books().(auctions := Books().auctions - {2_000}) == After()
  {
    hide Positions;
    assert OPEN - {2_000} == map[];
  }

  lemma HealthNumbers()
    ensures MulDivFloor(500, SCALAR_7, 600) == Ok(8_333_333) && ToU32(8_333_333) == 8_333_333
    ensures MulDivFloor(-80, SCALAR_7, 600) == Ok(-1_333_334) && ToU32(-1_333_334) == 4_293_633_962
  {
  }

  lemma FilledHealth()
    ensures HealthFactor(Books(), Prices(3, 1), 2) == Ok(8_333_333)
  {
    hide HealthFactor, UsdValue, CollateralValue, MulDivFloor, Indebted, Positions, Owes, ToU32;
    IndebtedOwes(-100, 600, 1_400, 400, OPEN);
    Factors(-100, 600, 1_400, 400, OPEN);
    Amounts();
    HealthNumbers();
    Valued(Books(), 200, 1, 3, 1, -100, -100, 600);
    Numbers(Books(), Prices(3, 1), -100, 600, 500);
  }

  /** The fill after the run: transfers, books, health check, closed auction. */
  lemma FillHappens()
    ensures FillAuction(Before(), Prices(3, 1), 2_000) == Ok((After(), (200, 0)))
  {
    hide FillTransfers, FillBooks, HealthFactor, FillAmounts, Positions, Indebted, Moved, Books, After, Before;
    Transfers();
    Writes();
    FillScene();
    FillNumbers();
    FilledHealth();
  }

  lemma HiddenHealth()
    ensures FactoredCollateral(After(), Prices(1, 2), 2) == Ok(-80)
    ensures EffectiveDebtOf(After(), Prices(1, 2), 2) == Ok(600)
    ensures HealthFactor(After(), Prices(1, 2), 2) == Ok(4_293_633_962)
  {
    hide HealthFactor, UsdValue, CollateralValue, MulDivFloor, Indebted, Positions, Owes, ToU32, EffectiveDebtOf,
      FactoredCollateral;
    IndebtedOwes(-100, 600, 1_400, 400, map[]);
    Factors(-100, 600, 1_400, 400, map[]);
    Amounts();
    HealthNumbers();
    Valued(After(), 200, 1, 1, 2, -100, -100, 20);
    Numbers(After(), Prices(1, 2), -100, 600, -80);
  }

  /** After a run from a fresh pool — a lender, two borrowers, a price move, a liquidation that is not
      filled at once, a removal while prices are back — a fill passes its health check and leaves
      borrower 2 owing 100 units of token 10.  When the other collateral then loses its value, its
      factored total is negative and its health factor reads 429: no liquidation can be started. */
  lemma FillCanHideInsolvency()
    ensures var p := Run(Start(), Script());
            && Fresh(Start()) && PoolInv(p) && FillAuction(p, Prices(3, 1), 2_000).Ok?
            && var p' := FillAuction(p, Prices(3, 1), 2_000).value.0;
            && FactoredCollateral(p', Prices(1, 2), 2) == Ok(-80)
            && EffectiveDebtOf(p', Prices(1, 2), 2) == Ok(600)
            && HealthFactor(p', Prices(1, 2), 2) == Ok(4_293_633_962)
  {
    hide Run, RunAllowed, PoolInv, FillAuction, HealthFactor, EffectiveDebtOf, FactoredCollateral, Before, After,
      Script;
    ScriptRuns();
    FreshPoolInv(Start());
    SolvencyOverRuns(Start(), Script());
    FillHappens();
    HiddenHealth();
  }
}
