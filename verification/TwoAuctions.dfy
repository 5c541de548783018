/** Two interest auctions on one credit, at the end of a run from a fresh pool. */
module TwoAuctions {
  import opened Outcomes
  import opened FixedPoint
  import opened Tables
  import opened PoolTypes
  import opened PoolStore
  import opened Valuation
  import opened PoolOperations
  import opened PoolInvariants
  import opened PoolSteps
  import opened PoolRuns
  import opened LenderCover
  import opened Scenes
  import Interest

  /** Half of a large supply is borrowed, and a tenth of the interest goes to the backstop. */
  const HALF: Scene := Scene(1_000_000, 0, Interest.DEFAULT_PARAMS, 1_000_000_000_000, 1_000_000_000_000,
                             500_000_000_000, 0)

  /** What a year brings the backstop. */
  const CREDIT: int := 2_166_665_000

  const YEAR: nat := 31_536_000

  function AfterAYear(credit: int): Reserve {
    Reserve(1_019_499_985_000, 1_043_333_300_000, 1_000_000, 1_000_000_000_000, 500_000_000_000, credit, 0, YEAR)
  }

  lemma HalfPlays()
    ensures Playable(HALF) && EffectiveDebt(500_000_000_000, HALF.ps.lFactor) == Ok(500_000_000_000)
  {
  }

  lemma HalfYear()
    ensures Interest.Accrue(Reserve(SCALAR_12, SCALAR_12, SCALAR_7, 1_000_000_000_000, 500_000_000_000, 0, 0, 0),
              Some(HALF.ps), HALF.takeRate, 0, YEAR) == Ok(AfterAYear(CREDIT))
  {
    var ps := Interest.DEFAULT_PARAMS;
    assert Interest.Utilization(Reserve(SCALAR_12, SCALAR_12, SCALAR_7, 1_000_000_000_000, 500_000_000_000, 0, 0, 0))
        == Ok(5_000_000);
    assert Interest.InterestRate(ps, 5_000_000, SCALAR_7) == Ok(433_333);
    assert Interest.AccrualFactor(433_333, YEAR) == Ok(1_043_333_300_000);
    assert Interest.NextIrMod(ps, 5_000_000, SCALAR_7, YEAR) == Ok(1_000_000);
    assert Interest.InterestEarned(500_000_000_000, 43_333_300_000) == Ok(21_666_650_000);
    assert Interest.Take(21_666_650_000, 1_000_000) == Ok(CREDIT);
    assert Interest.SpreadToLenders(1_000_000_000_000, 1_000_000_000_000, 19_499_985_000) == Ok(1_019_499_985_000);
    hide Interest.Utilization, Interest.InterestRate, Interest.AccrualFactor, Interest.NextIrMod,
         Interest.InterestEarned, Interest.SpreadToLenders, Interest.Take;
  }

  /** The pool a year on, with what the auctions have changed. */
  function Stage(credit: int, balance: int, auctions: map<int, Auction>): Pool {
    Owing(HALF, AfterAYear(credit)).(poolBalance := map[0 := balance], auctions := auctions,
                                     custody := map[5 := balance, 10 := 1_000_000_000_000])
  }

  function At(sequence: U32): Env {
    Clock(YEAR, sequence)
  }

  function WholeCredit(block: U32): Auction {
    Auction(AuctionType.Interest, 9, [], [Entry(5, CREDIT)], block)
  }

  function IdAt(block: U32): int {
    YEAR + 1_000 + block
  }

  /** Accrue, create, create, fill, fill. */
  function Auctioned(): seq<Event> {
    Opening(HALF) +
    [Event(At(0), AccrueStep(0)),
     Event(At(0), CreateInterestAuctionStep(9, 0)), Event(At(1), CreateInterestAuctionStep(9, 0)),
     Event(At(2), FillInterestAuctionStep(IdAt(0), 0, SCALAR_7)),
     Event(At(2), FillInterestAuctionStep(IdAt(1), 0, SCALAR_7))]
  }

  const LEFT: int := 500_000_000_000

  lemma CreateOne(auctions: map<int, Auction>, block: U32)
    requires block < 1_000
    ensures Next(Stage(CREDIT, LEFT, auctions), At(block), CreateInterestAuctionStep(9, 0))
         == Stage(CREDIT, LEFT, auctions[IdAt(block) := WholeCredit(block)])
  {
    hide LedgerNext, QueueNext, SettingNext, Set, AuctionId;
    IdOf(block);
    LotOf();
  }

  lemma IdOf(block: U32)
    requires block < 1_000
    ensures AuctionId(At(block), INTEREST_ID_OFFSET) == IdAt(block)
  {
  }

  lemma LotOf()
    ensures Set([], 5, CREDIT) == [Entry(5, CREDIT)] && GetOr([Entry(5, CREDIT)], 5, 0) == CREDIT
  {
  }

  lemma StageHolds(credit: int, balance: int, auctions: map<int, Auction>)
    ensures var p := Stage(credit, balance, auctions);
            && BalanceOf(p, 0) == balance && CustodyOf(p, 5) == balance && ReserveOf(p, 0, YEAR) == AfterAYear(credit)
  {
  }

  lemma StagePaid(credit: int, balance: int, auctions: map<int, Auction>, left: int, credit': int)
    ensures var p := Stage(credit, balance, auctions);
            p.(poolBalance := p.poolBalance[0 := left], custody := p.custody[5 := left],
               reserves := p.reserves[0 := AfterAYear(credit')]) == Stage(credit', left, auctions)
  {
    hide AfterAYear, Funded, DebtOf;
    assert map[0 := balance][0 := left] == map[0 := left];
    assert map[0 := AfterAYear(credit)][0 := AfterAYear(credit')] == map[0 := AfterAYear(credit')];
    HeldBeside(balance, left);
  }

  lemma HeldBeside(balance: int, left: int)
    ensures map[5 := balance, 10 := 1_000_000_000_000][5 := left] == map[5 := left, 10 := 1_000_000_000_000]
  {
  }

  lemma PayOne(credit: int, balance: int, auctions: map<int, Auction>)
    requires CREDIT <= balance <= LEFT && 0 <= credit <= CREDIT
    ensures PayInterest(Stage(credit, balance, auctions), At(2), 0, 5, CREDIT)
         == Ok(Stage(credit - CREDIT, balance - CREDIT, auctions))
  {
    hide SaturatingSub, Stage, BalanceOf, CustodyOf, ReserveOf;
    StageHolds(credit, balance, auctions);
    InRange(credit);
    StagePaid(credit, balance, auctions, balance - CREDIT, credit - CREDIT);
  }

  lemma InRange(credit: int)
    requires 0 <= credit <= CREDIT
    ensures SaturatingSub(credit, CREDIT) == credit - CREDIT
  {
  }

  /** The amounts a fill computes for the whole of the lot. */
  lemma AmountsOne(block: U32)
    requires block <= 2
    ensures GetOr([Entry(5, CREDIT)], 5, 0) == CREDIT && SaturatingSub(CREDIT, CREDIT) == 0
    ensures MulScalar7(CREDIT, SCALAR_7) == Ok(CREDIT)
    ensures MulDivFloor(CREDIT, SCALAR_12, SCALAR_12) == Ok(CREDIT)
    ensures MulDivFloor(CREDIT, InterestBidModifier(2 - block), SCALAR_12).Ok?
  {
    assert 0 <= InterestBidModifier(2 - block) <= SCALAR_12;
    ScaledRange(CREDIT, InterestBidModifier(2 - block));
  }

  lemma FillOne(credit: int, balance: int, auctions: map<int, Auction>, block: U32)
    requires IdAt(block) in auctions && auctions[IdAt(block)] == WholeCredit(block) && block <= 2
    requires CREDIT <= balance <= LEFT && 0 <= credit <= CREDIT
    ensures Next(Stage(credit, balance, auctions), At(2), FillInterestAuctionStep(IdAt(block), 0, SCALAR_7))
         == Stage(credit - CREDIT, balance - CREDIT, auctions - {IdAt(block)})
  {
    hide PayInterest, MulDivFloor, MulScalar7, Get, GetOr, InterestBidModifier, SaturatingSub, LedgerNext, QueueNext,
      SettingNext;
    PayOne(credit, balance, auctions);
    AmountsOne(block);
  }

  lemma FillOneAllowed(credit: int, balance: int, auctions: map<int, Auction>, block: U32)
    requires IdAt(block) in auctions && auctions[IdAt(block)] == WholeCredit(block) && 0 <= credit
    ensures StepAllowed(Stage(credit, balance, auctions), FillInterestAuctionStep(IdAt(block), 0, SCALAR_7))
  {
    hide Get, GetOr;
    LotOf();
    assert CreditOf(Stage(credit, balance, auctions), 0) == credit;
  }

  // ---- The run ----

  const FIRST: map<int, Auction> := map[IdAt(0) := WholeCredit(0)]
  const BOTH: map<int, Auction> := map[IdAt(0) := WholeCredit(0), IdAt(1) := WholeCredit(1)]
  const SECOND: map<int, Auction> := map[IdAt(1) := WholeCredit(1)]

  /** After the opening and the year. */
  lemma YearPasses()
    ensures Run(NewPool(HALF), Auctioned()[..8]) == Stage(CREDIT, LEFT, map[])
    ensures RunAllowed(NewPool(HALF), Auctioned()[..8])
  {
    hide Next, Run, RunAllowed, Interest.Accrue, BorrowAllowed, EffectiveDebt, Playable, Secured, NewPool;
    var p, events := NewPool(HALF), Auctioned();
    HalfPlays();
    Allowed(HALF, 500_000_000_000);
    OpeningRuns(HALF);
    assert events[..7] == Opening(HALF);
    HalfYear();
    Ages(HALF, Reserve(SCALAR_12, SCALAR_12, SCALAR_7, 1_000_000_000_000, 500_000_000_000, 0, 0, 0),
         AfterAYear(CREDIT), At(0));
    RunNext(p, events, 7, Indebted(HALF));
  }

  /** After the two creations. */
  lemma TwoCreated()
    ensures Run(NewPool(HALF), Auctioned()[..10]) == Stage(CREDIT, LEFT, BOTH)
    ensures RunAllowed(NewPool(HALF), Auctioned()[..10])
  {
    hide Next, Run, RunAllowed, Stage, NewPool, WholeCredit;
    var p, events := NewPool(HALF), Auctioned();
    YearPasses();
    CreateOne(map[], 0);
    RunNext(p, events, 8, Stage(CREDIT, LEFT, map[]));
    assert map[][IdAt(0) := WholeCredit(0)] == FIRST;
    CreateOne(FIRST, 1);
    RunNext(p, events, 9, Stage(CREDIT, LEFT, FIRST));
    assert FIRST[IdAt(1) := WholeCredit(1)] == BOTH;
  }

  /** After both fills. */
  lemma BothFilled()
    ensures Run(NewPool(HALF), Auctioned()) == Stage(-CREDIT, LEFT - 2 * CREDIT, map[])
    ensures RunAllowed(NewPool(HALF), Auctioned())
  {
    hide Next, StepAllowed, Run, RunAllowed, Stage, NewPool, WholeCredit;
    var p, events := NewPool(HALF), Auctioned();
    TwoCreated();
    FillOne(CREDIT, LEFT, BOTH, 0);
    FillOneAllowed(CREDIT, LEFT, BOTH, 0);
    RunNext(p, events, 10, Stage(CREDIT, LEFT, BOTH));
    assert BOTH - {IdAt(0)} == SECOND;
    FillOne(0, LEFT - CREDIT, SECOND, 1);
    FillOneAllowed(0, LEFT - CREDIT, SECOND, 1);
    RunNext(p, events, 11, Stage(0, LEFT - CREDIT, SECOND));
    assert SECOND - {IdAt(1)} == map[];
    assert events[..12] == events;
  }

  lemma StageCover(credit: int, balance: int, auctions: map<int, Auction>)
    ensures CreditOf(Stage(credit, balance, auctions), 0) == credit
    ensures LendersCovered(Stage(credit, balance, auctions), 0) <==> balance >= LEFT - CREDIT
    ensures CreditsSound(Stage(credit, balance, auctions)) <==> credit >= 0
  {
    var p := Stage(credit, balance, auctions);
    assert CreditOf(p, 0) == credit;
  }

  /** Nothing keeps the credit for the auction it was put up in.  A run from a fresh pool with every
      step allowed brings the backstop a credit, puts all of it up twice and sees both auctions filled;
      it ends with a negative credit and a lender whom liquid tokens and debt do not cover. */
  lemma TwoAuctionsUncoverLenders()
    ensures var p, events := NewPool(HALF), Auctioned();
            var end := Run(p, events);
            && Fresh(p) && |events| == 12
            && CreditsSound(Run(p, events[..10])) && LendersCovered(Run(p, events[..10]), 0)
            && RunAllowed(p, events) && PoolInv(end) && Solvent(end, 0)
            && CreditOf(end, 0) == -CREDIT && !LendersCovered(end, 0)
  {
    hide PoolInv, Run, RunAllowed, NewPool, Stage, CreditsSound, LendersCovered;
    TwoCreated();
    BothFilled();
    StageCover(CREDIT, LEFT, BOTH);
    StageCover(-CREDIT, LEFT - 2 * CREDIT, map[]);
    StartsFresh(HALF);
    FreshPoolInv(NewPool(HALF));
    SolvencyOverRuns(NewPool(HALF), Auctioned());
  }
}
