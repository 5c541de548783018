# Neko on Soroban: a verified model

Neko is a Blend-style lending stack. This project models four of its contracts and two smaller
pieces, and proves what they promise over every input and every run:

- **Lending pool** (`PoolTypes`, `PoolStore`, `Interest`, `Valuation`, `PoolOperations`, `LendingPool`,
  `ReserveCache`). Reserves with bToken and dToken rates, collateralised debt positions, liquidation
  and interest auctions, timelocked parameters. `PoolInvariants`, `PoolSteps` and `PoolRuns` prove
  equity over every run, `LedgerRuns` supply, debt and custody, `LenderCover` and `HeldDebt` what stands
  behind the lenders. `AccrualValue`, `ValuationFacts`, `LiquidationFacts` and `InterestAuctionFacts` give the
  numbers in closed form, `PoolGates` says what is turned away and `PoolSuccess` exactly when a call goes
  through; `AccrualFacts`, `RateCurve`, `UtilizationFacts`, `BorrowSafety` and `ConfigTimelock` prove the rest.
  `Scenes`, `TwoAuctions` and `HiddenInsolvency` evaluate runs from a fresh pool, with the steps of `ParSteps`.
- **Vault** (`VaultRules`, `Vault`). Shares priced by net asset value over a list of protocol
  adapters, a pull loop, a rebalance loop, fees in new shares. `VaultFunds` and `RebalanceFacts`
  prove what the loops do to net asset value, `VaultSafety` and `VaultRuns` what every run keeps,
  `VaultAllowances` what a spender can take, `VaultValue` what a share is worth and which fees are minted,
  `VaultSuccess` exactly when a call goes through.
- **Backstop** (`BackstopRules`, `Backstop`, `BackstopSafety`, `BackstopSuccess`). A bounded FIFO withdrawal queue with a
  17-day lock, two counters, and a state derived from them and pushed into the pool.
- **Soroswap adapter** (`Soroswap`): the Newton square root and the LP valuation.
- **Price oracle** (`OracleHistory`): the pruned history of each asset and its readers.

`Outcomes`, `FixedPoint`, `Tables` and `Sums` hold what they share: call results, checked `i128`
arithmetic with the rounding helpers, the host's sorted map, and sums over maps.

## How the model is built

Every operation is written twice. A function (`PoolOperations`, `VaultRules`, `BackstopRules`,
`OracleRules`) gives the new state, or the error, in terms of the old state, with the same checks in
the same order as the contract. A method of a class does the work step by step, with the contract's
loops, caches and temporary writes, and is proved to have exactly the effect of the function. The
theorems are about the functions and their runs, so they hold of the methods.

A Soroban call is atomic. An error return, a panic and an overflow (the release profile keeps
overflow checks on) all restore the state; `Settle`, `Did` and the two `Transact` methods say so.
Integers are mathematical, with the `i128` range checked wherever the contracts check it and a trap
where a plain operator would overflow. Casts to `u32` and `u128` that can lose bits are written out.

The clock, the ledger sequence, prices and harvested amounts are inputs. A temporary entry may
disappear at any step. A vault adapter is exact: it delivers the smaller of the amount asked for and
the vault's position, and the position moves by that; positions may also change on their own.

## Where the code and what is said about it differ

The model follows the code.

- The fuzzing suite asserts that the lenders' rate never falls
  (`stellar-contracts/test-suites/src/lib.rs:280-292`). A run from a fresh pool lowers
  it (`LenderRateCanFall`); `LenderRateKeptIff` is the exact condition.
- The suite also asserts that liquid tokens and debt cover the lenders
  (`stellar-contracts/test-suites/src/lib.rs:252-278`). Creating an interest auction does not reserve the
  credit it puts up (`SecondAuctionOnSameCredit`), the credit is lowered by a saturating `i128`
  subtraction that goes below zero, and a run from a fresh pool with two
  whole fills ends without the cover (`TwoAuctionsUncoverLenders`). It holds over every run whose fills draw at
  most the credit (`LendersCoveredOverRuns`, `FillKeepsCreditIff`); `LotConserved` says what one auction can
  rely on while no other draws the credit.
- Its third assertion, liabilities of at most the supply (`stellar-contracts/test-suites/src/lib.rs:293-318`), holds
  right after every borrow and withdrawal (`PayoutsLeaveBelowFull`, `BelowFullIff`); an accrual with a protocol
  share can end it (`AccrualCanExceedSupply`).
- Setting the backstop take rate does not re-check that the two interest shares stay within 100%, as
  setting the reserve factor does: `TakeRateKeepsFeesIff`. Beyond it an accrual takes from the lenders
  (`OverfullSharesTakeFromLenders`), so the run theorems ask for it (`StepAllowed`).
- The rate curve is not monotone for every modifier: the last segment is not modulated.
  `MonotoneIffRisesAtMax` is the exact condition, `RateCanFallAtMax` an input.
- A removal of collateral measures health after the old collateral has been restored, so it does not ensure
  the promised 1.1 after the removal (`stellar-contracts/neko-pool/src/operations/collateral.rs:128-138`):
  `RemovalCanLeaveBelowMin` ends at 1.05. What limits it is that the remaining limit must cover the debt
  value (`RemovalLeavesMargin`), which is enough for every debt whose liability factor is at least 0.1
  (`RemovalKeepsHealth`); `RemovalHealthIff` is the exact condition of one call.
- A borrow asks for no 1.1 health factor and does not count its fee, so it can leave its borrower liquidatable
  at once (`BorrowCanLeaveLiquidatable`); `BorrowLeavesHealthyIff` is the exact condition, and `BorrowBound`
  says by how much the debt can exceed the collateral.
- The identifier of a liquidation is promised to be unique
  (`stellar-contracts/neko-pool/src/operations/liquidations.rs:427`); within one ledger it is the same for
  all of them, and the second replaces the first (`SecondLiquidationReplacesFirst`,
  `InitiateKeepsAuctionsIff`).
- A liquidation fill leaves the reserve's dToken supply alone, so some supply loses its holder
  (`FillKeeps`, `SupplyOverRuns`). Accrual then credits lenders with interest nobody owes: counting only
  debt with a holder, `HeldEquityOverRuns` bounds the loss and `OrphansUncoverLenders` shows one.
- A fill can take more of a token than the CDP still holds. When prices then move, the factored total
  turns negative, the cast of the health factor wraps, and the CDP reads as healthy
  (`FillCanHideInsolvency`); `LiquidatableIff` is the exact condition over totals of either sign.
- The comment on the square root promises every non-negative `i128`; it traps on the largest one
  (`Isqrt`).
- The fair value of a liquidity position is said to hold still while a swap keeps the product of the reserves,
  within 0.5% for a ratio skew of 10%
  (`stellar-contracts/adapters/adapter-soroswap/src/soroswap_pool/mod.rs:73-76`). Converting one share at the
  spot price cancels the other reserve: the value follows reserve a alone (`FairValueFollowsReserveA`), so it
  holds still exactly when reserve a does, up to the rounding slack (`SwapMovesFairValue`).
  `SkewMovesFairValue` is a swap that moves it by 5%.
- Nothing stops two protocols of a vault from sharing an adapter, whose position then counts twice:
  `SharedAdapterUnderpays`. `WithdrawPays` says what is paid in general and `WithdrawIsExact` what is
  paid with distinct adapters.
- The share token does not refuse negative amounts. A transfer of one moves shares from the named
  recipient to the caller, whose consent alone is asked (`NegativeTransferTakes`), and a burn of one
  mints (`NegativeBurnMints`). The supply counter stays right (`SupplyOverRuns`);
  for direct calls `OnlySenderLosesIff`, `TransferKeepsSoundIff` and `BurnKeepsPerShareIff` give the exact
  conditions for nobody else to lose shares, for no balance to go negative, and for the value per share to be
  kept. On an allowance a negative amount needs no approval and creates one (`NegativeBurnFromGrants`,
  `NegativeTransferFromTakes`, `SpendLowersIff`); without such spends a spender takes at most what the holder
  approved, over every run (`TakenWithinApproved`).
- Initialization does not apply the setter's bounds to the configuration: a performance fee above 100%
  can cut the holders below the old mark (`OverfullFeeBreaksTheMark`). `PerformanceFeeSparesTheMark` and
  `PerformanceFeeBreaksTheMark` are the two halves of the condition, apart by the fee's three roundings and the
  price's one.
- The vault's description says in one place that an emergency exit disables all operations
  (`stellar-contracts/neko-vault/README.md:252-253`); withdrawals stay possible while the reserve is
  not empty (`WithdrawSucceedsIff`).
- The management fee is described as prorated by time and value; when the product leaves `u128` it is
  zero and its clock restarts all the same (`ManagementFeeIsProrated`, `ManagementFeeBound`).
- A change of the backstop threshold is not pushed to the pool (`ThresholdLeavesStaleStateIff`).
- Covered bad debt is taken from the backstop's total but from nobody's amount. The total can then go
  negative (`TotalCanGoNegative`, `TotalNonNegativeIff`) and a deposit can freeze an active pool
  (`DepositCanFreeze`, `StateKeptIff`).

## Model

| member | source | states |
|---|---|---|
| LendingPools.LendingPool.AccrueInterest | stellar-contracts/neko-pool/src/operations/interest.rs:25-89 | accrual through the cache returns the reserve brought to now, and leaves storage as if the result had been written directly |
| Interest.UpdateByAccrual | stellar-contracts/neko-pool/src/operations/interest.rs:245-347 | the field-by-field update of a reserve, with every checked step and error, equals the accrual the facts below are about |
| LendingPools.LendingPool.Deposit | stellar-contracts/neko-pool/src/operations/lending.rs:16-78 | a deposit call through cache, token transfer and flush has exactly the modelled effect on the whole store, or its error |
| LendingPools.LendingPool.Withdraw | stellar-contracts/neko-pool/src/operations/lending.rs:81-152 | same for a withdrawal |
| LendingPools.LendingPool.Borrow | stellar-contracts/neko-pool/src/operations/borrowing.rs:19-148 | same for a borrow: checks in order, fee, mint, pay-out |
| LendingPools.LendingPool.Repay | stellar-contracts/neko-pool/src/operations/borrowing.rs:151-225 | same for a repayment, including the capped burn and the cleared debt asset |
| LendingPools.LendingPool.CalculateBorrowLimit | stellar-contracts/neko-pool/src/operations/borrowing.rs:228-330 | the loop over the collateral computes the specified limit |
| LendingPools.LendingPool.CalculateHealthFactor | stellar-contracts/neko-pool/src/operations/liquidations.rs:294-401 | the second loop, with its own shortcuts, computes the specified factor |
| Valuation.SumCollateral | stellar-contracts/neko-pool/src/operations/borrowing.rs:245-273 | the collateral loop, skipping zero amounts and stopping at the first error, is the sum of the factored values |
| ValuationFacts.PowersMultiply | stellar-contracts/neko-pool/src/operations/oracles.rs:196-202 | powers of ten multiply as exponents add, from 10^1 = 10 |
| ValuationFacts.ScaleDropsOut | stellar-contracts/neko-pool/src/operations/oracles.rs:182-202 | a price ten times as large with one more decimal values every amount the same |
| ValuationFacts.DecimalsDoNotMatter | stellar-contracts/neko-pool/src/operations/borrowing.rs:228-330 | borrow limit and health factor are the same at any scale the oracles answer in |
| ValuationFacts.CollateralIsTotal | stellar-contracts/neko-pool/src/operations/borrowing.rs:245-273 | the collateral value is the sum over the entries of floor(floor(amount·price/10^decimals)·factor), the factor 0.75 where none is set |
| ValuationFacts.AddedCollateralCounts | stellar-contracts/neko-pool/src/operations/collateral.rs:33-62 | adding collateral moves the collateral value by exactly what that entry is worth more |
| ValuationFacts.LimitIs | stellar-contracts/neko-pool/src/operations/borrowing.rs:228-330 | the limit in closed form: the collateral sum less ceil(debt value·10^7/liability factor), never below zero |
| ValuationFacts.HealthIs | stellar-contracts/neko-pool/src/operations/liquidations.rs:294-401 | the health factor in closed form: floor(collateral·10^7/effective debt) at most u32::MAX, cast to 32 bits; u32::MAX when the debt is worth nothing |
| ValuationFacts.ValuedIff | stellar-contracts/neko-pool/src/operations/oracles.rs:182-202 | a value is computed exactly when there is nothing to compute, or the scale is at most 10^38 and the quotient fits |
| ValuationFacts.CollateralValuedIff | stellar-contracts/neko-pool/src/operations/borrowing.rs:245-273 | the collateral has a value exactly when every entry that counts has a positive price and products that fit, and the sum fits |
| ValuationFacts.DebtValuedIff | stellar-contracts/neko-pool/src/operations/borrowing.rs:276-310 | a debt has a value exactly when there is none, or its asset has a positive price and the products fit |
| ValuationFacts.LimitDefinedIff | stellar-contracts/neko-pool/src/operations/borrowing.rs:228-330 | the exact condition under which the borrow limit has an answer |
| ValuationFacts.HealthDefinedIff | stellar-contracts/neko-pool/src/operations/liquidations.rs:294-401 | the exact condition under which the health factor has one |
| LendingPools.LendingPool.AddCollateral | stellar-contracts/neko-pool/src/operations/collateral.rs:16-62 | the whole new store |
| LendingPools.LendingPool.RemoveCollateral | stellar-contracts/neko-pool/src/operations/collateral.rs:65-165 | temporary write, check, restore and final write have exactly the specified effect |
| LendingPools.LendingPool.InitiateLiquidation | stellar-contracts/neko-pool/src/operations/liquidations.rs:18-160 | the whole new store with the auction put up, or the error |
| LendingPools.LendingPool.FillAuction | stellar-contracts/neko-pool/src/operations/liquidations.rs:163-289 | the whole new store after a fill, and the two amounts sent to liquidator and treasury |
| LendingPools.LendingPool.CreateInterestAuction | stellar-contracts/neko-pool/src/operations/interest_auction.rs:31-82 | the whole new store |
| LendingPools.LendingPool.FillInterestAuction | stellar-contracts/neko-pool/src/operations/interest_auction.rs:87-195 | the whole new store and the two amounts of a fill |
| LendingPools.LendingPool.CollectTreasuryFees | stellar-contracts/neko-pool/src/admin/mod.rs:293-322 | the whole new store and the amount collected |
| LendingPools.LendingPool.QueueReserveParams | stellar-contracts/neko-pool/src/admin/mod.rs:119-154 | validation, the slot, and the unlock time by pool state |
| LendingPools.LendingPool.ApplyQueuedParams | stellar-contracts/neko-pool/src/admin/mod.rs:157-170 | the queued parameters move into force only once unlocked |
| LendingPools.TransactLedger | stellar-contracts/neko-pool/src/contract.rs:161-248 | a call followed by the host rollback on error is one step of the state machine whose runs are proved safe |
| LendingPools.TransactAuction | stellar-contracts/neko-pool/src/contract.rs:262-335 | the same for auction, accrual and treasury calls |
| ReserveCaching.CachedCall | stellar-contracts/neko-pool/src/common/reserve_cache.rs:10-93 | any sequence of loads and saves through a fresh cache returns what direct storage access returns, and one flush leaves what direct writes would have left |
| ReserveCaching.ReserveCache.MarkDirty | stellar-contracts/neko-pool/src/common/reserve_cache.rs:42-54 | the dirty list gains the key exactly once |
| ReserveCaching.ReserveCache.GetReserve | stellar-contracts/neko-pool/src/common/reserve_cache.rs:56-64 | a load returns the pending value, else the stored one, and changes nothing pending |
| ReserveCaching.ReserveCache.SetReserve | stellar-contracts/neko-pool/src/common/reserve_cache.rs:66-70 | a save has the effect on pending storage of a direct write; dirty stays duplicate-free and clean entries equal storage |
| ReserveCaching.ReserveCache.Flush | stellar-contracts/neko-pool/src/common/reserve_cache.rs:72-82 | flushing writes exactly the pending values |
| ReserveCaching.OverlayAt | stellar-contracts/neko-pool/src/common/reserve_cache.rs:56-82 | reading after a flush: dirty keys come from the cache, all others from storage |
| ReserveCaching.OverlaySave | stellar-contracts/neko-pool/src/common/reserve_cache.rs:66-70 | a save commutes with the flush that follows it |
| AccrualFacts.SpreadBounds | stellar-contracts/neko-pool/src/operations/interest.rs:328-341 | spreading interest raises lender claims by at most the interest, keeps the rate at 1.0 or more, and lowers it by less than 10^12/b_supply + 1 |
| AccrualFacts.ApplyAccrualKeeps | stellar-contracts/neko-pool/src/operations/interest.rs:245-347 | debt rate and both credits do not fall, and debt claims minus lender claims minus both credits do not fall |
| AccrualFacts.AccrueKeeps | stellar-contracts/neko-pool/src/operations/interest.rs:25-89 | the same whichever branch accrual takes |
| AccrualFacts.LenderRateKeptIff | stellar-contracts/neko-pool/src/operations/interest.rs:257-341 | whatever the two protocol shares, the lenders' rate does not fall exactly when there are no lenders, they get at least one unit, or they get nothing and their claims were a whole number of units |
| AccrualFacts.OverfullSharesTakeFromLenders | stellar-contracts/neko-pool/src/admin/mod.rs:229-237 | with both shares at 100%, which the setters can be brought to accept, a year of accrual takes the lenders' rate below 1.0 |
| Scenes.LenderRateCanFall | stellar-contracts/test-suites/src/lib.rs:280-292 | against the asserted monotonicity: a run from a fresh pool whose last second of accrual lowers the lenders' rate |
| RateCurve.RateIsCurve | stellar-contracts/neko-pool/src/operations/interest.rs:105-193 | for validated parameters the segmented calculation never fails and is the closed-form curve |
| RateCurve.CurveRisesToMax | stellar-contracts/neko-pool/src/operations/interest.rs:114-161 | the rate never falls as utilization rises up to the maximum utilization |
| RateCurve.MonotoneIffRisesAtMax | stellar-contracts/neko-pool/src/operations/interest.rs:114-193 | the rate is non-decreasing everywhere exactly when it does not step down into the last segment |
| RateCurve.NeutralModifierRises | stellar-contracts/neko-pool/src/operations/interest.rs:158-193 | with a modifier of at most 1.0 it does not step down |
| RateCurve.RateCanFallAtMax | stellar-contracts/neko-pool/src/operations/interest.rs:158-193 | with the default parameters and a modifier of 2.0 the rate halves across 95% |
| RateCurve.IrModFollowsGap | stellar-contracts/neko-pool/src/operations/interest.rs:216-241 | the modifier stays in [0.1, 10] and moves toward the side of the utilization gap; NextIrModMoves says by how much |
| RateCurve.AccrualNeverOverflows | stellar-contracts/neko-pool/src/operations/interest.rs:25-347 | no checked step of an accrual fails while supplies are at most 10^16, rates at most 10^15 (a thousand times 1.0), credits at most 10^30 and at most 10^9 seconds (31 years) have passed |
| AccrualValue.UtilizationIs | stellar-contracts/neko-pool/src/operations/interest.rs:361-398 | utilization is liabilities over lenders' claims at seven decimals, rounded down, zero when nothing is supplied or owed and never above 1.0 |
| AccrualValue.NextIrModMoves | stellar-contracts/neko-pool/src/operations/interest.rs:216-241 | the modifier moves by exactly one ten-millionth of seconds·gap·reactivity, rounded toward where it was, or stops at the clamp on that side |
| AccrualValue.MovesOnce | stellar-contracts/neko-pool/src/operations/interest.rs:216-241 | that describes one value only |
| AccrualValue.AccrueIs | stellar-contracts/neko-pool/src/operations/interest.rs:25-347 | every field of a reserve after an accrual in closed form: debt rate, the two credits, lender rate, modifier and time |
| AccrualValue.AccruedReserveIs | stellar-contracts/neko-pool/src/operations/interest.rs:25-347 | the same of the reserve an operation works on, with the pool's own parameters and shares |
| PoolRuns.SolvencyOverRuns | stellar-contracts/neko-pool/src/operations/interest.rs:245-347 | over every run no reserve's balance·10^12 + debt claims − lender claims − both credits·10^12 falls or is negative, no debt rate falls, and no lender rate drops below 1.0 |
| LedgerRuns.SupplyOverRuns | stellar-contracts/neko-pool/src/operations/borrowing.rs:58-208 | over every run, with no condition on its steps, b_supply is the sum of bTokens, each CDP's debt is the borrower's dTokens in its one asset and none elsewhere, and d_supply is at least the dToken sum, equal without liquidation fills |
| LedgerRuns.CustodyOverRuns | stellar-contracts/neko-pool/src/operations/collateral.rs:33-62 | over every run of the entry points, with no condition on them, the pool holds of each pure collateral token exactly the sum the CDPs record |
| LedgerRuns.StepKeepsLedger | stellar-contracts/neko-pool/src/contract.rs:42-335 | one step of any kind keeps token sums, single debts, custody and auctions, and leaves no fewer debt tokens without a holder, whatever the rates and shares |
| PoolRuns.StepKeeps | stellar-contracts/neko-pool/src/contract.rs:42-335 | one step of any kind keeps the whole invariant and lowers no reserve's equity, given the two tests of StepAllowed, exact by TakeRateKeepsFeesIff and FillKeepsEquityIff |
| LedgerRuns.FreshLedgerInv | stellar-contracts/neko-pool/src/admin/mod.rs:19-54 | every run starts from such a pool, whatever the two interest shares |
| PoolRuns.FreshPoolInv | stellar-contracts/neko-pool/src/admin/mod.rs:19-54 | a fresh pool satisfies the invariant the runs start from |
| PoolRuns.TakeRateKeepsFeesIff | stellar-contracts/neko-pool/src/admin/mod.rs:229-237 | setting the take rate keeps the two interest shares within 100% exactly when their sum says so: the setter does not check it |
| PoolRuns.TakeRateCanBreakFees | stellar-contracts/neko-pool/src/admin/mod.rs:229-237 | a valid pool on which the setter breaks the limit |
| PoolSteps.DepositKeeps | stellar-contracts/neko-pool/src/operations/lending.rs:45-71 | a deposit keeps the invariant; the rounding favours the pool |
| PoolSteps.DepositEffect | stellar-contracts/neko-pool/src/operations/lending.rs:45-71 | the whole store after a deposit: floor(amount·10^12/b_rate) bTokens to one lender and the supply, the amount to balance and custody |
| PoolSteps.WithdrawEffect | stellar-contracts/neko-pool/src/operations/lending.rs:112-145 | after a withdrawal: at most what is held is burnt, for floor(burnt·b_rate/10^12) |
| PoolSteps.BorrowEffect | stellar-contracts/neko-pool/src/operations/borrowing.rs:65-141 | after a borrow: ceil((amount + fee)·10^12/d_rate) dTokens, the fee to the treasury credit, the amount out of balance and custody |
| PoolSteps.RepayIs | stellar-contracts/neko-pool/src/operations/borrowing.rs:171-218 | after a repayment: at most the position's dTokens are burnt, for ceil(burnt·d_rate/10^12), and the debt asset is cleared with the last |
| PoolSteps.WithdrawKeeps | stellar-contracts/neko-pool/src/operations/lending.rs:112-145 | a withdrawal keeps the invariant |
| PoolSteps.BorrowKeeps | stellar-contracts/neko-pool/src/operations/borrowing.rs:85-141 | a borrow keeps the invariant, fee included |
| PoolSteps.RepayKeeps | stellar-contracts/neko-pool/src/operations/borrowing.rs:178-218 | a repayment keeps the invariant |
| PoolSteps.AddCollateralKeeps | stellar-contracts/neko-pool/src/operations/collateral.rs:33-62 | adding collateral keeps every invariant and moves custody with the CDP |
| PoolSteps.RemoveCollateralKeeps | stellar-contracts/neko-pool/src/operations/collateral.rs:121-165 | removing it does too |
| PoolSteps.RemoveCollateralEffect | stellar-contracts/neko-pool/src/operations/collateral.rs:81-165 | the temporary write leaves no trace: only that amount, the update time and custody change |
| PoolSteps.InitiateKeeps | stellar-contracts/neko-pool/src/operations/liquidations.rs:18-160 | an initiated auction keeps the invariant |
| PoolSteps.FillEffect | stellar-contracts/neko-pool/src/operations/liquidations.rs:163-289 | every change a fill makes: tokens, lot, bid, fee, burnt debt |
| PoolSteps.FillKeeps | stellar-contracts/neko-pool/src/operations/liquidations.rs:163-289 | a fill keeps the invariant; d_supply stays where it is, so debt without a holder can only grow |
| PoolSteps.FillInterestKeeps | stellar-contracts/neko-pool/src/operations/interest_auction.rs:87-195 | an interest fill keeps the invariant whenever its subtraction from the credit stays in i128, which FillKeepsEquityIff shows to be the exact condition |
| PoolSteps.CollectKeeps | stellar-contracts/neko-pool/src/admin/mod.rs:293-322 | collecting the treasury credit keeps it exactly |
| PoolSteps.LotBounds | stellar-contracts/neko-pool/src/operations/liquidations.rs:96-119 | the lot lies between zero and the collateral |
| PoolSteps.PremiumRange | stellar-contracts/neko-pool/src/operations/liquidations.rs:59-74 | the premium lies between 1.0 and 1.5 |
| ConfigTimelock.ParamsAreTimelocked | stellar-contracts/neko-pool/src/admin/mod.rs:119-170 | over every run the parameters in force were validated and queued by a successful call, stayed queued until a successful call applied them after their unlock (on ice at once, else seven days), and have been in force since |
| ConfigTimelock.StepCases | stellar-contracts/neko-pool/src/admin/mod.rs:119-178 | parameters and queue change only through the three queue operations |
| PoolGates.RefusedChangesNothing | stellar-contracts/neko-pool/src/operations/borrowing.rs:24-41 | a step that the state, a disabled reserve, the supply cap or the amount turns away leaves the store as it was |
| PoolGates.NoNewDebtUnlessActive | stellar-contracts/neko-pool/src/operations/borrowing.rs:29-33 | over every run that never finds the pool active, nobody's debt tokens of any asset rise |
| PoolGates.FrozenKeepsLenders | stellar-contracts/neko-pool/src/operations/lending.rs:22-98 | over every run that always finds it frozen, nobody's bTokens change |
| PoolGates.StateMovesOnlyByItsSetters | stellar-contracts/neko-pool/src/admin/mod.rs:180-219 | the state moves only when the administrator sets it or the registered backstop pushes it, 0 for Active, 1 for OnIce, else Frozen |
| PoolGates.OperationsKeepSettings | stellar-contracts/neko-pool/src/contract.rs:161-335 | user and auction steps change no setting of the pool |
| PoolGates.SettersSetOneThing | stellar-contracts/neko-pool/src/admin/mod.rs:91-290 | each setter within its bound sets its one value and nothing else, and out of bounds changes nothing |
| PoolGates.RefusalsSayWhy | stellar-contracts/neko-pool/src/operations/lending.rs:22-43 | the error of each refusal, in the order of the checks |
| PoolSuccess.DepositSucceedsIff | stellar-contracts/neko-pool/src/operations/lending.rs:16-78 | the exact condition under which a deposit goes through |
| PoolSuccess.WithdrawSucceedsIff | stellar-contracts/neko-pool/src/operations/lending.rs:81-152 | same for a withdrawal: liquidity, custody, and liabilities left below supply |
| PoolSuccess.BorrowSucceedsIff | stellar-contracts/neko-pool/src/operations/borrowing.rs:19-148 | same for a borrow: one debt asset, the limit over collateral and debt, liquidity, and liabilities left below supply |
| PoolSuccess.AllowedIff | stellar-contracts/neko-pool/src/operations/borrowing.rs:36-103 | the tests before a mint: one debt asset, a price, and ceil(value·10^7/liability factor) within the limit |
| PoolSuccess.RepaySucceedsIff | stellar-contracts/neko-pool/src/operations/borrowing.rs:151-225 | same for a repayment, which the state of the pool never stops |
| PoolSuccess.AddCollateralSucceedsIff | stellar-contracts/neko-pool/src/operations/collateral.rs:16-62 | same for adding collateral |
| PoolSuccess.RemoveCollateralSucceedsIff | stellar-contracts/neko-pool/src/operations/collateral.rs:65-165 | same for removing it: for a debtor, the limit left covers the debt value and health before is at least 1.1 |
| PoolSuccess.InitiateSucceedsIff | stellar-contracts/neko-pool/src/operations/liquidations.rs:18-160 | same for starting a liquidation: debt in that asset, health below 1.0, collateral that is worth something |
| PoolSuccess.FillSucceedsIff | stellar-contracts/neko-pool/src/operations/liquidations.rs:163-289 | same for filling one: the collateral in custody, and the position left at a health factor of at most 1.15 |
| PoolSuccess.CreateInterestSucceedsIff | stellar-contracts/neko-pool/src/operations/interest_auction.rs:31-82 | same for an interest auction: a credit of at least the minimum |
| PoolSuccess.FillInterestSucceedsIff | stellar-contracts/neko-pool/src/operations/interest_auction.rs:87-195 | same for filling one: the percentage in (0, 1.0], a lot left, and balance and custody that cover the payout |
| PoolSuccess.CollectSucceedsIff | stellar-contracts/neko-pool/src/admin/mod.rs:293-322 | same for collecting the treasury credit |
| PoolSuccess.QueueSucceedsIff | stellar-contracts/neko-pool/src/admin/mod.rs:119-170 | same for queueing and applying parameters |
| BorrowSafety.LiquidatableIff | stellar-contracts/neko-pool/src/operations/liquidations.rs:294-401 | with debt, the exact condition for a health factor below 1.0 over totals of either sign: factored collateral below effective debt, or a negative total in a window of the wrapped cast |
| BorrowSafety.NegativeTotalAfterFill | stellar-contracts/neko-pool/src/operations/liquidations.rs:270-289 | right after a fill a negative total is more than 428 times the effective debt below zero |
| HiddenInsolvency.FillCanHideInsolvency | stellar-contracts/neko-pool/src/operations/liquidations.rs:163-289 | a run from a fresh pool after which a fill leaves one position negative and a price move then makes the total negative: health reads 429 |
| HiddenInsolvency.FillHappens | stellar-contracts/neko-pool/src/operations/liquidations.rs:163-289 | that fill, evaluated step by step |
| BorrowSafety.PositiveLimitIsHealthy | stellar-contracts/neko-pool/src/operations/borrowing.rs:228-330 | a borrower with a positive limit is never liquidatable |
| BorrowSafety.RemovalLeavesMargin | stellar-contracts/neko-pool/src/operations/collateral.rs:121-165 | after a debtor removes collateral the remaining factored value is at least effective debt plus debt value, and nothing else in the CDP changed |
| BorrowSafety.RemovalHealthIff | stellar-contracts/neko-pool/src/operations/collateral.rs:128-138 | against the comment: after a debtor's removal health is at least 1.1 exactly when ten times the remaining factored value covers eleven times the effective debt, both computable before the call |
| BorrowSafety.RemovalKeepsHealth | stellar-contracts/neko-pool/src/operations/collateral.rs:128-138 | what the comment promises, after every successful removal, when the liability factor of the debt is at least 0.1 |
| Scenes.RemovalCanLeaveBelowMin | stellar-contracts/neko-pool/src/operations/collateral.rs:128-138 | a run from a fresh pool with a liability factor of 0.05 after which a removal leaves a health factor of 1.05 |
| BorrowSafety.BorrowBound | stellar-contracts/neko-pool/src/operations/borrowing.rs:65-121 | after a borrow the effective debt exceeds max(factored collateral, prior effective debt) by at most the effective value of the fee, one dToken and two units |
| BorrowSafety.BorrowLeavesHealthyIff | stellar-contracts/neko-pool/src/operations/borrowing.rs:65-121 | over non-negative collateral a borrower is healthy right after a borrow exactly when the factored collateral covers the effective value of the debt with its fee at the accrued rate |
| Scenes.BorrowCanLeaveLiquidatable | stellar-contracts/neko-pool/src/operations/borrowing.rs:94-103 | a run from a fresh pool, at the default fee, after which borrowing the whole limit leaves a health factor of 0.996 |
| BorrowSafety.OwedAfterMint | stellar-contracts/neko-pool/src/common/types.rs:380-403 | minting for an amount adds at most that amount and one dToken of debt |
| LiquidationFacts.InitiatedLotIsFair | stellar-contracts/neko-pool/src/operations/liquidations.rs:52-119 | only an unhealthy CDP is put up; lot·collateral_value·S7² ≤ collateral·premium·percent·debt_value with premium in [1.0, 1.5] |
| LiquidationFacts.WaitingNeverHurts | stellar-contracts/neko-pool/src/operations/liquidations.rs:405-425 | waiting longer never lowers the lot received nor raises the bid paid |
| LiquidationFacts.ModifierEnds | stellar-contracts/neko-pool/src/operations/liquidations.rs:405-425 | the two ends and the middle of the auction; FillFollowsTheClock says what a fill moves at every block between |
| LiquidationFacts.AuctionIdsMeetIff | stellar-contracts/neko-pool/src/operations/liquidations.rs:427-433 | two identifiers are the same exactly when sequence, clock and offset add up to the same at 32 bits |
| LiquidationFacts.InitiateKeepsAuctionsIff | stellar-contracts/neko-pool/src/operations/liquidations.rs:131-160 | starting a liquidation keeps every open auction exactly when its identifier is not in use for another |
| LiquidationFacts.SecondLiquidationReplacesFirst | stellar-contracts/neko-pool/src/operations/liquidations.rs:427-433 | against the promised uniqueness: of two liquidations started in one ledger the second takes the identifier and the place of the first |
| LiquidationFacts.FillLeavesDebt | stellar-contracts/neko-pool/src/operations/liquidations.rs:163-289 | every successful fill leaves positive debt and health of at most 1.15, burns no more than was paid for, and closes the auction |
| LiquidationFacts.FillFollowsTheClock | stellar-contracts/neko-pool/src/operations/liquidations.rs:163-289 | b blocks in, a fill takes floor(lot·min(b, 200)/200) of the collateral and brings floor(bid·max(0, min(200, 400 − b))/200) to the pool; every other position and balance stays; the dTokens burnt, and what liquidator and treasury are sent, in closed form |
| LiquidationFacts.InitiatedAuctionIs | stellar-contracts/neko-pool/src/operations/liquidations.rs:52-160 | the whole auction a liquidation puts up: lot, bid and premium in closed form |
| InterestAuctionFacts.LotConserved | stellar-contracts/neko-pool/src/operations/interest_auction.rs:87-195 | over any run of any operations that neither fills another interest auction on the asset nor replaces or drops the entry, interest paid plus lot left is the lot at the start, and the credit covers the lot left |
| InterestAuctionFacts.LotIsPaidFromBalance | stellar-contracts/neko-pool/src/operations/interest_auction.rs:139-157 | over its fills and accruals alone the pool balance falls by exactly what was paid |
| InterestAuctionFacts.FillConserves | stellar-contracts/neko-pool/src/operations/interest_auction.rs:87-195 | the same for one fill |
| InterestAuctionFacts.CreatedOpen | stellar-contracts/neko-pool/src/operations/interest_auction.rs:31-75 | a new auction puts up the whole credit and starts such a run |
| InterestAuctionFacts.SecondAuctionOnSameCredit | stellar-contracts/neko-pool/src/operations/interest_auction.rs:31-75 | a later call puts up a second auction on the same whole credit beside the first |
| InterestAuctionFacts.FillAsksByTheClock | stellar-contracts/neko-pool/src/operations/interest_auction.rs:87-222 | b blocks in, a fill pays floor(lot·percent) and asks for floor(interest·max(0, 200 − b)/200), with the store's balance, custody and credit moved by the interest |
| LenderCover.LendersCoveredOverRuns | stellar-contracts/test-suites/src/lib.rs:252-278 | the asserted cover, balance·10^12 + d_supply·d_rate ≥ b_supply·b_rate, and no negative backstop credit, over every run whose interest fills draw at most the credit of their moment |
| LenderCover.FillKeepsCreditIff | stellar-contracts/neko-pool/src/operations/interest_auction.rs:139-157 | a fill leaves the credit non-negative exactly when it draws no more than the credit |
| LenderCover.FillKeepsEquityIff | stellar-contracts/neko-pool/src/operations/interest_auction.rs:139-157 | a fill keeps the reserve's equity exactly when the i128 subtraction does not stop at the type's bound |
| LenderCover.StepCredits | stellar-contracts/neko-pool/src/contract.rs:42-335 | no step but an interest fill lowers a backstop credit |
| TwoAuctions.TwoAuctionsUncoverLenders | stellar-contracts/test-suites/src/lib.rs:252-278 | a run from a fresh pool with two creations and two whole fills after which the credit is negative and the asserted cover fails |
| HeldDebt.HeldEquityOverRuns | stellar-contracts/neko-pool/src/operations/liquidations.rs:241-268 | counting only debt that has a holder, equity falls over every run by at most the growth of the debt rate on the dTokens without one |
| HeldDebt.StepKeepsHeld | stellar-contracts/neko-pool/src/contract.rs:42-335 | one step lowers held equity by at most orphaned dTokens times the rise of the debt rate, so only accrual can lower it |
| HeldDebt.HeldEquityWithoutFills | stellar-contracts/neko-pool/src/operations/liquidations.rs:241-268 | without liquidation fills held equity never falls |
| HeldDebt.OrphansUncoverLenders | stellar-contracts/neko-pool/src/operations/interest.rs:266-341 | a pool on which one year of accrual on orphaned dTokens leaves lenders uncovered by tokens and held debt |
| InterestAuctionFacts.InterestBidFalls | stellar-contracts/neko-pool/src/operations/interest_auction.rs:203-222 | the asked price only falls with time, to nothing after 200 blocks |
| UtilizationFacts.BelowFullIff | stellar-contracts/neko-pool/src/operations/interest.rs:105-112 | the test before a payout passes exactly when liabilities are below supply or nothing is supplied |
| UtilizationFacts.PayoutsLeaveBelowFull | stellar-contracts/test-suites/src/lib.rs:293-318 | what holds of the asserted bound: right after every borrow and withdrawal |
| UtilizationFacts.AccrualCanExceedSupply | stellar-contracts/test-suites/src/lib.rs:293-318 | a run from a fresh pool after which a year of accrual, with a fifth to the backstop, leaves liabilities above supply |
| Vaults.Vault.constructor | stellar-contracts/neko-vault/src/admin/mod.rs:18-50 | a new vault: active, empty, mark 1.0 |
| Vaults.Vault.CalculateNav | stellar-contracts/neko-vault/src/vault/nav.rs:12-27 | the NAV loop equals the recursive sum, errors included |
| Vaults.Vault.Deposit | stellar-contracts/neko-vault/src/vault/deposit.rs:21-67 | the whole new state and the shares, or the old state and the error |
| Vaults.Vault.PullFromProtocols | stellar-contracts/neko-vault/src/vault/withdraw.rs:85-116 | the pull loop, with its early exit, equals the fold over all protocols |
| Vaults.Vault.Withdraw | stellar-contracts/neko-vault/src/vault/withdraw.rs:22-81 | the whole new state and the amount paid, or the old state and the error |
| Vaults.Vault.Rebalance | stellar-contracts/neko-vault/src/strategies/rebalancer.rs:20-97 | the rebalance loop equals the fold of its step over all protocols |
| Vaults.Vault.RebalanceProtocol | stellar-contracts/neko-vault/src/strategies/rebalancer.rs:33-90 | one turn of the loop |
| Vaults.Vault.EmergencyExit | stellar-contracts/neko-vault/src/admin/mod.rs:82-109 | the exit loop equals the fold of its step, then the status |
| Vaults.Vault.AddProtocol | stellar-contracts/neko-vault/src/admin/mod.rs:143-178 | the new register or the error |
| Vaults.Vault.RemoveProtocol | stellar-contracts/neko-vault/src/admin/mod.rs:180-200 | the rebuild loop leaves the other ids in order |
| Vaults.Vault.SetProtocolActive | stellar-contracts/neko-vault/src/admin/mod.rs:202-214 | only the activity of that protocol changes |
| Vaults.Vault.SetConfig | stellar-contracts/neko-vault/src/admin/mod.rs:118-132 | the validated configuration |
| Vaults.Vault.Transfer | stellar-contracts/neko-vault/src/vault/shares.rs:18-21 | shares moved between two balances, or nothing on error |
| Vaults.Vault.TransferFrom | stellar-contracts/neko-vault/src/vault/shares.rs:23-27 | allowance spent and shares moved, all or nothing |
| Vaults.Vault.Approve | stellar-contracts/neko-vault/src/contract.rs:203-217 | the allowance set, an expired one refused |
| Vaults.Vault.Burn | stellar-contracts/neko-vault/src/contract.rs:235-242 | balance and supply fall together |
| Vaults.Vault.BurnFrom | stellar-contracts/neko-vault/src/contract.rs:244-252 | the same within an allowance |
| Vaults.Vault.HarvestAll | stellar-contracts/neko-vault/src/strategies/harvester.rs:125-190 | harvested tokens reach the reserve, then the management fee is minted, as HarvestMints states it |
| Vaults.Vault.ApplyPerformanceFee | stellar-contracts/neko-vault/src/strategies/harvester.rs:194-245 | the fee shares and the new mark |
| Vaults.PullIdles | stellar-contracts/neko-vault/src/vault/withdraw.rs:95-99 | breaking off once nothing is needed skips nothing |
| VaultFunds.NavIsNetValue | stellar-contracts/neko-vault/src/vault/nav.rs:12-27 | NAV is the reserve plus every active position, counted once per protocol |
| VaultFunds.NavSucceeds | stellar-contracts/neko-vault/src/vault/nav.rs:12-27 | the loop cannot overflow on the way to a sum that fits |
| VaultFunds.PullTakes | stellar-contracts/neko-vault/src/vault/withdraw.rs:85-116 | the pull loop never fails and delivers all that is needed or all there is, each adapter counted once |
| VaultFunds.PullMovesValue | stellar-contracts/neko-vault/src/vault/withdraw.rs:85-116 | with distinct adapters what is pulled is exactly what the NAV sum loses |
| VaultFunds.FundTakes | stellar-contracts/neko-vault/src/vault/withdraw.rs:57-70 | reserve first, then protocols: the amount delivered and everything left unchanged |
| VaultFunds.ExitConserves | stellar-contracts/neko-vault/src/admin/mod.rs:82-109 | an emergency exit empties every active adapter into the reserve and, with distinct adapters, conserves NAV |
| RebalanceFacts.RebalanceConserves | stellar-contracts/neko-vault/src/strategies/rebalancer.rs:20-97 | rebalancing conserves NAV, keeps the reserve non-negative and moves nothing else |
| RebalanceFacts.RebalanceHitsTargets | stellar-contracts/neko-vault/src/strategies/rebalancer.rs:33-90 | where each protocol ends: unchanged inside the threshold, in [target, target + 1 bp + one rounding) from above, in (target − one rounding, target + 1 bp) from below when the reserve covers the need |
| RebalanceFacts.OverTargetLands | stellar-contracts/neko-vault/src/strategies/rebalancer.rs:55-67 | target·nav ≤ balance·10000 < (target+1)·nav + 10000 after an excess is taken |
| RebalanceFacts.UnderTargetLands | stellar-contracts/neko-vault/src/strategies/rebalancer.rs:69-88 | target·nav − 10000 < balance·10000 < (target+1)·nav after a covered shortfall is deployed |
| VaultSafety.WithdrawPays | stellar-contracts/neko-vault/src/vault/withdraw.rs:22-116 | a withdrawal pays the smaller of floor(shares·NAV/supply) and what reserve and adapters really hold, so it pays in full exactly when that covers it |
| VaultSafety.WithdrawIsExact | stellar-contracts/neko-vault/src/vault/withdraw.rs:36-81 | with distinct adapters it pays exactly floor(shares·NAV/supply) and NAV falls by that |
| VaultSafety.WithdrawSucceedsIff | stellar-contracts/neko-vault/src/vault/withdraw.rs:22-81 | the exact condition under which a withdrawal goes through: no pull and no transfer can stop it |
| VaultSafety.DepositShares | stellar-contracts/neko-vault/src/vault/nav.rs:43-53 | shares bought are the floor of the proportion, one to one when nothing is outstanding or nothing is held |
| VaultSafety.HolderWithinSupply | stellar-contracts/neko-vault/src/common/storage.rs:55-85 | nobody holds more than the supply |
| VaultSafety.TransferMoves | stellar-contracts/neko-vault/src/vault/shares.rs:18-21 | a transfer issues no shares, also between one holder and itself |
| VaultRuns.SupplyOverRuns | stellar-contracts/neko-vault/src/contract.rs:102-252 | over every run of all operations, with amounts of either sign, the supply counter keeps its distance from the sum of balances, zero from a new vault; the high water mark never falls |
| VaultRuns.RegisterOverRuns | stellar-contracts/neko-vault/src/admin/mod.rs:143-214 | over every run ids are duplicate-free, equal the keys of the allocations, and number at most ten |
| VaultRuns.SoundOverRuns | stellar-contracts/neko-vault/src/contract.rs:102-252 | over every run whose transfers leave their recipients non-negative, no balance, position or reserve is negative and the tokens in hand cover the reserve |
| VaultRuns.TransferKeepsSoundIff | stellar-contracts/neko-vault/src/vault/shares.rs:18-21 | that condition is exact for each transfer |
| VaultRuns.OnlySenderLosesIff | stellar-contracts/neko-vault/src/contract.rs:223-227 | in a direct transfer nobody but the sender loses shares exactly when the amount is not negative or sender and recipient are one |
| VaultRuns.NegativeTransferTakes | stellar-contracts/neko-vault/src/contract.rs:223-227 | a negative amount succeeds and moves shares from the recipient to the caller |
| VaultRuns.NegativeBurnMints | stellar-contracts/neko-vault/src/contract.rs:235-242 | a burn of a negative amount succeeds and mints |
| VaultAllowances.SpendLowersIff | stellar-contracts/neko-vault/src/common/storage.rs:116-131 | a spend moves one allowance by its amount, and leaves it no higher exactly when the amount is not negative |
| VaultAllowances.SpendSucceedsIff | stellar-contracts/neko-vault/src/common/storage.rs:116-131 | the exact condition for a spend to pass, which a negative amount meets without an allowance |
| VaultAllowances.UnapprovedTakesNothing | stellar-contracts/neko-vault/src/contract.rs:229-252 | a spender the holder never dealt with can take nothing |
| VaultAllowances.NegativeBurnFromGrants | stellar-contracts/neko-vault/src/contract.rs:244-252 | without an approval a negative burn succeeds and creates an allowance, whose spending brings the spender what was minted |
| VaultAllowances.NegativeTransferFromTakes | stellar-contracts/neko-vault/src/contract.rs:229-233 | without an approval a negative transfer takes from the recipient and creates an allowance |
| VaultAllowances.AllowanceIsConserved | stellar-contracts/neko-vault/src/contract.rs:203-252 | over every run between approvals of a pair the allowance falls by exactly what was taken, for amounts of either sign |
| VaultAllowances.TakenWithinApproved | stellar-contracts/neko-vault/src/contract.rs:203-252 | over every run without a negative spend, what a spender takes from a holder and may still take is at most what the holder approved |
| VaultRuns.ConfigOverRuns | stellar-contracts/neko-vault/src/admin/mod.rs:118-132 | a configuration within the setter's bounds stays within them over every run, and the setter always brings one there |
| VaultRuns.FreshVaultIsSound | stellar-contracts/neko-vault/src/admin/mod.rs:18-50 | a new vault is sound and registered |
| VaultRuns.WithdrawIsExactOverRuns | stellar-contracts/neko-vault/src/vault/withdraw.rs:36-81 | exact payment after any such run, with distinct adapters |
| VaultValue.DepositKeepsPerShare | stellar-contracts/neko-vault/src/vault/deposit.rs:38-62 | a deposit raises NAV by its amount and never lowers it per share, exactly when shares are outstanding or nothing was left behind |
| VaultValue.WithdrawKeepsPerShare | stellar-contracts/neko-vault/src/vault/withdraw.rs:43-70 | a withdrawal never lowers NAV per share |
| VaultValue.BurnKeepsPerShareIff | stellar-contracts/neko-vault/src/contract.rs:235-252 | a burn does not lower it exactly when its amount is not negative or NAV is zero |
| VaultValue.PerShareOverRuns | stellar-contracts/neko-vault/src/vault/nav.rs:31-65 | over every run of holder and manager operations between fees and outside gains, NAV per share never falls while shares are outstanding |
| VaultValue.RoundTripNeverProfitsIff | stellar-contracts/neko-vault/src/vault/deposit.rs:38-62 | deposit then withdraw never profits exactly when shares were outstanding or nothing was left behind |
| VaultValue.SecondPerformanceFeeIsFree | stellar-contracts/neko-vault/src/strategies/harvester.rs:194-245 | a second immediate performance fee changes nothing |
| VaultValue.PerformanceFeeIsPartOfTheRise | stellar-contracts/neko-vault/src/strategies/harvester.rs:204-238 | the shares minted cost, at the price before the fee, at most the configured part of the rise |
| VaultValue.PerformanceFeeSparesTheMark | stellar-contracts/neko-vault/src/strategies/harvester.rs:204-245 | after the fee every share is still worth the old mark, when the fee rate times the old mark is at most the price, floor(NAV·10^7/supply), before the call |
| VaultValue.PerformanceFeeIsMostOfTheRise | stellar-contracts/neko-vault/src/strategies/harvester.rs:204-238 | and the shares minted are at least that part, less the three roundings |
| VaultValue.PerformanceFeeBreaksTheMark | stellar-contracts/neko-vault/src/strategies/harvester.rs:204-245 | the other half: when the fee rate exceeds that bound by more than the roundings the shares are worth less than the old mark |
| VaultValue.OverfullFeeBreaksTheMark | stellar-contracts/neko-vault/src/admin/mod.rs:18-50 | initialization accepts a 300% fee, which leaves holders below the old mark |
| VaultValue.ManagementFeeIsProrated | stellar-contracts/neko-vault/src/strategies/harvester.rs:160-168 | the fee is nav·bps·elapsed over a year of basis points, rounded down once, and nothing when that product exceeds u128 |
| VaultValue.NegativeValueFee | stellar-contracts/neko-vault/src/strategies/harvester.rs:160-168 | a negative NAV wraps to almost 2^128, so the fee is nothing, except for one basis point over one second |
| VaultValue.ManagementFeeBound | stellar-contracts/neko-vault/src/strategies/harvester.rs:143-190 | accrual restarts the clock, moves no funds, and mints shares worth at most the prorated fee at the price before it; ManagementFeeMints says exactly which |
| VaultValue.ManagementFeeMints | stellar-contracts/neko-vault/src/strategies/harvester.rs:143-190 | exactly what accruing mints: the floor of the prorated fee at the price before it, all to the administrator, and nothing without time, rate, value or supply; and where the clock then stands |
| VaultValue.HarvestMints | stellar-contracts/neko-vault/src/strategies/harvester.rs:125-190 | the same of a harvest, whose fee counts what came in |
| VaultValue.PerformanceFeeIsCharged | stellar-contracts/neko-vault/src/strategies/harvester.rs:194-245 | a performance fee is charged exactly when there is a rate, a supply and a price above the mark, which then becomes the mark; its shares are all the administrator's |
| VaultValue.SharedAdapterUnderpays | stellar-contracts/neko-vault/src/admin/mod.rs:143-178 | two protocols on one adapter: the position counts twice in NAV and a withdrawal of everything pays half |
| VaultSuccess.DepositSucceedsIff | stellar-contracts/neko-vault/src/vault/deposit.rs:21-67 | the exact condition under which a deposit goes through |
| VaultSuccess.TransferSucceedsIff | stellar-contracts/neko-vault/src/vault/shares.rs:18-21 | a transfer that is not negative goes through exactly when the sender has the shares, whoever receives them |
| VaultSuccess.BurnSucceedsIff | stellar-contracts/neko-vault/src/contract.rs:235-242 | same for a burn |
| VaultSuccess.ApprovalIsSpendable | stellar-contracts/neko-vault/src/contract.rs:203-252 | an approval that is not past can be spent in parts up to its amount until it expires |
| VaultSuccess.RefusalsSayWhy | stellar-contracts/neko-vault/src/vault/withdraw.rs:22-46 | the error of each refused deposit, withdrawal, transfer and burn, in the order of the checks |
| VaultSuccess.RegisterIff | stellar-contracts/neko-vault/src/admin/mod.rs:143-214 | what the register turns away |
| VaultSuccess.ConfigIff | stellar-contracts/neko-vault/src/admin/mod.rs:118-132 | the exact bounds within which a configuration is taken |
| VaultSuccess.AddIsUndone | stellar-contracts/neko-vault/src/admin/mod.rs:143-200 | removing what was just added leaves the vault as it was |
| VaultSuccess.SwitchIsUndone | stellar-contracts/neko-vault/src/admin/mod.rs:202-214 | so does switching a protocol off and on |
| VaultSuccess.RemovalDropsPosition | stellar-contracts/neko-vault/src/admin/mod.rs:180-200 | removing a protocol takes exactly its position out of NAV and brings nothing to the reserve |
| VaultSuccess.ExitSucceedsIff | stellar-contracts/neko-vault/src/admin/mod.rs:82-109 | an emergency exit goes through exactly when what is really there fits the reserve, and leaves every protocol off and deposits refused |
| VaultSuccess.RebalanceSucceeds | stellar-contracts/neko-vault/src/strategies/rebalancer.rs:20-97 | with distinct adapters a rebalance cannot fail while NAV·2^32 fits |
| VaultSuccess.ManagementFeeFailsIff | stellar-contracts/neko-vault/src/strategies/harvester.rs:143-190 | accruing the fee fails exactly when there is a fee to charge and the share price rounds to zero |
| VaultSuccess.PerformanceFeeSucceeds | stellar-contracts/neko-vault/src/strategies/harvester.rs:194-245 | charging the performance fee never fails within wide bounds |
| VaultSuccess.ClosedOverRuns | stellar-contracts/neko-vault/src/admin/mod.rs:68-109 | over every run without an unpause a vault that is not active stays so and takes no deposit |
| VaultSuccess.ShownPriceIs | stellar-contracts/neko-vault/src/vault/nav.rs:31-40 | the share price shown: floor(NAV·10^7/supply), 1.0 before the first share |
| VaultSuccess.NothingDeployed | stellar-contracts/neko-vault/src/vault/nav.rs:12-27 | adapters that have never held anything add nothing to NAV |
| Backstops.Backstop.Deposit | stellar-contracts/neko-backstop/src/operations.rs:15-46 | the whole new ledger, or the old one and the error |
| Backstops.Backstop.QueueWithdrawal | stellar-contracts/neko-backstop/src/operations.rs:52-89 | same; the already queued sum is computed by a loop |
| Backstops.Backstop.DequeueWithdrawal | stellar-contracts/neko-backstop/src/operations.rs:92-113 | same; the newest entry goes |
| Backstops.Backstop.Withdraw | stellar-contracts/neko-backstop/src/operations.rs:124-172 | same; the head shrinks or goes |
| Backstops.Backstop.CoverBadDebt | stellar-contracts/neko-backstop/src/operations.rs:178-194 | same; only the pool may call |
| Backstops.Backstop.PushPoolState | stellar-contracts/neko-backstop/src/operations.rs:232-248 | the computed state reaches the pool, or the whole call fails |
| Backstops.Backstop.AlreadyQueued | stellar-contracts/neko-backstop/src/operations.rs:58-60 | the loop is the sum of the queue |
| BackstopSafety.LedgerOverRuns | stellar-contracts/neko-backstop/src/operations.rs:15-194 | over every clocked run total plus bad debt covered is the sum of amounts, queued_total is the sum of all entries, each queue sums to at most its owner's amount, has at most 20 positive entries and is sorted by expiry |
| BackstopSafety.QueuedIsAccountedFor | stellar-contracts/neko-backstop/src/operations.rs:73-148 | what was queued at least 17 days before any later time is exactly what was withdrawn, what was cancelled of it, and what the queue will release by then |
| BackstopSafety.LockHolds | stellar-contracts/neko-backstop/src/operations.rs:124-148 | withdrawals never exceed what was queued at least 17 days earlier and not cancelled |
| BackstopSafety.ExpiredIsNeverBlocked | stellar-contracts/neko-backstop/src/operations.rs:133-148 | after any run an expired entry is never blocked by an unexpired head |
| BackstopSafety.StateValue | stellar-contracts/neko-backstop/src/operations.rs:208-226 | the computed state in closed form over the two counters |
| BackstopSafety.FrozenIff | stellar-contracts/neko-backstop/src/operations.rs:208-226 | Frozen exactly when the total is positive and at least half is queued |
| BackstopSafety.StateKeptIff | stellar-contracts/neko-backstop/src/operations.rs:208-226 | the exact condition under which more deposited or less queued does not worsen the state |
| BackstopSafety.PoolHoldsComputedState | stellar-contracts/neko-backstop/src/operations.rs:232-248 | after every operation but a threshold change the pool holds the computed state |
| BackstopSafety.StateOverRuns | stellar-contracts/neko-backstop/src/operations.rs:208-248 | after any run a dequeue never worsens the state, queueing never improves it, and a deposit keeps it exactly under the condition of StateKeptIff |
| BackstopSafety.DepositNeverWorsens | stellar-contracts/neko-backstop/src/operations.rs:208-248 | without covered bad debt a deposit never worsens the state |
| BackstopSafety.TotalNonNegativeIff | stellar-contracts/neko-backstop/src/operations.rs:156-194 | the total is not negative exactly while bad debt covered is at most the sum of amounts, and a withdrawal keeps it so exactly when it is at most the total |
| BackstopSafety.CoveredRunEnds | stellar-contracts/neko-backstop/src/operations.rs:178-194 | a run from a new backstop after which nobody's amount has fallen with the total |
| BackstopSafety.TotalCanGoNegative | stellar-contracts/neko-backstop/src/operations.rs:156-160 | after that run a withdrawal drives the total negative |
| BackstopSafety.DepositCanFreeze | stellar-contracts/neko-backstop/src/operations.rs:208-226 | after that run the pool is Active and a deposit freezes it |
| BackstopSafety.ThresholdLeavesStaleStateIff | stellar-contracts/neko-backstop/src/contract.rs:43-46 | after a threshold change the pool's state stays right exactly when a quarter of a positive total is queued or the total is on the same side of both thresholds |
| BackstopSafety.ThresholdLeavesStaleState | stellar-contracts/neko-backstop/src/contract.rs:43-46 | a new backstop on which it does not |
| BackstopSuccess.DepositSucceedsIff | stellar-contracts/neko-backstop/src/operations.rs:15-46 | with room in the type, a deposit goes through exactly when it is positive and the pool knows the backstop |
| BackstopSuccess.StateComputedIff | stellar-contracts/neko-backstop/src/operations.rs:208-226 | a state can be computed exactly when there is no total to compare with or one product fits |
| BackstopSuccess.QueueSucceedsIff | stellar-contracts/neko-backstop/src/operations.rs:52-89 | same for queueing: at most what is not queued yet, in at most twenty entries |
| BackstopSuccess.DequeueSucceedsIff | stellar-contracts/neko-backstop/src/operations.rs:92-113 | same for taking the newest entry back |
| BackstopSuccess.WithdrawSucceedsIff | stellar-contracts/neko-backstop/src/operations.rs:124-172 | same for a withdrawal: at most the oldest entry, from the second it expires |
| BackstopSuccess.CoverSucceedsIff | stellar-contracts/neko-backstop/src/operations.rs:178-194 | same for covering bad debt: the pool alone, up to the total |
| BackstopSuccess.RefusalsSayWhy | stellar-contracts/neko-backstop/src/operations.rs:15-194 | the error of each refusal, in the order of the checks |
| BackstopSuccess.DequeueUndoesQueue | stellar-contracts/neko-backstop/src/operations.rs:52-113 | taking back what was just queued leaves every record and counter as it was |
| Soroswap.Isqrt | stellar-contracts/adapters/adapter-soroswap/src/soroswap_pool/mod.rs:18-29 | terminates with n² ≤ x < (n+1)² for every 0 ≤ x < i128::MAX, 0 below zero, and an overflow trap on i128::MAX alone |
| Soroswap.RootUnique | stellar-contracts/adapters/adapter-soroswap/src/soroswap_pool/mod.rs:18-29 | that determines the result |
| Soroswap.FairValue | stellar-contracts/adapters/adapter-soroswap/src/soroswap_pool/mod.rs:79-144 | the valuation with its overflow fallbacks, and the one product on which it traps |
| Soroswap.OverflowIsWorthNothing | stellar-contracts/adapters/adapter-soroswap/src/soroswap_pool/mod.rs:104-144 | when a share, its conversion or the scaled product overflows, the position is valued at nothing |
| Soroswap.ShareOfBAtMostA | stellar-contracts/adapters/adapter-soroswap/src/soroswap_pool/mod.rs:104-125 | converted at spot, the share of b is never worth more than the share of a |
| Soroswap.FairValueBounds | stellar-contracts/adapters/adapter-soroswap/src/soroswap_pool/mod.rs:104-144 | when no product overflows the value lies between twice the smaller share and the sum of both (integer AM-GM) |
| Soroswap.ShareOfBNearA | stellar-contracts/adapters/adapter-soroswap/src/soroswap_pool/mod.rs:104-125 | nor is the converted share of b worth less by more than one unit of token b at spot and one of token a |
| Soroswap.FairValueIsTwiceShareA | stellar-contracts/adapters/adapter-soroswap/src/soroswap_pool/mod.rs:104-144 | so the value is twice the share of a, up to twice ceil(reserve_a / reserve_b) |
| Soroswap.FairValueFollowsReserveA | stellar-contracts/adapters/adapter-soroswap/src/soroswap_pool/mod.rs:104-144 | 2·reserve_a·lp − slack < value·supply ≤ 2·reserve_a·lp: reserve b only sets the slack |
| Soroswap.SwapMovesFairValue | stellar-contracts/adapters/adapter-soroswap/src/soroswap_pool/mod.rs:73-76 | against the comment: the promised 0.5% is kept when reserve a moves by less than that and broken when it moves by more, up to the slack, whatever the product of the reserves does |
| Soroswap.SkewMovesFairValue | stellar-contracts/adapters/adapter-soroswap/src/soroswap_pool/mod.rs:73-76 | two states of a pair with the same product and a ratio skew of 10.25% between which the value moves by 5% |
| Oracles.RWAOracle.SetAssetPrice | stellar-contracts/neko-oracle/src/contract.rs:270-309 | checks in order, the pruning loop, and the new history |
| Oracles.RWAOracle.AddAssets | stellar-contracts/neko-oracle/src/contract.rs:324-349 | the registration loop, all or nothing |
| Oracles.RWAOracle.Prices | stellar-contracts/neko-oracle/src/contract.rs:385-400 | the backward loop lists the newest records first |
| OracleSafety.HistoryRefinesLog | stellar-contracts/neko-oracle/src/contract.rs:270-349 | after any run each stored history is exactly the last min(1000, n) accepted records, strictly increasing in time, whatever happened to other assets |
| OracleSafety.LastPriceIsNewest | stellar-contracts/neko-oracle/src/contract.rs:372-377 | the latest price is the newest accepted record |
| OracleSafety.PricesReadTheLog | stellar-contracts/neko-oracle/src/contract.rs:385-400 | prices(k) is the end of the log reversed and cut to k |
| OracleSafety.PriceFindsRecord | stellar-contracts/neko-oracle/src/contract.rs:379-383 | looking up a retained timestamp finds its record |
| OracleSafety.AcceptedIff | stellar-contracts/neko-oracle/src/contract.rs:270-309 | after any run a price is accepted exactly when the oracle is not paused, the price is positive, its time at most 300 seconds ahead, the asset registered, and every record ever accepted for it older |
| OracleSafety.AddAssetsIff | stellar-contracts/neko-oracle/src/contract.rs:324-349 | assets are added exactly when the oracle is not paused, none is known and none named twice |
| OracleSafety.AddedIff | stellar-contracts/neko-oracle/src/contract.rs:324-349 | they start without prices and no other asset is touched |
| Tables.GetSet | stellar-contracts/neko-oracle/src/contract.rs:300-309 | a write to the sorted host map changes what is read at that key and nothing else |
| FixedPoint.FloorDiv | stellar-contracts/neko-pool/src/common/types.rs:433-440 | rounding down: the largest quotient that does not exceed |
| FixedPoint.CeilDiv | stellar-contracts/neko-pool/src/common/types.rs:425-431 | rounding up: the smallest quotient that is not below |

## Left out

- Soroban host concerns: authorization, TTL extension, events, code upgrade, contract clients. The caller of an operation is taken to be authorized.
- Price fetching and staleness in the pool: each asset has any positive price and any scale during a call.
- `bad_debt.rs`: its fill raises the pool balance without a debt-token transfer and updates neither dToken balance nor supply, so it is outside the invariants here.
- Custody of debt tokens: the custody invariant is about tokens that are only ever collateral; several symbols on one token contract, and a debt asset that changed after its auction opened, are outside it.
- A depositor's or payer's own token balance: inbound transfers are taken to succeed; the token contracts' own overflow checks are not modelled, nor is the backstop's own token holding.
- Registration of token contracts, oracles, treasury and backstop: constant during a run.
- The administrator's plain setters of the pool are functions only, without a class method: they write one validated field.
- External AMM and lending calls inside the adapters, the harvest swap path and `price_impact_bps`: the vault sees exact adapters, and a harvested amount as an input.
- Shares of a harvest by protocol, the order of swaps and the dust guard: only their sum enters the reserve.
- `Optimizer`, token, faucet and factory contracts, two-step administrator transfers, `set_manager`, oracle metadata, decimals and resolution: only easy members.
- The EVM side: its Solidity sources are not part of this model.
- In-place update of Soroban storage entries is modelled by reassigning immutable maps held in class fields; aliasing does not arise.
- PoolRuns.SolvencyOverRuns: counts a negative backstop credit in the reserve's favour (`LendersCoveredOverRuns` does not), and asks of each step that a new take rate keeps the interest shares within 100% and that an interest fill does not take the credit below the `i128` range; both tests are exact (`TakeRateKeepsFeesIff`, `FillKeepsEquityIff`).
- LedgerRuns.CustodyOverRuns: is about the pool's entry points; a collateral token sent straight to the pool's address is not a step, and real holdings can exceed the recorded sum by what was sent.
- RateCurve.AccrualNeverOverflows: holds within bounds of 10^16 on supplies, 10^15 on rates, 10^30 on credits and 10^9 seconds; outside them a checked step may fail, which the operations then report.
- BorrowSafety.BorrowBound: in a call that also accrues, the bound counts what accrual adds to the prior debt, because the limit is computed at the stored rate.
- InterestAuctionFacts.LotConserved: asks that no other interest auction on the asset is filled, because creation does not reserve the credit, and that the entry is neither replaced nor dropped, because identifiers can meet and temporary entries expire.
- Soroswap.FairValueBounds: like the lemmas built on it, asks that no product overflows, because the fallbacks then replace factors by zero or by unscaled ones.
- VaultFunds.ExitConserves: conserves net asset value only for distinct adapters, because a shared one is counted twice before the exit; in general it states what the reserve ends with.
- RebalanceFacts.RebalanceHitsTargets: asks for distinct adapters, because two protocols on one adapter pull it toward two targets.
- VaultValue.PerShareOverRuns: leaves out fees, harvests, changes of positions and changes of the register, which are meant to change net asset value or the supply on their own.
- VaultRuns.SoundOverRuns: asks that transfers leave their recipients non-negative, because the token does not refuse others (`NegativeTransferTakes`), and that harvests and positions are not negative, because adapters report them.
