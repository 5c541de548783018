/** The records of the lending pool and the keyed storage they live in. */
module PoolTypes {
  import opened Outcomes
  import opened FixedPoint
  import opened Tables

  type Address = nat
  type Symbol = nat

  const MIN_HEALTH_FACTOR: int := 11_000_000
  const MAX_HEALTH_FACTOR: int := 11_500_000
  const AUCTION_DURATION_BLOCKS: int := 200
  const CONFIG_DELAY_SECONDS: int := 604_800
  const MIN_INTEREST_AUCTION: int := 1_000_000_000
  const DEFAULT_COLLATERAL_FACTOR: U32 := 7_500_000

  datatype PoolState = Active | OnIce | Frozen

  datatype InterestRateParams = InterestRateParams(
    targetUtil: U32, maxUtil: U32,
    rBase: U32, rOne: U32, rTwo: U32, rThree: U32,
    reactivity: U32, lFactor: U32,
    supplyCap: int, enabled: bool)

  datatype QueuedReserveConfig = QueuedReserveConfig(newParams: InterestRateParams, unlockTime: int)

  datatype Reserve = Reserve(
    bRate: int, dRate: int, irMod: int,
    bSupply: int, dSupply: int,
    backstopCredit: int, treasuryCredit: int,
    lastTime: nat)

  function NewReserve(now: nat): Reserve {
    Reserve(SCALAR_12, SCALAR_12, SCALAR_7, 0, 0, 0, 0, now)
  }

  /** `Storage::get_reserve_data`: a missing entry reads as a fresh reserve. */
  function ReadReserve(reserves: map<Symbol, Reserve>, asset: Symbol, now: nat): Reserve {
    if asset in reserves then reserves[asset] else NewReserve(now)
  }

  datatype CDP = CDP(
    collateral: seq<Entry<int>>, debtAsset: Option<Symbol>, dTokens: int,
    createdAt: nat, lastUpdate: nat)

  function NewCDP(now: nat): CDP {
    CDP([], None, 0, now, now)
  }

  datatype AuctionType = UserLiquidation | BadDebt | Interest

  datatype Auction = Auction(
    auctionType: AuctionType, user: Address,
    bid: seq<Entry<int>>, lot: seq<Entry<int>>, block: nat)
}
