/** The pool's keyed storage as one value, its default reads, and token custody. */
module PoolStore {
  import opened Outcomes
  import opened FixedPoint
  import opened Tables
  import opened PoolTypes
  import Interest

  datatype UserAsset = UserAsset(user: Address, asset: Symbol)

  /** `custody` is what the pool contract itself holds of each token. */
  datatype Pool = Pool(
    state: PoolState,
    takeRate: U32, reserveFactor: U32, originationFeeRate: U32, liquidationFeeRate: U32,
    backstopContract: Option<Address>,
    tokenContract: map<Symbol, Address>,
    collateralFactor: map<Address, U32>,
    params: map<Symbol, InterestRateParams>,
    queued: map<Symbol, QueuedReserveConfig>,
    reserves: map<Symbol, Reserve>,
    poolBalance: map<Symbol, int>,
    bTokens: map<UserAsset, int>,
    dTokens: map<UserAsset, int>,
    cdps: map<Address, CDP>,
    auctions: map<int, Auction>,
    custody: map<Address, int>)

  /** A SEP-40 price: `price / 10^decimals` per unit. */
  datatype Quote = Quote(price: int, decimals: nat)

  /** The ledger clock and what the two price oracles would answer during the call. */
  datatype Env = Env(
    now: nat, sequence: U32,
    collateralQuotes: map<Address, Quote>, assetQuotes: map<Symbol, Quote>)

  function ReserveOf(p: Pool, asset: Symbol, now: nat): Reserve {
    ReadReserve(p.reserves, asset, now)
  }

  function BalanceOf(p: Pool, asset: Symbol): int {
    if asset in p.poolBalance then p.poolBalance[asset] else 0
  }

  function Holding(m: map<UserAsset, int>, user: Address, asset: Symbol): int {
    var key := UserAsset(user, asset);
    if key in m then m[key] else 0
  }

  function CustodyOf(p: Pool, token: Address): int {
    if token in p.custody then p.custody[token] else 0
  }

  function ParamsOf(p: Pool, asset: Symbol): Option<InterestRateParams> {
    if asset in p.params then Some(p.params[asset]) else None
  }

  function LFactor(p: Pool, asset: Symbol): U32 {
    if asset in p.params then p.params[asset].lFactor else SCALAR_7
  }

  function CollateralFactor(p: Pool, token: Address): U32 {
    if token in p.collateralFactor then p.collateralFactor[token] else DEFAULT_COLLATERAL_FACTOR
  }

  function CDPOrNew(p: Pool, borrower: Address, now: nat): CDP {
    if borrower in p.cdps then p.cdps[borrower] else NewCDP(now)
  }

  function CollateralOf(p: Pool, borrower: Address, token: Address): int {
    if borrower in p.cdps then GetOr(p.cdps[borrower].collateral, token, 0) else 0
  }

  function TokenOf(p: Pool, asset: Symbol): Result<Address> {
    if asset in p.tokenContract then Ok(p.tokenContract[asset]) else Err(TokenContractNotSet)
  }

  /** Token transfers: a negative amount or a missing balance traps. */
  function Receive(p: Pool, token: Address, amount: int): Result<Pool> {
    if amount < 0 then Err(Trap)
    else Ok(p.(custody := p.custody[token := CustodyOf(p, token) + amount]))
  }

  function Send(p: Pool, token: Address, amount: int): Result<Pool> {
    if amount < 0 || CustodyOf(p, token) < amount then Err(Trap)
    else Ok(p.(custody := p.custody[token := CustodyOf(p, token) - amount]))
  }

  /** The reserve of `asset` brought forward to the call's time. */
  function AccruedReserve(p: Pool, e: Env, asset: Symbol): Result<Reserve> {
    Interest.Accrue(ReserveOf(p, asset, e.now), ParamsOf(p, asset), p.takeRate, p.reserveFactor, e.now)
  }

  /** An identifier from the ledger and its clock, at 32 bits: within one ledger it is the same for every auction
      of a kind. */
  function AuctionId(e: Env, offset: int): int {
    (e.sequence + e.now % TWO_TO_THE_32 + offset) % TWO_TO_THE_32
  }

  const LIQUIDATION_ID_OFFSET: int := 2_000
  const INTEREST_ID_OFFSET: int := 1_000
}
