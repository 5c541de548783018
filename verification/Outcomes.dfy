/** Results of contract calls.  A Soroban call is atomic: an error return and a
    host trap (a panic, a failed unwrap, an arithmetic overflow under
    `overflow-checks`) both leave the ledger as it was. */
module Outcomes {

  datatype Option<+T> = None | Some(value: T)

  /** The errors of the four contracts; `Trap` is a host panic without a code. */
  datatype Error =
    | Trap
    | NotAuthorized
    | NotPositive
    | ArithmeticError
    // lending pool
    | PoolFrozen | PoolOnIce | InsufficientPoolBalance | ReserveDisabled | SupplyCapExceeded
    | InsufficientBTokenBalance | InsufficientCollateral | InsufficientBorrowLimit
    | DebtAssetAlreadySet | DebtAssetNotSet | InsufficientDTokenBalance
    | CollateralNotFound | InvalidCollateralFactor
    | InvalidInterestRateParams | InvalidUtilRate
    | CDPNotInsolvent | AuctionNotFound | AuctionNotActive
    | HealthFactorTooHigh | HealthFactorTooLow | InvalidFillPercent
    | OraclePriceFetchFailed | InvalidOraclePrice
    | TokenContractNotSet | NoTreasuryFeesToCollect
    | ConfigNotUnlocked | ConfigQueueNotFound | ConfigAlreadyQueued
    // backstop
    | InsufficientBackstopDeposit | WithdrawalQueueFull | WithdrawalQueueNotExpired | BadDebtNotCovered
    // vault
    | VaultNotActive | ZeroAmount | InsufficientShares | InsufficientLiquidity
    | ProtocolNotFound | ProtocolAlreadyExists | MaxProtocolsReached | InvalidConfig
    | InsufficientAllowance | InsufficientBalance
    // oracle
    | AssetNotFound | AssetAlreadyExists | InvalidPrice | TimestampInFuture | TimestampTooOld | Paused

  /** A failure-compatible result, usable with `:-`. */
  datatype Result<+T> = Ok(value: T) | Err(error: Error) {
    predicate IsFailure() {
      Err?
    }

    function PropagateFailure<U>(): Result<U>
      requires Err?
    {
      Err(error)
    }

    function Extract(): T
      requires Ok?
    {
      value
    }
  }

  /** A guard: nothing to extract, only an error to propagate. */
  function Need(condition: bool, error: Error): Result<()> {
    if condition then Ok(()) else Err(error)
  }

  /** What a caller sees of a call from state `s`: the new state and the
      answer, or the old state and the error. */
  function Settle<S, T>(s: S, outcome: Result<(S, T)>): (S, Result<T>) {
    match outcome
    case Ok(done) => (done.0, Ok(done.1))
    case Err(e) => (s, Err(e))
  }
}
