/** The backstop: first-loss deposits, a bounded FIFO withdrawal queue per depositor with a
    17-day lock, and the pool state it derives and pushes. */
module BackstopRules {
  import opened Outcomes
  import opened FixedPoint
  import opened PoolTypes
  import PoolOperations

  const Q4W_LOCK_SECONDS: int := 1_468_800
  const MAX_Q4W_SIZE: int := 20
  const U64_MAX: int := 0xFFFF_FFFF_FFFF_FFFF

  datatype Q4W = Q4W(amount: int, exp: int)
  datatype UserBalance = UserBalance(amount: int, q4w: seq<Q4W>)

  /** `registered` says whether the pool accepts this contract as its backstop; `poolState` is
      what the pool holds. */
  datatype Ledger = Ledger(
    users: map<Address, UserBalance>, total: int, queuedTotal: int, threshold: int,
    pool: Address, registered: bool, poolState: PoolState)

  function BalanceOf(l: Ledger, user: Address): UserBalance {
    if user in l.users then l.users[user] else UserBalance(0, [])
  }

  function QueueSum(q: seq<Q4W>): int {
    if q == [] then 0 else QueueSum(q[..|q| - 1]) + q[|q| - 1].amount
  }

  /** The state the pool should be in. */
  function ComputeState(total: int, queuedTotal: int, threshold: int): Result<PoolState> {
    var scaled :- if total > 0 then Fit(queuedTotal * BPS, Trap) else Ok(0);
    var queuedPct := if total > 0 then TruncDiv(scaled, total) else 0;
    Ok(if queuedPct >= 5_000 then Frozen
       else if queuedPct >= 2_500 || total < threshold then OnIce
       else Active)
  }

  function Ordinal(s: PoolState): nat {
    match s
    case Active => 0
    case OnIce => 1
    case Frozen => 2
  }

  /** Every operation ends by pushing the computed state; the pool rejects a stranger. */
  function Push(l: Ledger): Result<Ledger> {
    var state :- ComputeState(l.total, l.queuedTotal, l.threshold);
    var _ :- Need(l.registered, NotAuthorized);
    Ok(l.(poolState := PoolOperations.StateFromOrdinal(Ordinal(state))))
  }

  function Deposit(l: Ledger, user: Address, amount: int): Result<Ledger> {
    var _ :- Need(amount > 0, NotPositive);
    var b := BalanceOf(l, user);
    var held :- CheckedAdd(b.amount, amount);
    var total :- CheckedAdd(l.total, amount);
    Push(l.(users := l.users[user := b.(amount := held)], total := total))
  }

  function QueueWithdrawal(l: Ledger, now: nat, user: Address, amount: int): Result<Ledger> {
    var _ :- Need(amount > 0, NotPositive);
    var b := BalanceOf(l, user);
    var queued :- Fit(QueueSum(b.q4w), Trap);
    var available :- CheckedSub(b.amount, queued);
    var _ :- Need(amount <= available, InsufficientBackstopDeposit);
    var _ :- Need(|b.q4w| < MAX_Q4W_SIZE, WithdrawalQueueFull);
    var _ :- Need(now + Q4W_LOCK_SECONDS <= U64_MAX, ArithmeticError);
    var queuedTotal :- CheckedAdd(l.queuedTotal, amount);
    Push(l.(users := l.users[user := b.(q4w := b.q4w + [Q4W(amount, now + Q4W_LOCK_SECONDS)])],
      queuedTotal := queuedTotal))
  }

  /** Cancels the newest entry. */
  function DequeueWithdrawal(l: Ledger, user: Address): Result<Ledger> {
    var b := BalanceOf(l, user);
    var _ :- Need(b.q4w != [], WithdrawalQueueNotExpired);
    var removed := b.q4w[|b.q4w| - 1];
    Push(l.(users := l.users[user := b.(q4w := b.q4w[..|b.q4w| - 1])],
            queuedTotal := SaturatingSub(l.queuedTotal, removed.amount)))
  }

  /** The queue with `amount` drawn from its head. */
  function DrawHead(q: seq<Q4W>, amount: int): seq<Q4W>
    requires q != []
  {
    if q[0].amount - amount == 0 then q[1..] else q[0 := Q4W(q[0].amount - amount, q[0].exp)]
  }

  /** Draws from the oldest entry, once it has expired. */
  function Withdraw(l: Ledger, now: nat, user: Address, amount: int): Result<Ledger> {
    var _ :- Need(amount > 0, NotPositive);
    var b := BalanceOf(l, user);
    var _ :- Need(b.q4w != [], WithdrawalQueueNotExpired);
    var _ :- Need(now >= b.q4w[0].exp, WithdrawalQueueNotExpired);
    var _ :- Need(amount <= b.q4w[0].amount, InsufficientBackstopDeposit);
    var held :- CheckedSub(b.amount, amount);
    var total :- Minus(l.total, amount);
    Push(l.(users := l.users[user := UserBalance(held, DrawHead(b.q4w, amount))],
            total := total, queuedTotal := SaturatingSub(l.queuedTotal, amount)))
  }

  function CoverBadDebt(l: Ledger, caller: Address, amount: int): Result<Ledger> {
    var _ :- Need(caller == l.pool, NotAuthorized);
    var _ :- Need(l.total >= amount, BadDebtNotCovered);
    var total :- Minus(l.total, amount);
    Push(l.(total := total))
  }
}
