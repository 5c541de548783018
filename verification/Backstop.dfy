/** The backstop contract: entry points that update storage step by step. */
module Backstops {
  import opened Outcomes
  import opened FixedPoint
  import opened PoolTypes
  import opened BackstopRules
  import Rules = BackstopRules
  import PoolOperations

  /** An answer and a ledger agree with a specification; after an error the ledger is restored. */
  predicate Did(before: Ledger, outcome: Result<Ledger>, after: Ledger, r: Result<()>) {
    match outcome
    case Ok(l) => r == Ok(()) && after == l
    case Err(error) => r == Err(error) && after == before
  }

  class Backstop {
    var users: map<Address, UserBalance>
    var total: int
    var queuedTotal: int
    var threshold: int
    const pool: Address
    const registered: bool
    var poolState: PoolState

    /** The state as one value. */
    function View(): Ledger
      reads this
    {
      Ledger(users, total, queuedTotal, threshold, pool, registered, poolState)
    }

    constructor (pool: Address, threshold: int, registered: bool, poolState: PoolState)
      ensures View() == Ledger(map[], 0, 0, threshold, pool, registered, poolState)
    {
      users, total, queuedTotal := map[], 0, 0;
      this.threshold := threshold;
      this.pool := pool;
      this.registered := registered;
      this.poolState := poolState;
    }

    /** What the host does after a failed call. */
    method Restore(l: Ledger)
      requires l.pool == pool && l.registered == registered
      modifies this
      ensures View() == l
    {
      users, total, queuedTotal, threshold, poolState := l.users, l.total, l.queuedTotal, l.threshold, l.poolState;
    }

    method PushPoolState() returns (r: Result<()>)
      modifies this`poolState
      ensures Did(old(View()), Push(old(View())), View(), r)
    {
      var state :- ComputeState(total, queuedTotal, threshold);
      var ordinal := match state case Active => 0 case OnIce => 1 case Frozen => 2;
      if !registered {
        return Err(NotAuthorized);
      }
      poolState := PoolOperations.StateFromOrdinal(ordinal);
      return Ok(());
    }

    method Deposit(depositor: Address, amount: int) returns (r: Result<()>)
      modifies this
      ensures Did(old(View()), Rules.Deposit(old(View()), depositor, amount), View(), r)
    {
      if amount <= 0 {
        return Err(NotPositive);
      }
      var saved := View();
      var balance := if depositor in users then users[depositor] else UserBalance(0, []);
      var held :- CheckedAdd(balance.amount, amount);
      balance := balance.(amount := held);
      users := users[depositor := balance];
      var newTotal := CheckedAdd(total, amount);
      if newTotal.Err? {
        Restore(saved);
        return Err(newTotal.error);
      }
      total := newTotal.value;
      r := PushPoolState();
      if r.Err? {
        Restore(saved);
      }
    }

    /** The sum over the queue entries, front to back. */
    method AlreadyQueued(q: seq<Q4W>) returns (sum: int)
      ensures sum == QueueSum(q)
    {
      sum := 0;
      for i := 0 to |q|
        invariant sum == QueueSum(q[..i])
      {
        assert q[..i + 1][..i] == q[..i];
        sum := sum + q[i].amount;
      }
      assert q[..|q|] == q;
    }

    method QueueWithdrawal(now: nat, depositor: Address, amount: int) returns (r: Result<()>)
      modifies this
      ensures Did(old(View()), Rules.QueueWithdrawal(old(View()), now, depositor, amount), View(), r)
    {
      if amount <= 0 {
        return Err(NotPositive);
      }
      var saved := View();
      var balance := if depositor in users then users[depositor] else UserBalance(0, []);
      var sum := AlreadyQueued(balance.q4w);
      var queued :- Fit(sum, Trap);
      var available :- CheckedSub(balance.amount, queued);
      if amount > available {
        return Err(InsufficientBackstopDeposit);
      }
      if |balance.q4w| >= MAX_Q4W_SIZE {
        return Err(WithdrawalQueueFull);
      }
      var exp := now + Q4W_LOCK_SECONDS;
      if exp > U64_MAX {
        return Err(ArithmeticError);
      }
      balance := balance.(q4w := balance.q4w + [Q4W(amount, exp)]);
      users := users[depositor := balance];
      var newQueued := CheckedAdd(queuedTotal, amount);
      if newQueued.Err? {
        Restore(saved);
        return Err(newQueued.error);
      }
      queuedTotal := newQueued.value;
      r := PushPoolState();
      if r.Err? {
        Restore(saved);
      }
    }

    method DequeueWithdrawal(depositor: Address) returns (r: Result<()>)
      modifies this
      ensures Did(old(View()), Rules.DequeueWithdrawal(old(View()), depositor), View(), r)
    {
      var saved := View();
      var balance := if depositor in users then users[depositor] else UserBalance(0, []);
      if balance.q4w == [] {
        return Err(WithdrawalQueueNotExpired);
      }
      var removed := balance.q4w[|balance.q4w| - 1];
      balance := balance.(q4w := balance.q4w[..|balance.q4w| - 1]);
      users := users[depositor := balance];
      queuedTotal := SaturatingSub(queuedTotal, removed.amount);
      r := PushPoolState();
      if r.Err? {
        Restore(saved);
      }
    }

    method Withdraw(now: nat, depositor: Address, amount: int) returns (r: Result<()>)
      modifies this
      ensures Did(old(View()), Rules.Withdraw(old(View()), now, depositor, amount), View(), r)
    {
      if amount <= 0 {
        return Err(NotPositive);
      }
      var saved := View();
      var balance := if depositor in users then users[depositor] else UserBalance(0, []);
      if balance.q4w == [] {
        return Err(WithdrawalQueueNotExpired);
      }
      var head := balance.q4w[0];
      if now < head.exp {
        return Err(WithdrawalQueueNotExpired);
      }
      if amount > head.amount {
        return Err(InsufficientBackstopDeposit);
      }
      var remaining := head.amount - amount;
      if remaining == 0 {
        balance := balance.(q4w := balance.q4w[1..]);
      } else {
        balance := balance.(q4w := balance.q4w[0 := Q4W(remaining, head.exp)]);
      }
      var held :- CheckedSub(balance.amount, amount);
      balance := balance.(amount := held);
      users := users[depositor := balance];
      var newTotal := Minus(total, amount);
      if newTotal.Err? {
        Restore(saved);
        return Err(newTotal.error);
      }
      total := newTotal.value;
      queuedTotal := SaturatingSub(queuedTotal, amount);
      r := PushPoolState();
      if r.Err? {
        Restore(saved);
      }
    }

    method CoverBadDebt(caller: Address, amount: int) returns (r: Result<()>)
      modifies this
      ensures Did(old(View()), Rules.CoverBadDebt(old(View()), caller, amount), View(), r)
    {
      if caller != pool {
        return Err(NotAuthorized);
      }
      if total < amount {
        return Err(BadDebtNotCovered);
      }
      var saved := View();
      total :- Minus(total, amount);
      r := PushPoolState();
      if r.Err? {
        Restore(saved);
      }
    }
  }
}
