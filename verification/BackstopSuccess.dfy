/** When the backstop's operations go through: with the sums well inside the type, only the rules of
    the queue stand in the way. */
module BackstopSuccess {
  import opened Outcomes
  import opened FixedPoint
  import opened PoolTypes
  import opened Sums
  import opened BackstopRules
  import opened BackstopSafety

  /** The counters agree with the records, and the deposits leave a factor of 10^4 to spare. */
  ghost predicate Roomy(l: Ledger, covered: int, now: int, more: int) {
    && LedgerInv(l, covered, now) && 0 <= covered <= I128_MAX && 0 <= more
    && FitsI128(l.total) && l.total + covered + more <= I128_MAX / BPS
  }

  lemma UserWithinAmounts(l: Ledger, covered: int, now: int, user: Address)
    requires LedgerInv(l, covered, now)
    ensures 0 <= QueueSum(BalanceOf(l, user).q4w) <= BalanceOf(l, user).amount <= l.total + covered
    ensures 0 <= l.queuedTotal <= l.total + covered
  {
    UserWithinTotals(l, covered, now, user);
    if user in l.users {
      SumMember(l.users, Amounts(), user);
    }
  }

  /** The push at the end fails only for a backstop the pool does not know. */
  lemma PushSucceedsIff(l: Ledger)
    requires 0 <= l.queuedTotal <= I128_MAX / BPS
    ensures Push(l).Ok? <==> l.registered
  {
    FloorNonNegative(l.queuedTotal * BPS, if l.total > 0 then l.total else 1);
  }

  /** A state can be computed exactly when there is no total to compare with, or the share's product fits. */
  lemma StateComputedIff(total: int, queued: int, threshold: int)
    requires queued >= 0
    ensures ComputeState(total, queued, threshold).Ok? <==> total <= 0 || queued * 10_000 <= I128_MAX
  {
    if total > 0 {
      FloorNonNegative(queued * BPS, total);
    }
  }

  lemma DepositSucceedsIff(l: Ledger, covered: int, now: int, user: Address, amount: int)
    requires amount > 0 ==> Roomy(l, covered, now, amount)
    ensures Deposit(l, user, amount).Ok? <==> amount > 0 && l.registered
  {
    if amount > 0 {
      UserWithinAmounts(l, covered, now, user);
      var b := BalanceOf(l, user);
      PushSucceedsIff(l.(users := l.users[user := b.(amount := b.amount + amount)], total := l.total + amount));
    }
    hide Push, LedgerInv, BalanceOf;
  }

  /** A withdrawal can be queued for whatever is not queued yet, in at most twenty entries. */
  lemma QueueSucceedsIff(l: Ledger, covered: int, now: int, at: nat, user: Address, amount: int)
    requires Roomy(l, covered, now, 0)
    ensures var b := BalanceOf(l, user);
            QueueWithdrawal(l, at, user, amount).Ok? <==>
              && 0 < amount <= b.amount - QueueSum(b.q4w) && |b.q4w| < 20
              && at + 17 * 86_400 <= U64_MAX && l.registered
  {
    UserWithinAmounts(l, covered, now, user);
    var b := BalanceOf(l, user);
    if 0 < amount <= b.amount - QueueSum(b.q4w) {
      QueuedWithin(l, covered, now, user, amount);
      PushSucceedsIff(l.(users := l.users[user := b.(q4w := b.q4w + [Q4W(amount, at + Q4W_LOCK_SECONDS)])],
        queuedTotal := l.queuedTotal + amount));
    }
    hide Push, LedgerInv, BalanceOf, QueueSum;
  }

  /** What one user may still queue fits beside everything queued. */
  lemma QueuedWithin(l: Ledger, covered: int, now: int, user: Address, amount: int)
    requires LedgerInv(l, covered, now)
    requires 0 < amount <= BalanceOf(l, user).amount - QueueSum(BalanceOf(l, user).q4w)
    ensures l.queuedTotal + amount <= l.total + covered
  {
    assert user in l.users;
    SumSplit(l.users, Queues(), user);
    SumSplit(l.users, Amounts(), user);
    QueuesWithinAmounts(l.users - {user});
  }

  /** Any entry can be taken back, the newest first. */
  lemma DequeueSucceedsIff(l: Ledger, covered: int, now: int, user: Address)
    requires Roomy(l, covered, now, 0)
    ensures DequeueWithdrawal(l, user).Ok? <==> BalanceOf(l, user).q4w != [] && l.registered
  {
    var b := BalanceOf(l, user);
    UserWithinTotals(l, covered, now, user);
    UserWithinAmounts(l, covered, now, user);
    QueueSumNonNegative(b.q4w, now + Q4W_LOCK_SECONDS);
    if b.q4w != [] {
      PushSucceedsIff(l.(users := l.users[user := b.(q4w := b.q4w[..|b.q4w| - 1])],
        queuedTotal := SaturatingSub(l.queuedTotal, b.q4w[|b.q4w| - 1].amount)));
    }
    hide Push, LedgerInv, BalanceOf, QueueSum;
  }

  /** The oldest entry can be drawn, whole or in part, from the second its seventeen days are over. */
  lemma WithdrawSucceedsIff(l: Ledger, covered: int, now: int, at: nat, user: Address, amount: int)
    requires Roomy(l, covered, now, 0)
    ensures var b := BalanceOf(l, user);
            Withdraw(l, at, user, amount).Ok? <==>
              && b.q4w != [] && 0 < amount <= b.q4w[0].amount && b.q4w[0].exp <= at && l.registered
  {
    var b := BalanceOf(l, user);
    UserWithinTotals(l, covered, now, user);
    UserWithinAmounts(l, covered, now, user);
    QueueSumNonNegative(b.q4w, now + Q4W_LOCK_SECONDS);
    if b.q4w != [] && 0 < amount <= b.q4w[0].amount {
      PushSucceedsIff(l.(users := l.users[user := UserBalance(b.amount - amount, DrawHead(b.q4w, amount))],
        total := l.total - amount, queuedTotal := SaturatingSub(l.queuedTotal, amount)));
    }
    hide Push, LedgerInv, BalanceOf, QueueSum, DrawHead;
  }

  /** Bad debt is covered for the pool alone, up to what the backstop counts as its total. */
  lemma CoverSucceedsIff(l: Ledger, covered: int, now: int, caller: Address, amount: int)
    requires Roomy(l, covered, now, 0) && amount >= 0
    ensures CoverBadDebt(l, caller, amount).Ok? <==> caller == l.pool && amount <= l.total && l.registered
  {
    UserWithinAmounts(l, covered, now, caller);
    PushSucceedsIff(l.(total := l.total - amount));
    hide Push, LedgerInv, BalanceOf, QueueSum;
  }

  /** Taking back what was just queued leaves every record and counter as it was. */
  lemma DequeueUndoesQueue(l: Ledger, covered: int, now: int, at: nat, user: Address, amount: int)
    requires Roomy(l, covered, now, 0) && now <= at && QueueWithdrawal(l, at, user, amount).Ok?
    ensures var back := DequeueWithdrawal(QueueWithdrawal(l, at, user, amount).value, user);
            && back.Ok?
            && back.value == l.(users := l.users[user := BalanceOf(l, user)], poolState := back.value.poolState)
            && ComputeState(l.total, l.queuedTotal, l.threshold) == Ok(back.value.poolState)
  {
    hide Push, LedgerInv, QueueSum, ComputeState;
    UserWithinAmounts(l, covered, now, user);
    var b, e := BalanceOf(l, user), Q4W(amount, at + Q4W_LOCK_SECONDS);
    var queued := l.(users := l.users[user := b.(q4w := b.q4w + [e])], queuedTotal := l.queuedTotal + amount);
    PushKeeps(queued);
    PushNeedsPool(queued);
    QueuedWithin(l, covered, now, user, amount);
    assert (b.q4w + [e])[..|b.q4w|] == b.q4w;
    var back := l.(users := l.users[user := b], poolState := Push(queued).value.poolState);
    assert queued.users[user := b] == back.users;
    PushSucceedsIff(back);
    PushKeeps(back);
  }

  lemma PushNeedsPool(l: Ledger)
    requires Push(l).Ok?
    ensures l.registered
  {
  }

  /** What each kind of refusal answers, in the order of the checks. */
  lemma RefusalsSayWhy(l: Ledger, at: nat, user: Address, amount: int)
    ensures amount <= 0 ==>
              && Deposit(l, user, amount) == Err(NotPositive)
              && QueueWithdrawal(l, at, user, amount) == Err(NotPositive)
              && Withdraw(l, at, user, amount) == Err(NotPositive)
    ensures var b := BalanceOf(l, user);
            && (b.q4w == [] ==> DequeueWithdrawal(l, user) == Err(WithdrawalQueueNotExpired))
            && (amount > 0 && (b.q4w == [] || at < b.q4w[0].exp) ==>
                  Withdraw(l, at, user, amount) == Err(WithdrawalQueueNotExpired))
            && (b.q4w != [] && at >= b.q4w[0].exp && amount > b.q4w[0].amount && amount > 0 ==>
                  Withdraw(l, at, user, amount) == Err(InsufficientBackstopDeposit))
            && (amount > 0 && FitsI128(QueueSum(b.q4w)) && FitsI128(b.amount - QueueSum(b.q4w)) ==>
                  && (amount > b.amount - QueueSum(b.q4w) ==>
                        QueueWithdrawal(l, at, user, amount) == Err(InsufficientBackstopDeposit))
                  && (amount <= b.amount - QueueSum(b.q4w) && |b.q4w| >= 20 ==>
                        QueueWithdrawal(l, at, user, amount) == Err(WithdrawalQueueFull)))
    ensures user != l.pool ==> CoverBadDebt(l, user, amount) == Err(NotAuthorized)
    ensures user == l.pool && amount > l.total ==> CoverBadDebt(l, user, amount) == Err(BadDebtNotCovered)
  {
    hide Push, QueueSum, BalanceOf;
  }
}
