/** The backstop over every run: its two counters, its queues, its lock and the pushed state. */
module BackstopSafety {
  import opened Outcomes
  import opened FixedPoint
  import opened Sums
  import opened PoolTypes
  import opened BackstopRules

  // ---- Runs ----

  datatype Op =
    | DepositOp(user: Address, amount: int)
    | QueueOp(user: Address, amount: int)
    | DequeueOp(user: Address)
    | WithdrawOp(user: Address, amount: int)
    | CoverOp(caller: Address, amount: int)
    | ThresholdOp(threshold: int)

  datatype Event = Event(now: nat, op: Op)

  function Outcome(l: Ledger, event: Event): Result<Ledger> {
    match event.op
    case DepositOp(u, x) => Deposit(l, u, x)
    case QueueOp(u, x) => QueueWithdrawal(l, event.now, u, x)
    case DequeueOp(u) => DequeueWithdrawal(l, u)
    case WithdrawOp(u, x) => Withdraw(l, event.now, u, x)
    case CoverOp(c, x) => CoverBadDebt(l, c, x)
    case ThresholdOp(t) => Ok(l.(threshold := t))
  }

  function Next(l: Ledger, event: Event): Ledger {
    var o := Outcome(l, event);
    if o.Ok? then o.value else l
  }

  function Run(l: Ledger, events: seq<Event>): Ledger {
    if events == [] then l else Next(Run(l, events[..|events| - 1]), events[|events| - 1])
  }

  /** Ledger time never goes back. */
  predicate Clocked(events: seq<Event>) {
    forall i, j :: 0 <= i < j < |events| ==> events[i].now <= events[j].now
  }

  /** The time of the last event. */
  function Clock(events: seq<Event>): nat {
    if events == [] then 0 else events[|events| - 1].now
  }

  /** Sums of what the successful events of a run moved. */
  function Covered(l: Ledger, events: seq<Event>): int {
    if events == [] then 0
    else
      var init, last := events[..|events| - 1], events[|events| - 1];
      Covered(l, init)
        + if last.op.CoverOp? && Outcome(Run(l, init), last).Ok? then last.op.amount else 0
  }

  function Withdrawn(l: Ledger, events: seq<Event>, user: Address): int {
    if events == [] then 0
    else
      var init, last := events[..|events| - 1], events[|events| - 1];
      Withdrawn(l, init, user)
        + if last.op.WithdrawOp? && last.op.user == user && Outcome(Run(l, init), last).Ok? then last.op.amount else 0
  }

  /** What `user` queued at least the lock time before `time`. */
  function MaturedBy(l: Ledger, events: seq<Event>, user: Address, time: int): int {
    if events == [] then 0
    else
      var init, last := events[..|events| - 1], events[|events| - 1];
      MaturedBy(l, init, user, time)
        + if last.op.QueueOp? && last.op.user == user && Outcome(Run(l, init), last).Ok?
             && last.now + Q4W_LOCK_SECONDS <= time
          then last.op.amount else 0
  }

  /** What `user` cancelled of the entries that would have expired by `time`. */
  function Cancelled(l: Ledger, events: seq<Event>, user: Address, time: int): int {
    if events == [] then 0
    else
      var init, last := events[..|events| - 1], events[|events| - 1];
      var q := BalanceOf(Run(l, init), user).q4w;
      Cancelled(l, init, user, time)
        + if last.op.DequeueOp? && last.op.user == user && Outcome(Run(l, init), last).Ok?
             && q != [] && q[|q| - 1].exp <= time
          then q[|q| - 1].amount else 0
  }

  // ---- Queue facts ----

  /** Positive entries, oldest first, none expiring later than `latest`. */
  predicate QueueOk(q: seq<Q4W>, latest: int) {
    && |q| <= MAX_Q4W_SIZE
    && (forall i :: 0 <= i < |q| ==> q[i].amount > 0 && q[i].exp <= latest)
    && (forall i, j :: 0 <= i < j < |q| ==> q[i].exp <= q[j].exp)
  }

  /** The amounts of the entries that expire by `time`. */
  function SumUpTo(q: seq<Q4W>, time: int): int {
    if q == [] then 0
    else SumUpTo(q[..|q| - 1], time) + if q[|q| - 1].exp <= time then q[|q| - 1].amount else 0
  }

  lemma {:induction false} QueueSumNonNegative(q: seq<Q4W>, latest: int)
    requires QueueOk(q, latest)
    ensures QueueSum(q) >= 0
    ensures q != [] ==> q[|q| - 1].amount <= QueueSum(q) && q[0].amount <= QueueSum(q)
  {
    if q != [] {
      QueueSumNonNegative(q[..|q| - 1], latest);
    }
  }

  lemma AppendSums(q: seq<Q4W>, e: Q4W, time: int)
    ensures QueueSum(q + [e]) == QueueSum(q) + e.amount
    ensures SumUpTo(q + [e], time) == SumUpTo(q, time) + if e.exp <= time then e.amount else 0
  {
    assert (q + [e])[..|q|] == q;
  }

  /** Drawing from the head lowers both sums by the amount drawn, once the head has expired. */
  lemma {:induction false} DrawHeadSums(q: seq<Q4W>, amount: int, time: int)
    requires q != [] && q[0].exp <= time
    ensures QueueSum(DrawHead(q, amount)) == QueueSum(q) - amount
    ensures SumUpTo(DrawHead(q, amount), time) == SumUpTo(q, time) - amount
  {
    var d := DrawHead(q, amount);
    if |q| == 1 {
      assert q[..0] == [] && d == if q[0].amount == amount then [] else [Q4W(q[0].amount - amount, q[0].exp)];
      assert d != [] ==> d[..0] == [];
    } else {
      var init, last := q[..|q| - 1], q[|q| - 1];
      DrawHeadSums(init, amount, time);
      assert d == DrawHead(init, amount) + [last];
      AppendSums(DrawHead(init, amount), last, time);
    }
  }

  lemma DrawHeadOk(q: seq<Q4W>, amount: int, latest: int)
    requires QueueOk(q, latest) && q != [] && 0 < amount <= q[0].amount
    ensures QueueOk(DrawHead(q, amount), latest)
  {
  }

  // ---- The ledger invariant ----

  ghost function Amounts(): (Address, UserBalance) -> int {
    (user: Address, b: UserBalance) => b.amount
  }

  ghost function Queues(): (Address, UserBalance) -> int {
    (user: Address, b: UserBalance) => QueueSum(b.q4w)
  }

  predicate UserOk(b: UserBalance, latest: int) {
    0 <= QueueSum(b.q4w) <= b.amount && QueueOk(b.q4w, latest)
  }

  /** Both counters agree with the depositors' records, given the bad debt covered so far. */
  ghost predicate LedgerInv(l: Ledger, covered: int, now: int) {
    && l.total + covered == SumBy(l.users, Amounts())
    && l.queuedTotal == SumBy(l.users, Queues()) <= I128_MAX
    && (forall u :: u in l.users ==> UserOk(l.users[u], now + Q4W_LOCK_SECONDS))
  }

  /** One user's record is rewritten: what the invariant needs of the change. */
  lemma UserUpdate(l: Ledger, l': Ledger, covered: int, now: int, now': int, user: Address, b': UserBalance)
    requires LedgerInv(l, covered, now) && now <= now'
    requires l'.users == l.users[user := b']
    requires l'.total == l.total + b'.amount - BalanceOf(l, user).amount
    requires l'.queuedTotal == l.queuedTotal + QueueSum(b'.q4w) - QueueSum(BalanceOf(l, user).q4w) <= I128_MAX
    requires UserOk(b', now' + Q4W_LOCK_SECONDS)
    ensures LedgerInv(l', covered, now')
  {
    SumUpdate(l.users, Amounts(), user, b');
    SumUpdate(l.users, Queues(), user, b');
  }

  /** A user's queue is part of the queued total. */
  lemma UserWithinTotals(l: Ledger, covered: int, now: int, user: Address)
    requires LedgerInv(l, covered, now)
    ensures UserOk(BalanceOf(l, user), now + Q4W_LOCK_SECONDS)
    ensures QueueSum(BalanceOf(l, user).q4w) <= l.queuedTotal
    ensures 0 <= l.queuedTotal <= l.total + covered
  {
    QueuesWithinAmounts(l.users);
    if user in l.users {
      SumMember(l.users, Queues(), user);
    }
  }

  lemma {:induction false} QueuesWithinAmounts(users: map<Address, UserBalance>)
    requires forall u :: u in users ==> 0 <= QueueSum(users[u].q4w) <= users[u].amount
    ensures 0 <= SumBy(users, Queues()) <= SumBy(users, Amounts())
    decreases |users|
  {
    if users != map[] {
      var u :| u in users;
      SumSplit(users, Queues(), u);
      SumSplit(users, Amounts(), u);
      QueuesWithinAmounts(users - {u});
    }
  }

  lemma PushKeeps(l: Ledger)
    requires Push(l).Ok?
    ensures Push(l).value == l.(poolState := Push(l).value.poolState)
    ensures ComputeState(l.total, l.queuedTotal, l.threshold) == Ok(Push(l).value.poolState)
  {
  }

  lemma DepositKeeps(l: Ledger, covered: int, now: int, now': nat, user: Address, amount: int)
    requires LedgerInv(l, covered, now) && now <= now' && Deposit(l, user, amount).Ok?
    ensures LedgerInv(Deposit(l, user, amount).value, covered, now')
  {
    var b := BalanceOf(l, user);
    UserWithinTotals(l, covered, now, user);
    hide Push;
    var l1 := l.(users := l.users[user := b.(amount := b.amount + amount)], total := l.total + amount);
    PushKeeps(l1);
    UserUpdate(l, Deposit(l, user, amount).value, covered, now, now', user, b.(amount := b.amount + amount));
  }

  lemma QueueKeeps(l: Ledger, covered: int, now: int, now': nat, user: Address, amount: int)
    requires LedgerInv(l, covered, now) && now <= now' && QueueWithdrawal(l, now', user, amount).Ok?
    ensures LedgerInv(QueueWithdrawal(l, now', user, amount).value, covered, now')
  {
    var b := BalanceOf(l, user);
    var e := Q4W(amount, now' + Q4W_LOCK_SECONDS);
    UserWithinTotals(l, covered, now, user);
    hide Push;
    AppendSums(b.q4w, e, 0);
    var b' := b.(q4w := b.q4w + [e]);
    PushKeeps(l.(users := l.users[user := b'], queuedTotal := l.queuedTotal + amount));
    UserUpdate(l, QueueWithdrawal(l, now', user, amount).value, covered, now, now', user, b');
  }

  lemma DequeueKeeps(l: Ledger, covered: int, now: int, now': nat, user: Address)
    requires LedgerInv(l, covered, now) && now <= now' && DequeueWithdrawal(l, user).Ok?
    ensures LedgerInv(DequeueWithdrawal(l, user).value, covered, now')
  {
    var b := BalanceOf(l, user);
    var init, last := b.q4w[..|b.q4w| - 1], b.q4w[|b.q4w| - 1];
    UserWithinTotals(l, covered, now, user);
    hide Push;
    QueueSumNonNegative(b.q4w, now + Q4W_LOCK_SECONDS);
    QueueSumNonNegative(init, now + Q4W_LOCK_SECONDS);
    PushKeeps(l.(users := l.users[user := b.(q4w := init)], queuedTotal := SaturatingSub(l.queuedTotal, last.amount)));
    UserUpdate(l, DequeueWithdrawal(l, user).value, covered, now, now', user, b.(q4w := init));
  }

  lemma WithdrawKeeps(l: Ledger, covered: int, now: int, now': nat, user: Address, amount: int)
    requires LedgerInv(l, covered, now) && now <= now' && Withdraw(l, now', user, amount).Ok?
    ensures LedgerInv(Withdraw(l, now', user, amount).value, covered, now')
  {
    var b := BalanceOf(l, user);
    UserWithinTotals(l, covered, now, user);
    hide Push;
    QueueSumNonNegative(b.q4w, now + Q4W_LOCK_SECONDS);
    DrawHeadSums(b.q4w, amount, now');
    DrawHeadOk(b.q4w, amount, now + Q4W_LOCK_SECONDS);
    var b' := UserBalance(b.amount - amount, DrawHead(b.q4w, amount));
    QueueSumNonNegative(b'.q4w, now + Q4W_LOCK_SECONDS);
    PushKeeps(l.(users := l.users[user := b'], total := l.total - amount,
      queuedTotal := SaturatingSub(l.queuedTotal, amount)));
    UserUpdate(l, Withdraw(l, now', user, amount).value, covered, now, now', user, b');
  }

  lemma CoverKeeps(l: Ledger, covered: int, now: int, now': nat, caller: Address, amount: int)
    requires LedgerInv(l, covered, now) && now <= now' && CoverBadDebt(l, caller, amount).Ok?
    ensures LedgerInv(CoverBadDebt(l, caller, amount).value, covered + amount, now')
  {
    hide Push;
    PushKeeps(l.(total := l.total - amount));
  }

  /** An initialized backstop. */
  predicate Initial(l: Ledger) {
    l.users == map[] && l.total == 0 && l.queuedTotal == 0
  }

  /** Over every run: the backstop total plus the bad debt covered is the sum of the depositors'
      amounts, the queued total is the sum of all queues, and each queue holds at most 20
      positive entries, ordered by expiry, that sum to at most the depositor's amount. */
  lemma {:induction false} LedgerOverRuns(l: Ledger, events: seq<Event>)
    requires Initial(l) && Clocked(events)
    ensures LedgerInv(Run(l, events), Covered(l, events), Clock(events))
  {
    if events != [] {
      var init, last := events[..|events| - 1], events[|events| - 1];
      LedgerOverRuns(l, init);
      var s, c, t := Run(l, init), Covered(l, init), Clock(init);
      assert t <= last.now;
      hide Deposit, QueueWithdrawal, DequeueWithdrawal, Withdraw, CoverBadDebt;
      if Outcome(s, last).Ok? {
        match last.op {
          case DepositOp(u, x) => DepositKeeps(s, c, t, last.now, u, x);
          case QueueOp(u, x) => QueueKeeps(s, c, t, last.now, u, x);
          case DequeueOp(u) => DequeueKeeps(s, c, t, last.now, u);
          case WithdrawOp(u, x) => WithdrawKeeps(s, c, t, last.now, u, x);
          case CoverOp(caller, x) => CoverKeeps(s, c, t, last.now, caller, x);
          case ThresholdOp(_) =>
        }
      }
    }
  }

  // ---- The lock ----

  lemma StepQueue(l: Ledger, event: Event, user: Address, time: int)
    requires Outcome(l, event).Ok? && event.now <= time
    ensures var q, q' := BalanceOf(l, user).q4w, BalanceOf(Outcome(l, event).value, user).q4w;
            && (event.op.QueueOp? && event.op.user == user ==>
                  q' == q + [Q4W(event.op.amount, event.now + Q4W_LOCK_SECONDS)])
            && (event.op.DequeueOp? && event.op.user == user ==> q != [] && q' == q[..|q| - 1])
            && (event.op.WithdrawOp? && event.op.user == user ==>
                  && q != [] && q[0].exp <= event.now && 0 < event.op.amount <= q[0].amount
                  && q' == DrawHead(q, event.op.amount))
            && ((event.op.DepositOp? || event.op.CoverOp? || event.op.ThresholdOp? || event.op.user != user) ==>
                  q' == q)
  {
    hide ComputeState;
  }

  /** For any time from the last event on, what a depositor queued at least 17 days before that time
      is exactly what it has withdrawn, what it has cancelled of it, and what its queue will have
      released by then: no token leaves that was not queued, kept queued, and 17 days old. */
  lemma {:induction false} QueuedIsAccountedFor(l: Ledger, events: seq<Event>, user: Address, time: int)
    requires Initial(l) && Clocked(events) && Clock(events) <= time
    ensures Withdrawn(l, events, user) + Cancelled(l, events, user, time)
      + SumUpTo(BalanceOf(Run(l, events), user).q4w, time)
         == MaturedBy(l, events, user, time)
  {
    if events != [] {
      var init, last := events[..|events| - 1], events[|events| - 1];
      var s := Run(l, init);
      assert Clock(init) <= last.now;
      QueuedIsAccountedFor(l, init, user, time);
      hide Outcome, DrawHead, Run, Clocked, Initial;
      if Outcome(s, last).Ok? {
        StepSums(s, last, user, time);
        hide SumUpTo;
      }
    }
  }

  /** What one successful event does to the part of a queue that expires by `time`. */
  lemma StepSums(l: Ledger, event: Event, user: Address, time: int)
    requires Outcome(l, event).Ok? && event.now <= time
    ensures var q, q' := BalanceOf(l, user).q4w, BalanceOf(Outcome(l, event).value, user).q4w;
            SumUpTo(q', time) == SumUpTo(q, time)
              + (if event.op.QueueOp? && event.op.user == user && event.now + Q4W_LOCK_SECONDS <= time
                then event.op.amount else 0)
              - (if event.op.WithdrawOp? && event.op.user == user then event.op.amount else 0)
              - (if event.op.DequeueOp? && event.op.user == user && q != [] && q[|q| - 1].exp <= time
                then q[|q| - 1].amount else 0)
  {
    StepQueue(l, event, user, time);
    hide Outcome;
    var q := BalanceOf(l, user).q4w;
    if event.op.QueueOp? && event.op.user == user {
      AppendSums(q, Q4W(event.op.amount, event.now + Q4W_LOCK_SECONDS), time);
    } else if event.op.WithdrawOp? && event.op.user == user {
      DrawHeadSums(q, event.op.amount, time);
    }
  }

  /** Every withdrawn token was queued at least 17 days earlier, in an entry that was not cancelled. */
  lemma LockHolds(l: Ledger, events: seq<Event>, user: Address)
    requires Initial(l) && Clocked(events)
    ensures Withdrawn(l, events, user)
         <= MaturedBy(l, events, user, Clock(events)) - Cancelled(l, events, user, Clock(events))
  {
    QueuedIsAccountedFor(l, events, user, Clock(events));
    LedgerOverRuns(l, events);
    UserWithinTotals(Run(l, events), Covered(l, events), Clock(events), user);
    SumUpToNonNegative(BalanceOf(Run(l, events), user).q4w, Clock(events), Clock(events) + Q4W_LOCK_SECONDS);
  }

  lemma {:induction false} SumUpToNonNegative(q: seq<Q4W>, time: int, latest: int)
    requires QueueOk(q, latest)
    ensures SumUpTo(q, time) >= 0
  {
    if q != [] {
      SumUpToNonNegative(q[..|q| - 1], time, latest);
    }
  }

  /** After any run, an expired entry is never blocked by an unexpired head: the queue's time check passes. */
  lemma ExpiredIsNeverBlocked(l: Ledger, events: seq<Event>, user: Address, i: nat, now: nat, amount: int)
    requires Initial(l) && Clocked(events) && amount > 0
    requires i < |BalanceOf(Run(l, events), user).q4w| && BalanceOf(Run(l, events), user).q4w[i].exp <= now
    ensures Withdraw(Run(l, events), now, user, amount) != Err(WithdrawalQueueNotExpired)
  {
    LedgerOverRuns(l, events);
    UserWithinTotals(Run(l, events), Covered(l, events), Clock(events), user);
    hide ComputeState;
    var q := BalanceOf(Run(l, events), user).q4w;
    assert q[0].exp <= q[i].exp;
    PushError(Run(l, events));
  }

  lemma PushError(l: Ledger)
    ensures forall x: Ledger :: Push(x) != Err(WithdrawalQueueNotExpired)
  {
  }

  // ---- The derived state ----

  /** Frozen exactly when at least half of a positive total is queued. */
  lemma FrozenIff(total: int, queued: int, threshold: int)
    requires queued >= 0 && ComputeState(total, queued, threshold).Ok?
    ensures ComputeState(total, queued, threshold).value == Frozen <==> total > 0 && 2 * queued >= total
  {
    if total > 0 {
      QueuedShare(total, queued, 5_000);
    }
  }

  lemma QueuedShare(total: int, queued: int, bps: int)
    requires total > 0 && queued >= 0
    ensures TruncDiv(queued * BPS, total) >= bps <==> queued * BPS >= bps * total
  {
    var pct := FloorDiv(queued * BPS, total);
    if queued * BPS >= bps * total {
      FloorIsGreatest(queued * BPS, total, bps);
    } else {
      MulCancelLess(pct, bps, total);
    }
  }

  /** The state in closed form. */
  lemma StateValue(total: int, queued: int, threshold: int)
    requires queued >= 0 && ComputeState(total, queued, threshold).Ok?
    ensures ComputeState(total, queued, threshold).value
         == if total > 0 && 2 * queued >= total then Frozen
            else if (total > 0 && 4 * queued >= total) || total < threshold then OnIce
            else Active
  {
    if total > 0 {
      QueuedShare(total, queued, 5_000);
      QueuedShare(total, queued, 2_500);
    }
  }

  /** When more is deposited or less is queued, the state worsens exactly when a total that covered bad
      debt had used up turns positive below four times (from OnIce, twice) what is still queued. */
  lemma StateKeptIff(total: int, total': int, queued: int, queued': int, threshold: int)
    requires 0 <= queued' <= queued && total <= total'
    requires ComputeState(total, queued, threshold).Ok? && ComputeState(total', queued', threshold).Ok?
    ensures (Ordinal(ComputeState(total', queued', threshold).value)
               <= Ordinal(ComputeState(total, queued, threshold).value))
       <==> total > 0 || total' <= 0 || 4 * queued' < total' || (total < threshold && 2 * queued' < total')
  {
    StateValue(total, queued, threshold);
    StateValue(total', queued', threshold);
    hide ComputeState;
  }

  predicate NoCover(events: seq<Event>) {
    forall i :: 0 <= i < |events| ==> !events[i].op.CoverOp?
  }

  lemma {:induction false} NothingCovered(l: Ledger, events: seq<Event>)
    requires NoCover(events)
    ensures Covered(l, events) == 0
  {
    if events != [] {
      NothingCovered(l, events[..|events| - 1]);
    }
  }

  /** The state computed for a ledger. */
  function StateOf(l: Ledger): Result<PoolState> {
    ComputeState(l.total, l.queuedTotal, l.threshold)
  }

  /** After every successful operation but a threshold change, the pool holds the computed state. */
  lemma PoolHoldsComputedState(l: Ledger, event: Event)
    requires Outcome(l, event).Ok? && !event.op.ThresholdOp?
    ensures StateOf(Outcome(l, event).value) == Ok(Outcome(l, event).value.poolState)
  {
    hide ComputeState, QueueSum, DrawHead;
  }

  /** After any run: the computed state is Frozen exactly when half of a positive total is queued;
      a dequeue never worsens it and a queueing never improves it; a deposit leaves it no worse
      exactly when the total was positive or what is queued is small beside the new one. */
  lemma StateOverRuns(l: Ledger, events: seq<Event>, event: Event)
    requires Initial(l) && Clocked(events) && Clock(events) <= event.now
    requires StateOf(Run(l, events)).Ok? && Outcome(Run(l, events), event).Ok?
    ensures var s, s' := Run(l, events), Outcome(Run(l, events), event).value;
            && (StateOf(s).value == Frozen <==> s.total > 0 && 2 * s.queuedTotal >= s.total)
            && (event.op.DepositOp? || event.op.DequeueOp? || event.op.QueueOp? ==> StateOf(s').Ok?)
            && (event.op.DequeueOp? ==> Ordinal(StateOf(s').value) <= Ordinal(StateOf(s).value))
            && (event.op.QueueOp? ==> Ordinal(StateOf(s').value) >= Ordinal(StateOf(s).value))
            && (event.op.DepositOp? ==>
                  (Ordinal(StateOf(s').value) <= Ordinal(StateOf(s).value) <==>
                     s.total > 0 || s'.total <= 0 || 4 * s'.queuedTotal < s'.total
                       || (s.total < s.threshold && 2 * s'.queuedTotal < s'.total)))
  {
    var s, s' := Run(l, events), Outcome(Run(l, events), event).value;
    LedgerOverRuns(l, events);
    UserWithinTotals(s, Covered(l, events), Clock(events), 0);
    FrozenIff(s.total, s.queuedTotal, s.threshold);
    if !event.op.ThresholdOp? {
      PoolHoldsComputedState(s, event);
    }
    if event.op.DepositOp? || event.op.DequeueOp? || event.op.QueueOp? {
      CountersMove(s, event, Covered(l, events), Clock(events));
      hide Outcome, ComputeState;
      if event.op.QueueOp? {
        StateKeptIff(s'.total, s.total, s'.queuedTotal, s.queuedTotal, s.threshold);
      } else {
        StateKeptIff(s.total, s'.total, s.queuedTotal, s'.queuedTotal, s.threshold);
      }
    }
  }

  /** Without covered bad debt a deposit never worsens the computed state. */
  lemma DepositNeverWorsens(l: Ledger, events: seq<Event>, event: Event)
    requires Initial(l) && Clocked(events) && NoCover(events) && Clock(events) <= event.now
    requires StateOf(Run(l, events)).Ok? && Outcome(Run(l, events), event).Ok? && event.op.DepositOp?
    ensures var s, s' := Run(l, events), Outcome(Run(l, events), event).value;
            StateOf(s').Ok? && Ordinal(StateOf(s').value) <= Ordinal(StateOf(s).value)
  {
    var s := Run(l, events);
    LedgerOverRuns(l, events);
    NothingCovered(l, events);
    UserWithinTotals(s, 0, Clock(events), 0);
    StateOverRuns(l, events, event);
    CountersMove(s, event, 0, Clock(events));
    hide Outcome, StateOf, Run;
  }

  lemma CountersMove(l: Ledger, event: Event, covered: int, now: int)
    requires LedgerInv(l, covered, now) && Outcome(l, event).Ok?
    requires event.op.DepositOp? || event.op.DequeueOp? || event.op.QueueOp?
    ensures var l' := Outcome(l, event).value;
            && l'.threshold == l.threshold && 0 <= l.queuedTotal
            && (event.op.DepositOp? ==> l'.total > l.total && l'.queuedTotal == l.queuedTotal)
            && (event.op.DequeueOp? ==> l'.total == l.total && 0 <= l'.queuedTotal <= l.queuedTotal)
            && (event.op.QueueOp? ==> l'.total == l.total && l'.queuedTotal >= l.queuedTotal)
  {
    var user := event.op.user;
    UserWithinTotals(l, covered, now, user);
    QueueSumNonNegative(BalanceOf(l, user).q4w, now + Q4W_LOCK_SECONDS);
    hide ComputeState;
  }

  // ---- What covered bad debt and threshold changes break ----

  /** The total is not negative exactly while no more bad debt was covered than depositors still hold,
      and a withdrawal keeps it so exactly when the total can pay it. */
  lemma TotalNonNegativeIff(l: Ledger, events: seq<Event>, event: Event)
    requires Initial(l) && Clocked(events) && Outcome(Run(l, events), event).Ok?
    ensures Run(l, events).total >= 0 <==> Covered(l, events) <= SumBy(Run(l, events).users, Amounts())
    ensures event.op.WithdrawOp? ==>
              (Outcome(Run(l, events), event).value.total >= 0 <==> event.op.amount <= Run(l, events).total)
  {
    LedgerOverRuns(l, events);
    hide Run, Covered, ComputeState, DrawHead;
  }

  /** One depositor with 100, 60 of it queued, and all of it covered away. */
  function CoveredRun(): seq<Event> {
    [Event(0, DepositOp(1, 100)), Event(0, QueueOp(1, 60)), Event(0, CoverOp(7, 100))]
  }

  const NEW_BACKSTOP: Ledger := Ledger(map[], 0, 0, 0, 7, true, Active)

  const HALF_QUEUED: Ledger :=
    Ledger(map[1 := UserBalance(100, [Q4W(60, Q4W_LOCK_SECONDS)])], 100, 60, 0, 7, true, Frozen)

  lemma FirstDeposit()
    ensures Deposit(NEW_BACKSTOP, 1, 100) == Ok(Ledger(map[1 := UserBalance(100, [])], 100, 0, 0, 7, true, Active))
  {
  }

  lemma ThenQueue()
    ensures QueueWithdrawal(Ledger(map[1 := UserBalance(100, [])], 100, 0, 0, 7, true, Active), 0, 1, 60)
         == Ok(HALF_QUEUED)
  {
    var one := Ledger(map[1 := UserBalance(100, [])], 100, 0, 0, 7, true, Active);
    var queue: seq<Q4W> := [];
    assert QueueSum(queue) == 0 && queue + [Q4W(60, Q4W_LOCK_SECONDS)] == [Q4W(60, Q4W_LOCK_SECONDS)];
    assert one.users[1 := UserBalance(100, [Q4W(60, Q4W_LOCK_SECONDS)])] == HALF_QUEUED.users;
    assert ComputeState(100, 60, 0) == Ok(Frozen);
  }

  lemma ThenCover()
    ensures CoverBadDebt(HALF_QUEUED, 7, 100) == Ok(HALF_QUEUED.(total := 0, poolState := Active))
  {
  }

  lemma ThreeEvents(l: Ledger, a: Event, b: Event, c: Event)
    ensures Run(l, [a, b, c]) == Next(Next(Next(l, a), b), c)
  {
    var e := [a, b, c];
    hide Next;
    assert e[..2] == [a, b] && e[..2][..1] == [a] && e[..2][..1][..0] == [];
    assert Run(l, []) == l;
    assert Run(l, [a]) == Next(l, a);
    assert Run(l, [a, b]) == Next(Run(l, [a]), b);
  }

  /** The state after that run: nobody's amount has fallen with the total. */
  lemma CoveredRunEnds()
    ensures Initial(NEW_BACKSTOP) && Clocked(CoveredRun())
    ensures Run(NEW_BACKSTOP, CoveredRun())
      == Ledger(map[1 := UserBalance(100, [Q4W(60, Q4W_LOCK_SECONDS)])], 0, 60, 0, 7, true, Active)
  {
    hide Run, Deposit, QueueWithdrawal, CoverBadDebt;
    FirstDeposit();
    ThenQueue();
    ThenCover();
    ThreeEvents(NEW_BACKSTOP, Event(0, DepositOp(1, 100)), Event(0, QueueOp(1, 60)), Event(0, CoverOp(7, 100)));
  }

  /** After it the queued tokens are still paid out, and the total goes negative. */
  lemma TotalCanGoNegative()
    ensures var l := Run(NEW_BACKSTOP, CoveredRun());
            Withdraw(l, Q4W_LOCK_SECONDS, 1, 60).Ok? && Withdraw(l, Q4W_LOCK_SECONDS, 1, 60).value.total == -60
  {
    CoveredRunEnds();
    hide Run;
  }

  /** After it the pool is Active, and a deposit freezes it. */
  lemma DepositCanFreeze()
    ensures var l := Run(NEW_BACKSTOP, CoveredRun());
            l.poolState == Active && Deposit(l, 2, 1).Ok? && Deposit(l, 2, 1).value.poolState == Frozen
  {
    CoveredRunEnds();
    hide Run;
  }

  /** A threshold change is not pushed.  What the pool holds stays right exactly when a quarter of a
      positive total is queued anyway, or the total is on the same side of both thresholds. */
  lemma ThresholdLeavesStaleStateIff(l: Ledger, now: nat, threshold: int)
    requires l.queuedTotal >= 0 && StateOf(l) == Ok(l.poolState)
    ensures var l' := Outcome(l, Event(now, ThresholdOp(threshold))).value;
            && l'.poolState == l.poolState
            && (StateOf(l') == Ok(l'.poolState) <==>
                  (l.total > 0 && 4 * l.queuedTotal >= l.total) || (l.total < l.threshold <==> l.total < threshold))
  {
    assert ComputeState(l.total, l.queuedTotal, threshold).Ok?;
    StateValue(l.total, l.queuedTotal, l.threshold);
    StateValue(l.total, l.queuedTotal, threshold);
    hide ComputeState;
  }

  /** An empty backstop whose threshold is raised. */
  lemma ThresholdLeavesStaleState()
    ensures var l' := Outcome(NEW_BACKSTOP, Event(0, ThresholdOp(1))).value;
            StateOf(NEW_BACKSTOP) == Ok(Active) && StateOf(l') == Ok(OnIce) && l'.poolState == Active
  {
  }
}
