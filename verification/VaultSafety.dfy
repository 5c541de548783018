/** The vault over every run: the share supply, the register of protocols, what it holds, and
    what a withdrawal pays. */
module VaultSafety {
  import opened Outcomes
  import opened FixedPoint
  import opened Sums
  import opened VaultRules
  import opened VaultFunds

  datatype Op =
    | DepositOp(from: Address, amount: int)
    | WithdrawOp(from: Address, shares: int)
    | TransferOp(from: Address, to: Address, amount: int)
    | TransferFromOp(spender: Address, from: Address, to: Address, amount: int)
    | ApproveOp(from: Address, spender: Address, amount: int, liveUntil: nat)
    | BurnOp(from: Address, amount: int)
    | BurnFromOp(spender: Address, from: Address, amount: int)
    | RebalanceOp
    | HarvestOp(harvested: int)
    | PerformanceFeeOp
    | ExitOp
    | PauseOp
    | UnpauseOp
    | ConfigOp(config: Config)
    | AddOp(id: Symbol, adapter: Address, targetBps: U32)
    | RemoveOp(id: Symbol)
    | ActiveOp(id: Symbol, active: bool)
    | YieldOp(adapter: Address, balance: int)  // a position grows or shrinks outside the vault

  datatype Event = Event(now: nat, sequence: nat, op: Op)

  function First(outcome: Result<(State, int)>): Result<State> {
    match outcome
    case Ok(done) => Ok(done.0)
    case Err(e) => Err(e)
  }

  function Outcome(v: State, event: Event): Result<State> {
    match event.op
    case DepositOp(from, amount) => First(Deposit(v, from, amount))
    case WithdrawOp(from, shares) => First(Withdraw(v, from, shares))
    case TransferOp(from, to, amount) => Transfer(v, from, to, amount)
    case TransferFromOp(spender, from, to, amount) => TransferFrom(v, event.sequence, spender, from, to, amount)
    case ApproveOp(from, spender, amount, liveUntil) => Approve(v, event.sequence, from, spender, amount, liveUntil)
    case BurnOp(from, amount) => Burn(v, from, amount)
    case BurnFromOp(spender, from, amount) => BurnFrom(v, event.sequence, spender, from, amount)
    case RebalanceOp => Rebalance(v)
    case HarvestOp(harvested) => HarvestAll(v, event.now, harvested)
    case PerformanceFeeOp => ApplyPerformanceFee(v)
    case ExitOp => EmergencyExits(v)
    case PauseOp => Ok(SetStatus(v, Status.Paused))
    case UnpauseOp => Ok(SetStatus(v, Status.Active))
    case ConfigOp(config) => SetConfig(v, config)
    case AddOp(id, adapter, targetBps) => AddProtocol(v, id, adapter, targetBps)
    case RemoveOp(id) => RemoveProtocol(v, id)
    case ActiveOp(id, active) => SetProtocolActive(v, id, active)
    case YieldOp(adapter, balance) => Ok(v.(positions := v.positions[adapter := balance]))
  }

  function Next(v: State, event: Event): State {
    var outcome := Outcome(v, event);
    if outcome.Ok? then outcome.value else v
  }

  function Run(v: State, events: seq<Event>): State {
    if events == [] then v else Next(Run(v, events[..|events| - 1]), events[|events| - 1])
  }

  // ---- The share supply ----

  function Held(who: Address, amount: int): int {
    amount
  }

  ghost function Issued(v: State): int {
    SumBy(v.shares, Held)
  }

  /** What the supply counter and the balances disagree by. */
  ghost function Gap(v: State): int {
    v.storage.totalShares - Issued(v)
  }

  lemma AddIssues(v: State, who: Address, amount: int)
    requires AddShares(v, who, amount).Ok?
    ensures var w := AddShares(v, who, amount).value;
            && w == v.(shares := w.shares)
            && Issued(w) == Issued(v) + amount
            && (forall a: Address :: SharesOf(w, a) == SharesOf(v, a) + if a == who then amount else 0)
  {
    SumUpdate(v.shares, Held, who, SharesOf(v, who) + amount);
  }

  lemma SubtractRetires(v: State, who: Address, amount: int)
    requires SubtractShares(v, who, amount).Ok?
    ensures var w := SubtractShares(v, who, amount).value;
            && w == v.(shares := w.shares)
            && Issued(w) == Issued(v) - amount
            && amount <= SharesOf(v, who)
            && (forall a: Address :: SharesOf(w, a) == SharesOf(v, a) - if a == who then amount else 0)
  {
    SumUpdate(v.shares, Held, who, SharesOf(v, who) - amount);
  }

  /** A transfer moves shares; it issues none. */
  lemma TransferMoves(v: State, from: Address, to: Address, amount: int)
    requires Transfer(v, from, to, amount).Ok?
    ensures var w := Transfer(v, from, to, amount).value;
            && w == v.(shares := w.shares)
            && Issued(w) == Issued(v)
            && amount <= SharesOf(v, from)
            && (forall a: Address :: SharesOf(w, a) ==
                  SharesOf(v, a) - (if a == from then amount else 0) + (if a == to then amount else 0))
  {
    SubtractRetires(v, from, amount);
    AddIssues(SubtractShares(v, from, amount).value, to, amount);
    hide AddShares, SubtractShares, SharesOf, Issued;
  }

  lemma BurnRetires(v: State, from: Address, amount: int)
    requires Burn(v, from, amount).Ok?
    ensures var w := Burn(v, from, amount).value;
            && w == v.(shares := w.shares, storage := w.storage)
            && w.storage == v.storage.(totalShares := v.storage.totalShares - amount)
            && Gap(w) == Gap(v)
            && amount <= SharesOf(v, from)
            && (forall a: Address :: SharesOf(w, a) == SharesOf(v, a) - if a == from then amount else 0)
  {
    SubtractRetires(v, from, amount);
    SharesFrame(SubtractShares(v, from, amount).value, Burn(v, from, amount).value);
    hide SubtractShares, SharesOf, Issued;
  }

  lemma SharesFrame(v: State, w: State)
    requires v.shares == w.shares
    ensures Issued(v) == Issued(w)
    ensures forall a: Address :: SharesOf(v, a) == SharesOf(w, a)
  {
  }

  lemma SpendTouchesAllowances(v: State, sequence: nat, from: Address, spender: Address, amount: int)
    requires SpendAllowance(v, sequence, from, spender, amount).Ok?
    ensures var w := SpendAllowance(v, sequence, from, spender, amount).value;
            w == v.(allowances := w.allowances)
  {
  }

  /** A fee only adds shares, all of them the administrator's, and counts every one. */
  lemma FeeIssues(v: State, fee: int, price: int)
    requires MintFee(v, fee, price).Ok?
    ensures var w := MintFee(v, fee, price).value;
            var feeShares := w.storage.totalShares - v.storage.totalShares;
            && w == v.(shares := w.shares, storage := w.storage)
            && w.storage == v.storage.(totalShares := w.storage.totalShares)
            && feeShares >= 0 && Gap(w) == Gap(v)
            && (forall a: Address :: SharesOf(w, a) == SharesOf(v, a) + if a == v.storage.admin then feeShares else 0)
  {
    var feeShares := CheckedDiv(fee * SCALAR_7, price).value;
    var w := MintFee(v, fee, price).value;
    if feeShares > 0 {
      AddIssues(v, v.storage.admin, feeShares);
      SharesFrame(AddShares(v, v.storage.admin, feeShares).value, w);
      hide AddShares, SharesOf, Issued, CheckedDiv;
    }
  }

  // ---- What each operation does to shares, holdings and the register ----


  /** A vault whose holdings are sound: nothing is negative, every share is counted, and the
      contract holds at least the tokens its reserve claims. */
  ghost predicate Sound(v: State) {
    && 0 <= v.storage.reserve <= v.tokens && FitsI128(v.storage.reserve)
    && NonNegative(v.positions)
    && (forall a: Address :: SharesOf(v, a) >= 0)
    && Gap(v) == 0
  }

  /** With no balance negative, nobody holds more than the supply. */
  lemma HolderWithinSupply(v: State, who: Address)
    requires Sound(v)
    ensures 0 <= SharesOf(v, who) <= v.storage.totalShares
  {
    forall a | a in v.shares
      ensures Held(a, v.shares[a]) >= 0
    {
      assert SharesOf(v, a) >= 0;
    }
    SumNonNegative(v.shares, Held);
    if who in v.shares {
      SumMember(v.shares, Held, who);
    }
  }

  /** A deposit adds `amount` to the reserve and to the tokens held, and `shares` to the depositor and the supply. */
  lemma DepositEffect(v: State, from: Address, amount: int)
    requires Deposit(v, from, amount).Ok?
    ensures var (w, shares) := Deposit(v, from, amount).value;
            && amount > 0 && v.storage.status == Status.Active
            && w == v.(shares := w.shares, storage := w.storage, tokens := v.tokens + amount)
            && w.storage == v.storage.(reserve := v.storage.reserve + amount,
                 totalShares := v.storage.totalShares + shares)
            && FitsI128(w.storage.reserve)
            && Gap(w) == Gap(v)
            && (forall a: Address :: SharesOf(w, a) == SharesOf(v, a) + if a == from then shares else 0)
            && Nav(v).Ok? && Ok(shares) == ToShares(amount, Nav(v).value, v.storage.totalShares) && shares != 0
  {
    var (w, shares) := Deposit(v, from, amount).value;
    AddIssues(v, from, shares);
    SharesFrame(AddShares(v, from, shares).value, w);
    hide AddShares, SharesOf, Issued, Nav, ToShares;
  }

  /** The shares a deposit buys are its proportion of the supply, rounded down; the first deposit is one to one. */
  lemma DepositShares(v: State, from: Address, amount: int)
    requires Sound(v) && Deposit(v, from, amount).Ok?
    ensures var shares := Deposit(v, from, amount).value.1;
            && shares > 0
            && shares == if v.storage.totalShares <= 0 || NetValue(v) <= 0 then amount
                         else FloorDiv(amount * v.storage.totalShares, NetValue(v))
  {
    DepositEffect(v, from, amount);
    HolderWithinSupply(v, from);
    NavIsNetValue(v, |v.storage.ids|);
    ValueNonNegative(v.storage, v.positions, |v.storage.ids|);
    var nav, total := NetValue(v), v.storage.totalShares;
    hide Deposit, Sound, Gap, NavUpTo, Value, NetValue;
    if total > 0 && nav > 0 {
      MulMono2(0, amount, 0, total);
      FloorNonNegative(amount * total, nav);
    }
  }

  /** The amount `shares` are worth, rounded down. */
  ghost function Worth(v: State, shares: int): int {
    if v.storage.totalShares <= 0 then 0 else FloorDiv(shares * NetValue(v), v.storage.totalShares)
  }

  lemma WorthWithin(v: State, shares: int)
    requires 0 <= NetValue(v) && 0 <= shares <= v.storage.totalShares
    ensures 0 <= Worth(v, shares) <= NetValue(v)
  {
    var nav, total := NetValue(v), v.storage.totalShares;
    if total > 0 {
      MulMono2(0, shares, 0, nav);
      FloorNonNegative(shares * nav, total);
      MulMono(shares, total, nav);
      MulCancel(FloorDiv(shares * nav, total), nav, total);
    }
  }

  /** A withdrawal unfolded: what it checked, what it burned, how it was funded. */
  lemma WithdrawUnfolds(v: State, from: Address, shares: int)
    requires Sound(v) && Withdraw(v, from, shares).Ok?
    ensures 0 < shares <= SharesOf(v, from) && 1 <= Worth(v, shares) <= I128_MAX && NetValue(v) >= 0
    ensures SubtractShares(v, from, shares).Ok?
    ensures var burned := SubtractShares(v, from,
      shares).value.(storage := v.storage.(totalShares := v.storage.totalShares - shares));
            var funded := Fund(burned, Worth(v, shares));
            && funded.Ok? && 0 <= funded.value.1 <= funded.value.0.tokens
            && Withdraw(v, from, shares).value
                 == (funded.value.0.(tokens := funded.value.0.tokens - funded.value.1), funded.value.1)
  {
    HolderWithinSupply(v, from);
    NavIsNetValue(v, |v.storage.ids|);
    ValueNonNegative(v.storage, v.positions, |v.storage.ids|);
    var nav, total := NetValue(v), v.storage.totalShares;
    hide Sound, Gap, NavUpTo, Value, NetValue, Fund, SubtractShares;
    assert SharesOf(v, from) >= shares > 0;
    MulMono2(0, shares, 0, nav);
    FloorNonNegative(shares * nav, total);
  }

  /** Every successful withdrawal burns exactly the shares asked for and pays their worth, or all
      that the reserve and the adapters can deliver if that is less. */
  lemma WithdrawPays(v: State, from: Address, shares: int)
    requires Sound(v) && Withdraw(v, from, shares).Ok?
    ensures var (w, paid) := Withdraw(v, from, shares).value;
            && paid == Min(Worth(v, shares), v.storage.reserve + Reach(v.storage, v.positions, |v.storage.ids|))
            && w.storage == v.storage.(reserve := Max(v.storage.reserve - Worth(v, shares), 0),
                                       totalShares := v.storage.totalShares - shares)
            && w == v.(storage := w.storage, shares := w.shares, positions := w.positions, tokens := w.tokens)
            && w.tokens - w.storage.reserve == v.tokens - v.storage.reserve
            && NonNegative(w.positions) && Gap(w) == Gap(v)
            && (forall a: Address :: SharesOf(w, a) == SharesOf(v, a) - if a == from then shares else 0)
            && (DistinctAdapters(v.storage) ==> NetValue(w) == NetValue(v) - paid)
  {
    WithdrawUnfolds(v, from, shares);
    SubtractRetires(v, from, shares);
    var burned := SubtractShares(v, from,
      shares).value.(storage := v.storage.(totalShares := v.storage.totalShares - shares));
    var n := |v.storage.ids|;
    FundTakes(burned, Worth(v, shares));
    var w := Withdraw(v, from, shares).value.0;
    ReachFrame(v.storage, burned.storage, v.positions, n);
    ValueFrame(v.storage, burned.storage, v.positions, n);
    SharesFrame(w, SubtractShares(v, from, shares).value);
    DistinctFrame(v.storage, burned.storage);
    hide Withdraw, Fund, SubtractShares, SharesOf, Issued, Worth, Reach, Value, NonNegative, DistinctAdapters;
  }

  lemma {:induction false} ReachFrame(s: Storage, t: Storage, positions: map<Address, int>, n: nat)
    requires n <= |s.ids| && s.ids == t.ids && s.allocations == t.allocations
    ensures Reach(s, positions, n) == Reach(t, positions, n)
  {
    if n > 0 {
      var m: nat := n - 1;
      ReachFrame(s, t, positions, m);
      assert forall a: Address :: Uses(s, a, m) <==> Uses(t, a, m);
    }
  }

  /** With distinct adapters a withdrawal pays exactly the worth of the shares, whatever mix of
      reserve and protocols funds it, and net asset value falls by exactly that. */
  lemma WithdrawIsExact(v: State, from: Address, shares: int)
    requires Sound(v) && DistinctAdapters(v.storage) && Withdraw(v, from, shares).Ok?
    ensures var (w, paid) := Withdraw(v, from, shares).value;
            && v.storage.totalShares > 0
            && paid == FloorDiv(shares * NetValue(v), v.storage.totalShares)
            && NetValue(w) == NetValue(v) - paid
  {
    WithdrawUnfolds(v, from, shares);
    WithdrawPays(v, from, shares);
    HolderWithinSupply(v, from);
    WorthWithin(v, shares);
    ReachIsValue(v.storage, v.positions, |v.storage.ids|);
    hide Withdraw, Sound, DistinctAdapters, Reach, Value;
  }

  lemma FundSucceeds(v: State, amount: int)
    requires 0 <= amount <= I128_MAX && 0 <= v.storage.reserve <= v.tokens && FitsI128(v.storage.reserve)
    requires NonNegative(v.positions)
    ensures Fund(v, amount).Ok?
    ensures 0 <= Fund(v, amount).value.1 <= Fund(v, amount).value.0.tokens
  {
    if v.storage.reserve < amount {
      PullTakes(v.storage, v.positions, amount - v.storage.reserve, |v.storage.ids|);
      ReachIsValue(v.storage, v.positions, |v.storage.ids|);
    }
  }

  lemma WithdrawNeeds(v: State, from: Address, shares: int)
    requires Sound(v) && Withdraw(v, from, shares).Ok?
    ensures 0 < shares <= SharesOf(v, from) && Worth(v, shares) >= 1
    ensures !(v.storage.status.EmergencyExit? && v.storage.reserve == 0)
    ensures FitsI128(NetValue(v)) && FitsI128(shares * NetValue(v))
  {
    HolderWithinSupply(v, from);
    NavIsNetValue(v, |v.storage.ids|);
    WithdrawUnfolds(v, from, shares);
    hide Fund, SubtractShares, Value, NetValue, Sound, Gap, TokenOut, NavUpTo, Worth, SharesOf;
  }

  lemma WithdrawGoesThrough(v: State, from: Address, shares: int)
    requires Sound(v) && FitsI128(v.storage.totalShares) && 0 < shares <= SharesOf(v, from)
    requires !(v.storage.status.EmergencyExit? && v.storage.reserve == 0)
    requires FitsI128(NetValue(v)) && FitsI128(shares * NetValue(v)) && Worth(v, shares) >= 1
    ensures Withdraw(v, from, shares).Ok?
  {
    var n := |v.storage.ids|;
    HolderWithinSupply(v, from);
    ValueNonNegative(v.storage, v.positions, n);
    NavSucceeds(v, n);
    WorthWithin(v, shares);
    var burned := SubtractShares(v, from,
      shares).value.(storage := v.storage.(totalShares := v.storage.totalShares - shares));
    FundSucceeds(burned, Worth(v, shares));
    hide Fund, Value, NetValue, Sound, Gap, NavUpTo;
  }

  /** A withdrawal goes through exactly when the holder has the shares, they are worth something,
      the products fit, and the vault is not an exited one with an empty reserve; in particular
      no pull and no token transfer ever stands in its way. */
  lemma WithdrawSucceedsIff(v: State, from: Address, shares: int)
    requires Sound(v) && FitsI128(v.storage.totalShares)
    ensures Withdraw(v, from, shares).Ok? <==>
              && 0 < shares <= SharesOf(v, from)
              && !(v.storage.status.EmergencyExit? && v.storage.reserve == 0)
              && FitsI128(NetValue(v)) && FitsI128(shares * NetValue(v))
              && Worth(v, shares) >= 1
  {
    hide Withdraw, NetValue, Sound, SharesOf, Worth;
    if Withdraw(v, from, shares).Ok? {
      WithdrawNeeds(v, from, shares);
    } else if 0 < shares <= SharesOf(v, from)
              && !(v.storage.status.EmergencyExit? && v.storage.reserve == 0)
              && FitsI128(NetValue(v)) && FitsI128(shares * NetValue(v)) && Worth(v, shares) >= 1 {
      WithdrawGoesThrough(v, from, shares);
    }
  }
}
