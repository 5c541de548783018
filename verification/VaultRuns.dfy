/** The vault over every run: supply, register, high water mark, holdings. */
module VaultRuns {
  import opened Outcomes
  import opened FixedPoint
  import opened VaultRules
  import opened VaultFunds
  import opened RebalanceFacts
  import opened VaultSafety

  // ---- What the loops leave alone, whatever the state ----

  /** Only the reserve, the positions, the tokens and the activity of protocols changed. */
  ghost predicate OnlyFunds(v: State, w: State) {
    && w == v.(storage := w.storage, positions := w.positions, tokens := w.tokens)
    && w.storage == v.storage.(reserve := w.storage.reserve, allocations := w.storage.allocations)
    && w.storage.allocations.Keys == v.storage.allocations.Keys
    && (FitsI128(v.storage.reserve) ==> FitsI128(w.storage.reserve))
  }

  lemma {:induction false} RebalanceOnlyFunds(v: State, nav: int, n: nat)
    requires nav != 0 && n <= |v.storage.ids| && RebalanceUpTo(v, nav, n).Ok?
    ensures OnlyFunds(v, RebalanceUpTo(v, nav, n).value)
  {
    if n > 0 {
      RebalanceOnlyFunds(v, nav, n - 1);
      RebalanceStepOnlyFunds(RebalanceUpTo(v, nav, n - 1).value, nav, v.storage.ids[n - 1]);
      hide RebalanceStep;
    }
  }

  lemma RebalanceStepOnlyFunds(v: State, nav: int, id: Symbol)
    requires nav != 0 && RebalanceStep(v, nav, id).Ok?
    ensures OnlyFunds(v, RebalanceStep(v, nav, id).value)
  {
    hide BpsOf, TruncDiv, Position;
  }

  lemma {:induction false} ExitOnlyFunds(v: State, n: nat)
    requires n <= |v.storage.ids| && ExitUpTo(v, n).Ok?
    ensures OnlyFunds(v, ExitUpTo(v, n).value)
  {
    if n > 0 {
      ExitOnlyFunds(v, n - 1);
      ExitStepOnlyFunds(ExitUpTo(v, n - 1).value, v.storage.ids[n - 1]);
      hide ExitStep;
    }
  }

  lemma ExitStepOnlyFunds(v: State, id: Symbol)
    requires ExitStep(v, id).Ok?
    ensures OnlyFunds(v, ExitStep(v, id).value)
  {
  }

  lemma FundOnlyFunds(v: State, amount: int)
    requires Fund(v, amount).Ok?
    ensures OnlyFunds(v, Fund(v, amount).value.0)
  {
    hide PullUpTo;
  }

  // ---- One event ----

  /** The books agree by as much as before, the mark has not fallen, and the reserve still fits. */
  ghost predicate BooksKept(v: State, w: State) {
    && Gap(w) == Gap(v)
    && w.storage.highWaterMark >= v.storage.highWaterMark
    && (FitsI128(v.storage.reserve) ==> FitsI128(w.storage.reserve))
  }

  lemma FundsKeepBooks(v: State, w: State)
    requires OnlyFunds(v, w)
    ensures BooksKept(v, w)
  {
    SharesFrame(v, w);
  }

  lemma WithdrawKeepsBooks(v: State, from: Address, shares: int)
    requires Withdraw(v, from, shares).Ok?
    ensures BooksKept(v, Withdraw(v, from, shares).value.0)
    ensures var s, t := v.storage, Withdraw(v, from, shares).value.0.storage;
            && t.ids == s.ids && t.allocations.Keys == s.allocations.Keys && t.config == s.config
            && t.status == s.status
  {
    SubtractRetires(v, from, shares);
    var taken := SubtractShares(v, from, shares).value;
    var total := v.storage.totalShares - shares;
    var burned := taken.(storage := v.storage.(totalShares := total));
    var amount := FromShares(shares, Nav(v).value, v.storage.totalShares).value;
    FundOnlyFunds(burned, amount);
    var funded := Fund(burned, amount).value.0;
    var w := Withdraw(v, from, shares).value.0;
    SharesFrame(taken, w);
    hide SubtractShares, SharesOf, Issued, Fund, Nav, FromShares;
    assert w.storage == funded.storage;
  }

  lemma FeeKeepsBooks(v: State, now: nat)
    requires AccrueManagementFee(v, now).Ok?
    ensures var w := AccrueManagementFee(v, now).value;
            && BooksKept(v, w)
            && w == v.(shares := w.shares, storage := w.storage)
            && w.storage == v.storage.(totalShares := w.storage.totalShares, lastFeeAccrual := w.storage.lastFeeAccrual)
            && forall a: Address :: SharesOf(w, a) >= SharesOf(v, a)
  {
    var s := v.storage;
    var nav := Nav(v);
    if nav.Ok? {
      var fee := ManagementFee(nav.value, s.config.managementFeeBps, Max(now - s.lastFeeAccrual, 0));
      var price := SharePrice(nav.value, s.totalShares);
      hide Nav, ManagementFee, SharePrice;
      if price.Ok? && MintFee(v, fee, price.value).Ok? {
        FeeIssues(v, fee, price.value);
        var charged := MintFee(v, fee, price.value).value;
        SharesFrame(charged, charged.(storage := charged.storage.(lastFeeAccrual := now)));
        hide MintFee, Issued;
      }
    }
    SharesFrame(v, v.(storage := s.(lastFeeAccrual := now)));
    hide Issued, SharesOf;
  }

  /** The mark is where the price was before the new shares; the fee leaves the funds alone. */
  lemma PerformanceKeepsBooks(v: State)
    requires ApplyPerformanceFee(v).Ok?
    ensures var w := ApplyPerformanceFee(v).value;
            && BooksKept(v, w)
            && w == v.(shares := w.shares, storage := w.storage)
            && w.storage == v.storage.(totalShares := w.storage.totalShares, highWaterMark := w.storage.highWaterMark)
            && w.storage.totalShares >= v.storage.totalShares
            && forall a: Address :: SharesOf(w, a) >= SharesOf(v, a)
  {
    var w := ApplyPerformanceFee(v).value;
    if w != v {
      var price := SharePrice(Nav(v).value, v.storage.totalShares).value;
      var gains := CheckedDiv((price - v.storage.highWaterMark) * v.storage.totalShares, SCALAR_7).value;
      var fee := CheckedDiv(gains * v.storage.config.performanceFeeBps, BPS).value;
      hide Nav, SharePrice, CheckedDiv;
      var charged := if fee > 0 then MintFee(v, fee, price) else Ok(v);
      if fee > 0 {
        FeeIssues(v, fee, price);
      }
      SharesFrame(charged.value, w);
      hide MintFee, Issued;
    }
  }

  /** Every operation keeps the supply counter in step with the balances, and the mark never falls. */
  lemma EventKeepsBooks(v: State, event: Event)
    ensures BooksKept(v, Next(v, event))
  {
    hide Deposit, Withdraw, Transfer, Burn, SpendAllowance, Rebalance, HarvestAll, ApplyPerformanceFee, EmergencyExits,
      Issued, SharesOf;
    var w := Next(v, event);
    if Outcome(v, event).Err? {
      return;
    }
    match event.op {
      case DepositOp(from, amount) => DepositEffect(v, from, amount);
      case WithdrawOp(from, shares) => WithdrawKeepsBooks(v, from, shares);
      case TransferOp(from, to, amount) => TransferMoves(v, from, to, amount);
      case TransferFromOp(spender, from, to, amount) => SpendKeepsBooks(v, event.sequence, spender, from, amount);
        TransferMoves(SpendAllowance(v, event.sequence, from, spender, amount).value, from, to, amount);
      case BurnOp(from, amount) => BurnRetires(v, from, amount);
      case BurnFromOp(spender, from, amount) => SpendKeepsBooks(v, event.sequence, spender, from, amount);
        BurnRetires(SpendAllowance(v, event.sequence, from, spender, amount).value, from, amount);
      case RebalanceOp => RebalanceKeepsBooks(v);
      case HarvestOp(harvested) => HarvestKeepsBooks(v, event.now, harvested);
      case PerformanceFeeOp => PerformanceKeepsBooks(v);
      case ExitOp => ExitKeepsBooks(v);
      case _ => SharesFrame(v, w);
    }
  }

  lemma SpendKeepsBooks(v: State, sequence: nat, spender: Address, from: Address, amount: int)
    requires SpendAllowance(v, sequence, from, spender, amount).Ok?
    ensures var w := SpendAllowance(v, sequence, from, spender, amount).value;
            w == v.(allowances := w.allowances) && Gap(w) == Gap(v)
  {
    SpendTouchesAllowances(v, sequence, from, spender, amount);
    SharesFrame(v, SpendAllowance(v, sequence, from, spender, amount).value);
  }

  lemma RebalanceKeepsBooks(v: State)
    requires Rebalance(v).Ok?
    ensures BooksKept(v, Rebalance(v).value) && OnlyFunds(v, Rebalance(v).value)
  {
    if Nav(v).value != 0 {
      RebalanceOnlyFunds(v, Nav(v).value, |v.storage.ids|);
    }
    FundsKeepBooks(v, Rebalance(v).value);
  }

  lemma ExitKeepsBooks(v: State)
    requires EmergencyExits(v).Ok?
    ensures BooksKept(v, EmergencyExits(v).value)
  {
    var w := EmergencyExits(v).value;
    ExitOnlyFunds(v, |v.storage.ids|);
    SharesFrame(v, w);
  }

  lemma HarvestKeepsBooks(v: State, now: nat, harvested: int)
    requires HarvestAll(v, now, harvested).Ok?
    ensures var w := HarvestAll(v, now, harvested).value;
            && BooksKept(v, w)
            && w == v.(shares := w.shares, storage := w.storage, tokens := v.tokens + harvested)
            && w.storage == v.storage.(reserve := v.storage.reserve + harvested,
                                       totalShares := w.storage.totalShares, lastFeeAccrual := w.storage.lastFeeAccrual)
            && forall a: Address :: SharesOf(w, a) >= SharesOf(v, a)
  {
    var richer := v.(storage := v.storage.(reserve := v.storage.reserve + harvested), tokens := v.tokens + harvested);
    SharesFrame(v, richer);
    FeeKeepsBooks(richer, now);
    hide AccrueManagementFee, Issued, SharesOf;
  }

  // ---- Runs ----

  /** After any run the supply counter differs from the sum of the balances by what it did at the
      start; from an empty vault they are equal.  This holds for amounts of either sign. */
  lemma {:induction false} SupplyOverRuns(v: State, events: seq<Event>)
    ensures Gap(Run(v, events)) == Gap(v)
    ensures Run(v, events).storage.highWaterMark >= v.storage.highWaterMark
  {
    if events != [] {
      SupplyOverRuns(v, events[..|events| - 1]);
      EventKeepsBooks(Run(v, events[..|events| - 1]), events[|events| - 1]);
      hide Next, Gap;
    }
  }

  /** The register: every listed protocol has an allocation and the other way round, none is listed
      twice, and there are at most ten. */
  ghost predicate Registered(s: Storage) {
    && (forall i, j :: 0 <= i < j < |s.ids| ==> s.ids[i] != s.ids[j])
    && (forall id: Symbol :: id in s.ids <==> id in s.allocations)
    && |s.ids| <= MAX_PROTOCOLS
  }

  lemma {:induction false} WithoutDrops(ids: seq<Symbol>, id: Symbol)
    ensures forall x: Symbol :: x in Without(ids, id) <==> x in ids && x != id
    ensures |Without(ids, id)| <= |ids|
    ensures (forall i, j :: 0 <= i < j < |ids| ==> ids[i] != ids[j]) ==>
              forall i, j :: 0 <= i < j < |Without(ids, id)| ==> Without(ids, id)[i] != Without(ids, id)[j]
  {
    if ids != [] {
      var init, last := ids[..|ids| - 1], ids[|ids| - 1];
      WithoutDrops(init, id);
      assert ids == init + [last];
      if forall i, j :: 0 <= i < j < |ids| ==> ids[i] != ids[j] {
        assert last !in init;
      }
    }
  }

  lemma RegisterFrame(s: Storage, t: Storage)
    requires Registered(s) && t.ids == s.ids && t.allocations.Keys == s.allocations.Keys
    ensures Registered(t)
  {
    forall id: Symbol
      ensures id in t.ids <==> id in t.allocations
    {
      assert id in t.allocations <==> id in t.allocations.Keys;
      assert id in s.allocations <==> id in s.allocations.Keys;
    }
  }

  lemma EventKeepsRegister(v: State, event: Event)
    requires Registered(v.storage)
    ensures Registered(Next(v, event).storage)
  {
    hide Deposit, Withdraw, Transfer, Burn, SpendAllowance, Rebalance, HarvestAll, ApplyPerformanceFee, EmergencyExits,
      SharesOf;
    var w := Next(v, event);
    if Outcome(v, event).Err? {
      return;
    }
    match event.op {
      case RemoveOp(id) =>
        WithoutDrops(v.storage.ids, id);
      case AddOp(id, _, _) =>
        assert w.storage.ids == v.storage.ids + [id];
      case _ =>
        EventKeepsKeys(v, event);
        RegisterFrame(v.storage, w.storage);
    }
  }

  lemma EventKeepsKeys(v: State, event: Event)
    requires !event.op.AddOp? && !event.op.RemoveOp?
    ensures var s, t := v.storage, Next(v, event).storage;
            && t.ids == s.ids && t.allocations.Keys == s.allocations.Keys
            && (event.op.ConfigOp? || t.config == s.config)
  {
    hide Deposit, Withdraw, Transfer, Burn, SpendAllowance, Rebalance, HarvestAll, ApplyPerformanceFee, EmergencyExits,
      SharesOf, Issued;
    if Outcome(v, event).Err? {
      return;
    }
    match event.op {
      case DepositOp(from, amount) => DepositEffect(v, from, amount);
      case WithdrawOp(from, shares) => WithdrawKeepsBooks(v, from, shares);
      case TransferOp(from, to, amount) => TransferMoves(v, from, to, amount);
      case TransferFromOp(spender, from, to, amount) => SpendKeepsBooks(v, event.sequence, spender, from, amount);
        TransferMoves(SpendAllowance(v, event.sequence, from, spender, amount).value, from, to, amount);
      case BurnOp(from, amount) => BurnRetires(v, from, amount);
      case BurnFromOp(spender, from, amount) => SpendKeepsBooks(v, event.sequence, spender, from, amount);
        BurnRetires(SpendAllowance(v, event.sequence, from, spender, amount).value, from, amount);
      case RebalanceOp => RebalanceKeepsBooks(v);
      case HarvestOp(harvested) => HarvestKeepsBooks(v, event.now, harvested);
      case PerformanceFeeOp => PerformanceKeepsBooks(v);
      case ExitOp => ExitKeepsKeys(v);
      case _ =>
    }
  }

  lemma ExitKeepsKeys(v: State)
    requires EmergencyExits(v).Ok?
    ensures var s, t := v.storage, EmergencyExits(v).value.storage;
            t.ids == s.ids && t.allocations.Keys == s.allocations.Keys && t.config == s.config
  {
    ExitOnlyFunds(v, |v.storage.ids|);
  }

  /** The bounds the setter enforces; initialization takes any configuration. */
  predicate ConfigOk(c: Config) {
    c.minLiquidityBps <= BPS && c.maxProtocolBps <= BPS && c.managementFeeBps <= 1_000 && c.performanceFeeBps <= 5_000
  }

  /** A configuration within the bounds stays within them over every run, and the setter always
      brings one there. */
  lemma {:induction false} ConfigOverRuns(v: State, events: seq<Event>)
    ensures ConfigOk(v.storage.config) ==> ConfigOk(Run(v, events).storage.config)
    ensures events != [] && events[|events| - 1].op.ConfigOp?
              && Outcome(Run(v, events[..|events| - 1]), events[|events| - 1]).Ok? ==>
                ConfigOk(Run(v, events).storage.config)
  {
    if events != [] {
      var init, last := events[..|events| - 1], events[|events| - 1];
      ConfigOverRuns(v, init);
      if !last.op.AddOp? && !last.op.RemoveOp? && !last.op.ConfigOp? {
        EventKeepsKeys(Run(v, init), last);
        hide Next, Outcome;
      }
    }
  }

  lemma {:induction false} RegisterOverRuns(v: State, events: seq<Event>)
    requires Registered(v.storage)
    ensures Registered(Run(v, events).storage)
  {
    if events != [] {
      RegisterOverRuns(v, events[..|events| - 1]);
      EventKeepsRegister(Run(v, events[..|events| - 1]), events[|events| - 1]);
      hide Next, Registered;
    }
  }

  /** The recipient of a transfer is left with no negative balance.  The share token itself does not
      look at the sign of an amount, so this is a test a caller would make. */
  predicate Receivable(v: State, from: Address, to: Address, amount: int) {
    from == to || SharesOf(v, to) + amount >= 0
  }

  /** What keeps holdings sound: transfers leave their recipients non-negative, and the world does not
      take from the vault — burns and withdrawals of either sign need no condition. */
  predicate Fair(v: State, event: Event) {
    match event.op
    case TransferOp(from, to, amount) => Receivable(v, from, to, amount)
    case TransferFromOp(_, from, to, amount) => Receivable(v, from, to, amount)
    case HarvestOp(harvested) => harvested >= 0
    case YieldOp(_, balance) => balance >= 0
    case _ => true
  }

  predicate RunFair(v: State, events: seq<Event>) {
    forall i :: 0 <= i < |events| ==> Fair(Run(v, events[..i]), events[i])
  }

  lemma FairPrefix(v: State, events: seq<Event>)
    requires events != [] && RunFair(v, events)
    ensures RunFair(v, events[..|events| - 1])
    ensures Fair(Run(v, events[..|events| - 1]), events[|events| - 1])
  {
    hide Run, Fair;
    var init := events[..|events| - 1];
    forall i | 0 <= i < |init|
      ensures Fair(Run(v, init[..i]), init[i])
    {
      assert init[..i] == events[..i];
      assert Fair(Run(v, events[..i]), events[i]);
    }
  }

  lemma SoundFrame(v: State, w: State)
    requires Sound(v) && Gap(w) == Gap(v) && NonNegative(w.positions)
    requires 0 <= w.storage.reserve && FitsI128(w.storage.reserve)
    requires w.tokens - w.storage.reserve >= v.tokens - v.storage.reserve
    requires forall a: Address :: SharesOf(w, a) >= 0
    ensures Sound(w)
  {
  }

  lemma DepositKeepsSound(v: State, from: Address, amount: int)
    requires Sound(v) && Deposit(v, from, amount).Ok?
    ensures Sound(Deposit(v, from, amount).value.0)
  {
    DepositEffect(v, from, amount);
    DepositShares(v, from, amount);
    hide Deposit, SharesOf, Issued, NetValue, NonNegative, Nav, ToShares;
    SoundFrame(v, Deposit(v, from, amount).value.0);
  }

  lemma WithdrawKeepsSound(v: State, from: Address, shares: int)
    requires Sound(v) && Withdraw(v, from, shares).Ok?
    ensures Sound(Withdraw(v, from, shares).value.0)
  {
    WithdrawUnfolds(v, from, shares);
    WithdrawPays(v, from, shares);
    hide Withdraw, SharesOf, Issued, NetValue, NonNegative, Worth, Reach, DistinctAdapters, Fund, SubtractShares;
    SoundFrame(v, Withdraw(v, from, shares).value.0);
  }

  /** A transfer keeps holdings sound exactly when it leaves the recipient no negative balance. */
  lemma TransferKeepsSoundIff(v: State, from: Address, to: Address, amount: int)
    requires Sound(v) && Transfer(v, from, to, amount).Ok?
    ensures Sound(Transfer(v, from, to, amount).value) <==> Receivable(v, from, to, amount)
  {
    var w := Transfer(v, from, to, amount).value;
    TransferMoves(v, from, to, amount);
    hide Transfer, SharesOf, Issued, NonNegative;
    if Receivable(v, from, to, amount) {
      SoundFrame(v, w);
    } else {
      assert SharesOf(w, to) < 0;
    }
  }

  /** A transfer takes shares from nobody but the sender exactly when its amount is not negative, or
      it goes nowhere. */
  lemma OnlySenderLosesIff(v: State, from: Address, to: Address, amount: int)
    requires Transfer(v, from, to, amount).Ok?
    ensures (forall a: Address :: a != from ==> SharesOf(Transfer(v, from, to, amount).value, a) >= SharesOf(v, a))
       <==> from == to || amount >= 0
  {
    var w := Transfer(v, from, to, amount).value;
    TransferMoves(v, from, to, amount);
    hide Transfer, SharesOf, Issued;
    if from != to && amount < 0 {
      assert SharesOf(w, to) < SharesOf(v, to);
    }
  }

  /** A transfer of a negative amount succeeds on every sound vault it does not overflow, and moves
      shares from the named recipient to the caller, of whom alone the contract asks consent. */
  lemma NegativeTransferTakes(v: State, caller: Address, other: Address, x: int)
    requires Sound(v) && caller != other && 0 < x <= I128_MAX
    requires SharesOf(v, caller) + x <= I128_MAX && SharesOf(v, other) <= I128_MAX
    ensures Transfer(v, caller, other, -x).Ok?
    ensures var w := Transfer(v, caller, other, -x).value;
            SharesOf(w, caller) == SharesOf(v, caller) + x && SharesOf(w, other) == SharesOf(v, other) - x
  {
    assert SharesOf(v, caller) >= 0 && SharesOf(v, other) >= 0;
    hide Sound;
  }

  /** A burn of a negative amount mints: to the holder's balance and to the supply. */
  lemma NegativeBurnMints(v: State, holder: Address, x: int)
    requires Sound(v) && 0 < x
    requires SharesOf(v, holder) + x <= I128_MAX && v.storage.totalShares + x <= I128_MAX
    ensures Burn(v, holder, -x).Ok?
    ensures var w := Burn(v, holder, -x).value;
            && SharesOf(w, holder) == SharesOf(v, holder) + x
            && w.storage.totalShares == v.storage.totalShares + x && NetFunds(w) == NetFunds(v)
  {
    HolderWithinSupply(v, holder);
    hide Sound;
  }

  /** The funds behind the shares. */
  function NetFunds(v: State): (int, map<Address, int>) {
    (v.storage.reserve, v.positions)
  }

  lemma BurnKeepsSound(v: State, from: Address, amount: int)
    requires Sound(v) && Burn(v, from, amount).Ok?
    ensures Sound(Burn(v, from, amount).value)
  {
    BurnRetires(v, from, amount);
    hide Burn, SharesOf, Issued, NonNegative;
    SoundFrame(v, Burn(v, from, amount).value);
  }

  lemma SpendKeepsSound(v: State, sequence: nat, spender: Address, from: Address, amount: int)
    requires Sound(v) && SpendAllowance(v, sequence, from, spender, amount).Ok?
    ensures Sound(SpendAllowance(v, sequence, from, spender, amount).value)
  {
    SpendTouchesAllowances(v, sequence, from, spender, amount);
    SharesFrame(v, SpendAllowance(v, sequence, from, spender, amount).value);
  }

  lemma LoopsKeepSound(v: State)
    requires Sound(v)
    ensures Rebalance(v).Ok? ==> Sound(Rebalance(v).value)
    ensures EmergencyExits(v).Ok? ==> Sound(EmergencyExits(v).value)
  {
    if Rebalance(v).Ok? {
      RebalanceConserves(v);
      RebalanceKeepsBooks(v);
      SharesFrame(v, Rebalance(v).value);
    }
    if EmergencyExits(v).Ok? {
      ExitConserves(v);
      ExitKeepsBooks(v);
      ReachIsValue(v.storage, v.positions, |v.storage.ids|);
      SharesFrame(v, EmergencyExits(v).value);
    }
    hide Rebalance, EmergencyExits, SharesOf, Issued, NonNegative, Reach, Uses, Value, NetValue, DistinctAdapters;
  }

  lemma FeesKeepSound(v: State, now: nat, harvested: int)
    requires Sound(v) && harvested >= 0
    ensures HarvestAll(v, now, harvested).Ok? ==> Sound(HarvestAll(v, now, harvested).value)
    ensures ApplyPerformanceFee(v).Ok? ==> Sound(ApplyPerformanceFee(v).value)
  {
    if HarvestAll(v, now, harvested).Ok? {
      HarvestKeepsBooks(v, now, harvested);
      assert FitsI128(v.storage.reserve + harvested);
    }
    if ApplyPerformanceFee(v).Ok? {
      PerformanceKeepsBooks(v);
    }
    hide HarvestAll, ApplyPerformanceFee, SharesOf, Issued, NonNegative;
  }

  lemma YieldKeepsSound(v: State, adapter: Address, balance: int)
    requires Sound(v) && balance >= 0
    ensures Sound(v.(positions := v.positions[adapter := balance]))
  {
    var positions := v.positions[adapter := balance];
    forall a: Address
      ensures Position(positions, a) >= 0
    {
      assert Position(v.positions, a) >= 0;
    }
    SharesFrame(v, v.(positions := positions));
  }

  /** Holdings stay sound: no negative balance, position or reserve, every share counted, and the
      tokens in hand cover the reserve. */
  lemma EventKeepsSound(v: State, event: Event)
    requires Sound(v) && Fair(v, event)
    ensures Sound(Next(v, event))
  {
    var w := Next(v, event);
    if Outcome(v, event).Err? {
      return;
    }
    match event.op {
      case DepositOp(from, amount) => DepositKeepsSound(v, from, amount);
      case WithdrawOp(from, shares) => WithdrawKeepsSound(v, from, shares);
      case TransferOp(from, to, amount) => TransferKeepsSoundIff(v, from, to, amount);
      case TransferFromOp(spender, from, to, amount) =>
        SpendKeepsSound(v, event.sequence, spender, from, amount);
        SpendTouchesAllowances(v, event.sequence, from, spender, amount);
        SharesFrame(v, SpendAllowance(v, event.sequence, from, spender, amount).value);
        TransferKeepsSoundIff(SpendAllowance(v, event.sequence, from, spender, amount).value, from, to, amount);
      case BurnOp(from, amount) => BurnKeepsSound(v, from, amount);
      case BurnFromOp(spender, from, amount) =>
        SpendKeepsSound(v, event.sequence, spender, from, amount);
        BurnKeepsSound(SpendAllowance(v, event.sequence, from, spender, amount).value, from, amount);
      case RebalanceOp => LoopsKeepSound(v);
      case ExitOp => LoopsKeepSound(v);
      case HarvestOp(harvested) => FeesKeepSound(v, event.now, harvested);
      case PerformanceFeeOp => FeesKeepSound(v, event.now, 0);
      case YieldOp(adapter, balance) => YieldKeepsSound(v, adapter, balance);
      case _ => SettingKeepsSound(v, w);
    }
    hide Deposit, Withdraw, Transfer, Burn, SpendAllowance, Rebalance, HarvestAll, ApplyPerformanceFee, EmergencyExits,
      Sound;
  }

  lemma SettingKeepsSound(v: State, w: State)
    requires Sound(v)
    requires v.shares == w.shares && v.positions == w.positions && v.tokens == w.tokens
    requires v.storage.reserve == w.storage.reserve && v.storage.totalShares == w.storage.totalShares
    ensures Sound(w)
  {
    SharesFrame(v, w);
  }

  lemma {:induction false} SoundOverRuns(v: State, events: seq<Event>)
    requires Sound(v) && RunFair(v, events)
    ensures Sound(Run(v, events))
  {
    hide Next, Sound, Fair;
    if events != [] {
      FairPrefix(v, events);
      SoundOverRuns(v, events[..|events| - 1]);
      EventKeepsSound(Run(v, events[..|events| - 1]), events[|events| - 1]);
    }
  }

  /** A new vault is where every run begins. */
  lemma FreshVaultIsSound(admin: Address, config: Config, now: nat)
    ensures var v := State(Storage(Status.Active, 0, 0, SCALAR_7, now, [], map[], config, admin), map[], map[], map[],
      0);
            Sound(v) && Registered(v.storage)
  {
    var v := State(Storage(Status.Active, 0, 0, SCALAR_7, now, [], map[], config, admin), map[], map[], map[], 0);
    assert v.shares == map[];
  }

  /** After any such run, every withdrawal with distinct adapters pays exactly the worth of the
      shares, and net asset value falls by exactly that. */
  lemma WithdrawIsExactOverRuns(v: State, events: seq<Event>, from: Address, shares: int)
    requires Sound(v) && RunFair(v, events)
    requires DistinctAdapters(Run(v, events).storage) && Withdraw(Run(v, events), from, shares).Ok?
    ensures var before := Run(v, events);
            var (after, paid) := Withdraw(before, from, shares).value;
            && before.storage.totalShares > 0
            && paid == FloorDiv(shares * NetValue(before), before.storage.totalShares)
            && NetValue(after) == NetValue(before) - paid
  {
    hide Run, Withdraw, DistinctAdapters, NetValue, Sound, FloorDiv, RunFair;
    SoundOverRuns(v, events);
    WithdrawIsExact(Run(v, events), from, shares);
  }
}
