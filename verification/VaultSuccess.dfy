/** When the vault's operations go through, and what the manager's register is worth. */
module VaultSuccess {
  import opened Outcomes
  import opened FixedPoint
  import opened VaultRules
  import opened VaultFunds
  import opened RebalanceFacts
  import opened VaultSafety
  import opened VaultRuns
  import opened VaultValue

  // ---- Holders ----

  /** What a deposit buys: its proportion of the supply, one to one when nothing is outstanding or held. */
  ghost function SharesFor(v: State, amount: int): int {
    if v.storage.totalShares <= 0 || NetValue(v) <= 0 then amount
    else FloorDiv(amount * v.storage.totalShares, NetValue(v))
  }

  lemma QuotientFits(x: int, d: int)
    requires 0 <= x <= I128_MAX && d > 0
    ensures 0 <= FloorDiv(x, d) <= x && CheckedDiv(x, d) == Ok(FloorDiv(x, d))
  {
    FloorNonNegative(x, d);
  }

  lemma SharesBought(v: State, amount: int)
    requires Sound(v) && amount > 0
    ensures var nav, total := NetValue(v), v.storage.totalShares;
            var bought := ToShares(amount, nav, total);
            if total > 0 && nav > 0 && !FitsI128(amount * total) then bought.Err?
            else bought == Ok(SharesFor(v, amount))
  {
    NetValueNonNegative(v);
    HolderWithinSupply(v, v.storage.admin);
    var nav, total := NetValue(v), v.storage.totalShares;
    hide Sound, NetValue, FloorDiv, CheckedDiv;
    if total > 0 && nav > 0 && FitsI128(amount * total) {
      MulMono2(0, amount, 0, total);
      QuotientFits(amount * total, nav);
    }
  }

  /** A deposit goes through exactly when the vault is active, the amount is positive and buys at least
      one share, and the product and the new reserve and supply fit. */
  lemma DepositSucceedsIff(v: State, from: Address, amount: int)
    requires Sound(v)
    ensures Deposit(v, from, amount).Ok? <==>
              && amount > 0 && v.storage.status == Status.Active && FitsI128(NetValue(v))
              && (v.storage.totalShares > 0 && NetValue(v) > 0 ==> FitsI128(amount * v.storage.totalShares))
              && SharesFor(v, amount) > 0
              && FitsI128(v.storage.reserve + amount) && FitsI128(v.storage.totalShares + SharesFor(v, amount))
  {
    var n := |v.storage.ids|;
    HolderWithinSupply(v, from);
    NavIsNetValue(v, n);
    if FitsI128(NetValue(v)) {
      NavSucceeds(v, n);
    }
    if amount > 0 {
      SharesBought(v, amount);
      BoughtNonNegative(v, amount);
    }
    hide Sound, NetValue, NavUpTo, ToShares, SharesFor, SharesOf, FloorDiv;
  }

  lemma BoughtNonNegative(v: State, amount: int)
    requires amount > 0
    ensures SharesFor(v, amount) >= 0
  {
    if v.storage.totalShares > 0 && NetValue(v) > 0 {
      MulMono2(0, amount, 0, v.storage.totalShares);
      FloorNonNegative(amount * v.storage.totalShares, NetValue(v));
    }
  }

  /** With amounts that are not negative, only the sender's balance stands in the way of a burn. */
  lemma BurnSucceedsIff(v: State, from: Address, amount: int)
    requires Sound(v) && FitsI128(v.storage.totalShares) && amount >= 0
    ensures Burn(v, from, amount).Ok? <==> amount <= SharesOf(v, from)
  {
    HolderWithinSupply(v, from);
    hide Sound, SharesOf;
  }

  lemma OthersWithinRest(v: State, from: Address, to: Address, amount: int)
    requires Sound(v) && FitsI128(v.storage.totalShares) && 0 <= amount <= SharesOf(v, from)
    ensures var taken := SubtractShares(v, from, amount);
            taken.Ok? && 0 <= SharesOf(taken.value, to) <= v.storage.totalShares - amount
  {
    BurnSucceedsIff(v, from, amount);
    BurnKeepsSound(v, from, amount);
    HolderWithinSupply(Burn(v, from, amount).value, to);
    hide Sound;
  }

  /** And of a transfer, whoever receives it. */
  lemma TransferSucceedsIff(v: State, from: Address, to: Address, amount: int)
    requires Sound(v) && FitsI128(v.storage.totalShares) && amount >= 0
    ensures Transfer(v, from, to, amount).Ok? <==> amount <= SharesOf(v, from)
  {
    HolderWithinSupply(v, from);
    if amount <= SharesOf(v, from) {
      OthersWithinRest(v, from, to, amount);
    }
    hide Sound, SharesOf;
  }

  /** An approval that is not already past can be spent up to its amount until it expires, and what is
      left can be spent on. */
  lemma ApprovalIsSpendable(v: State, granted: nat, spent: nat, from: Address, spender: Address, amount: int,
      liveUntil: nat, part: int)
    requires 0 <= part && 0 <= amount <= I128_MAX
    ensures var approved := Approve(v, granted, from, spender, amount, liveUntil);
            && (approved.Ok? <==> liveUntil == 0 || granted <= liveUntil)
            && (approved.Ok? ==>
                  var after := SpendAllowance(approved.value, spent, from, spender, part);
                  && (after.Ok? <==> part <= amount && (liveUntil == 0 || spent <= liveUntil))
                  && (after.Ok? ==> AllowanceOf(after.value, from, spender) == Allowance(amount - part, liveUntil)))
  {
  }

  /** What each kind of refusal answers, in the order of the checks. */
  lemma RefusalsSayWhy(v: State, from: Address, to: Address, amount: int)
    ensures amount <= 0 ==> Deposit(v, from, amount) == Err(ZeroAmount) && Withdraw(v, from, amount) == Err(ZeroAmount)
    ensures amount > 0 && v.storage.status != Status.Active ==> Deposit(v, from, amount) == Err(VaultNotActive)
    ensures var drained := v.storage.status.EmergencyExit? && v.storage.reserve == 0;
            && (amount > 0 && drained ==> Withdraw(v, from, amount) == Err(InsufficientLiquidity))
            && (amount > 0 && !drained && SharesOf(v, from) < amount ==>
                  Withdraw(v, from, amount) == Err(InsufficientShares))
    ensures SharesOf(v, from) < amount ==>
              && Transfer(v, from, to, amount) == Err(InsufficientBalance)
              && Burn(v, from, amount) == Err(InsufficientBalance)
  {
    hide Nav, ToShares, FromShares, Fund, AddShares;
  }

  // ---- The register ----

  /** What the register turns away: a full list, a duplicate, a target above everything, an unknown name. */
  lemma RegisterIff(v: State, id: Symbol, adapter: Address, targetBps: U32, active: bool)
    requires Registered(v.storage)
    ensures AddProtocol(v, id, adapter, targetBps).Ok? <==>
              |v.storage.ids| < 10 && id !in v.storage.ids && targetBps <= 10_000
    ensures RemoveProtocol(v, id).Ok? <==> id in v.storage.ids
    ensures SetProtocolActive(v, id, active).Ok? <==> id in v.storage.ids
  {
  }

  /** A configuration is taken exactly within the setter's bounds: both limits at most everything, the
      management fee at most a tenth and the performance fee at most a half. */
  lemma ConfigIff(v: State, c: Config)
    ensures SetConfig(v, c).Ok? <==>
              c.minLiquidityBps <= 10_000 && c.maxProtocolBps <= 10_000 && c.managementFeeBps * 10 <= 10_000
              && c.performanceFeeBps * 2 <= 10_000
    ensures SetConfig(v, c).Ok? ==> SetConfig(v, c).value == v.(storage := v.storage.(config := c))
  {
  }

  lemma {:induction false} NothingToDrop(ids: seq<Symbol>, id: Symbol)
    requires id !in ids
    ensures Without(ids, id) == ids
  {
    if ids != [] {
      NothingToDrop(ids[..|ids| - 1], id);
    }
  }

  lemma LastDropped(ids: seq<Symbol>, id: Symbol)
    requires id !in ids
    ensures Without(ids + [id], id) == ids
  {
    NothingToDrop(ids, id);
    assert (ids + [id])[..|ids|] == ids;
  }

  lemma EntryDropped(allocations: map<Symbol, Allocation>, id: Symbol, a: Allocation)
    requires id !in allocations
    ensures allocations[id := a] - {id} == allocations
  {
  }

  /** Removing what was just added leaves the vault as it was. */
  lemma AddIsUndone(v: State, id: Symbol, adapter: Address, targetBps: U32)
    requires Registered(v.storage) && AddProtocol(v, id, adapter, targetBps).Ok?
    ensures RemoveProtocol(AddProtocol(v, id, adapter, targetBps).value, id) == Ok(v)
  {
    var s := v.storage;
    LastDropped(s.ids, id);
    EntryDropped(s.allocations, id, Allocation(adapter, targetBps, true));
    hide Registered, Without;
  }

  /** Switching off and on again does too, for a protocol that was on. */
  lemma SwitchIsUndone(v: State, id: Symbol)
    requires ActiveAdapter(v.storage, id).Some?
    ensures var off := SetProtocolActive(v, id, false);
            off.Ok? && ActiveAdapter(off.value.storage, id).None? && SetProtocolActive(off.value, id, true) == Ok(v)
  {
    var a := v.storage.allocations;
    var off := a[id := a[id].(active := false)];
    assert off[id := off[id].(active := true)] == a;
  }

  /** What one name adds to net asset value. */
  function Part(s: Storage, positions: map<Address, int>, id: Symbol): int {
    var adapter := ActiveAdapter(s, id);
    if adapter.None? then 0 else Position(positions, adapter.value)
  }

  /** Adapters that have never held anything add nothing: net asset value is then the reserve alone. */
  lemma {:induction false} NothingDeployed(s: Storage, positions: map<Address, int>, n: nat)
    requires n <= |s.ids|
    requires forall a: Address :: a in positions ==> !Uses(s, a, n)
    ensures Value(s, positions, n) == 0
  {
    if n > 0 {
      var adapter := ActiveAdapter(s, s.ids[n - 1]);
      assert adapter.Some? ==> Uses(s, adapter.value, n);
      assert forall a: Address :: Uses(s, a, n - 1) ==> Uses(s, a, n);
      NothingDeployed(s, positions, n - 1);
    }
  }

  /** What a list of names adds. */
  function PartsOf(s: Storage, positions: map<Address, int>, ids: seq<Symbol>): int {
    if ids == [] then 0 else PartsOf(s, positions, ids[..|ids| - 1]) + Part(s, positions, ids[|ids| - 1])
  }

  lemma {:induction false} ValueIsParts(s: Storage, positions: map<Address, int>, n: nat)
    requires n <= |s.ids|
    ensures Value(s, positions, n) == PartsOf(s, positions, s.ids[..n])
  {
    if n > 0 {
      ValueIsParts(s, positions, n - 1);
      assert s.ids[..n][..n - 1] == s.ids[..n - 1];
    }
  }

  /** Dropping a name from a list without repetitions drops what it added. */
  lemma {:induction false} PartsWithout(s: Storage, t: Storage, positions: map<Address, int>, ids: seq<Symbol>,
      id: Symbol)
    requires forall i, j :: 0 <= i < j < |ids| ==> ids[i] != ids[j]
    requires forall x: Symbol :: x != id ==> ActiveAdapter(t, x) == ActiveAdapter(s, x)
    ensures PartsOf(t, positions, Without(ids, id))
              == PartsOf(s, positions, ids) - if id in ids then Part(s, positions, id) else 0
  {
    hide ActiveAdapter, Part, PartsOf;
    if ids == [] {
      PartsOfNothing(s, positions);
      PartsOfNothing(t, positions);
    } else {
      var init, last := ids[..|ids| - 1], ids[|ids| - 1];
      var kept := Without(init, id);
      PartsWithout(s, t, positions, init, id);
      assert ids == init + [last];
      PartsAppend(s, positions, init, last);
      if last == id {
        assert id !in init && kept + [] == kept;
      } else {
        PartsAppend(t, positions, kept, last);
        SamePart(s, t, positions, last);
      }
    }
  }

  lemma PartsOfNothing(s: Storage, positions: map<Address, int>)
    ensures PartsOf(s, positions, []) == 0
  {
  }

  lemma PartsAppend(s: Storage, positions: map<Address, int>, ids: seq<Symbol>, last: Symbol)
    ensures PartsOf(s, positions, ids + [last]) == PartsOf(s, positions, ids) + Part(s, positions, last)
  {
    assert (ids + [last])[..|ids|] == ids;
  }

  lemma SamePart(s: Storage, t: Storage, positions: map<Address, int>, id: Symbol)
    requires ActiveAdapter(t, id) == ActiveAdapter(s, id)
    ensures Part(t, positions, id) == Part(s, positions, id)
  {
  }

  /** Removing a protocol takes what it holds out of net asset value, and nothing brings it to the reserve:
      the register looks at no position. */
  lemma RemovalDropsPosition(v: State, id: Symbol)
    requires Registered(v.storage) && RemoveProtocol(v, id).Ok?
    ensures var w := RemoveProtocol(v, id).value;
            NetValue(w) == NetValue(v) - Part(v.storage, v.positions, id)
            && w.storage.reserve == v.storage.reserve && w.positions == v.positions && w.tokens == v.tokens
  {
    var s, w := v.storage, RemoveProtocol(v, id).value;
    assert s.ids[..|s.ids|] == s.ids;
    assert w.storage.ids[..|w.storage.ids|] == w.storage.ids;
    PartsWithout(s, w.storage, v.positions, s.ids, id);
    ValueIsParts(s, v.positions, |s.ids|);
    ValueIsParts(w.storage, v.positions, |w.storage.ids|);
    hide Value, PartsOf, Without;
  }

  // ---- The manager's loops ----

  lemma {:induction false} ExitStagesIff(v: State, n: nat)
    requires n <= |v.storage.ids| && NonNegative(v.positions) && FitsI128(v.storage.reserve) && v.storage.reserve >= 0
    ensures ExitUpTo(v, n).Ok? <==> FitsI128(v.storage.reserve + Reach(v.storage, v.positions, n))
  {
    hide NonNegative, Exited, ActiveAdapter, Uses;
    if n > 0 {
      ExitStagesIff(v, n - 1);
      ReachRises(v.storage, v.positions, n - 1);
      if ExitUpTo(v, n - 1).Ok? {
        ExitTakes(v, n - 1);
        ExitStepIff(v, n - 1, ExitUpTo(v, n - 1).value);
      }
    }
  }

  lemma {:induction false} ReachRises(s: Storage, positions: map<Address, int>, n: nat)
    requires n < |s.ids| && NonNegative(positions)
    ensures 0 <= Reach(s, positions, n) <= Reach(s, positions, n + 1)
  {
    if n > 0 {
      ReachRises(s, positions, n - 1);
    }
  }

  /** What a turn of the exit loop brings in is what the adapter still holds when its turn comes. */
  lemma ExitAdds(v: State, n: nat, w: State)
    requires n < |v.storage.ids| && Exited(v, n, w)
    ensures w.storage.reserve == v.storage.reserve + Reach(v.storage, v.positions, n)
    ensures Reach(v.storage, v.positions, n + 1) - Reach(v.storage, v.positions, n)
              == Part(w.storage, w.positions, v.storage.ids[n])
  {
    var id := v.storage.ids[n];
    var adapter := ActiveAdapter(v.storage, id);
    assert ActiveAdapter(w.storage, id) == if id in v.storage.ids[..n] then None else adapter;
    hide ActiveAdapter, Position;
    if adapter.Some? && id in v.storage.ids[..n] {
      var k :| 0 <= k < n && v.storage.ids[k] == id;
      assert Uses(v.storage, adapter.value, n);
    }
  }

  lemma ExitStepIff(v: State, n: nat, w: State)
    requires n < |v.storage.ids| && NonNegative(v.positions) && Exited(v, n, w) && FitsI128(w.storage.reserve)
    requires v.storage.reserve >= 0
    ensures ExitStep(w, v.storage.ids[n]).Ok? <==> FitsI128(v.storage.reserve + Reach(v.storage, v.positions, n + 1))
  {
    hide Exited, NonNegative, Reach, ExitStep, ActiveAdapter, Position;
    ExitAdds(v, n, w);
    ReachRises(v.storage, v.positions, n);
    ExitAmount(w, v.storage.ids[n]);
  }

  lemma ExitAmount(w: State, id: Symbol)
    requires FitsI128(w.storage.reserve) && w.storage.reserve >= 0 && Part(w.storage, w.positions, id) >= 0
    ensures ExitStep(w, id).Ok? <==> FitsI128(w.storage.reserve + Part(w.storage, w.positions, id))
  {
  }

  lemma ActiveByAllocations(s: Storage, t: Storage)
    requires s.allocations == t.allocations
    ensures forall x: Symbol :: ActiveAdapter(s, x) == ActiveAdapter(t, x)
  {
  }

  /** An exit goes through exactly when what is really there fits the reserve; it leaves every protocol off
      and the vault closed to deposits. */
  lemma ExitSucceedsIff(v: State, from: Address, amount: int)
    requires Sound(v)
    ensures EmergencyExits(v).Ok?
      <==> FitsI128(v.storage.reserve + Reach(v.storage, v.positions, |v.storage.ids|))
    ensures EmergencyExits(v).Ok? ==>
              var w := EmergencyExits(v).value;
              (forall id | id in v.storage.ids :: ActiveAdapter(w.storage, id).None?) && Deposit(w, from, amount).Err?
  {
    var n := |v.storage.ids|;
    ExitStagesIff(v, n);
    if EmergencyExits(v).Ok? {
      ExitTakes(v, n);
      assert v.storage.ids[..n] == v.storage.ids;
      var w := EmergencyExits(v).value;
      ActiveByAllocations(ExitUpTo(v, n).value.storage, w.storage);
    }
    hide Reach, Uses, Position, ActiveAdapter, Sound, Nav, ToShares;
  }

  /** One turn of the rebalance loop cannot fail while the value at stake leaves a factor of 2^32 to spare. */
  lemma RebalanceStepSucceeds(w: State, nav: int, id: Symbol)
    requires nav > 0 && nav * TWO_TO_THE_32 <= I128_MAX && 0 <= w.storage.reserve <= nav
    requires w.storage.reserve <= w.tokens && 0 <= Part(w.storage, w.positions, id) <= nav
    ensures RebalanceStep(w, nav, id).Ok?
  {
    var adapter := ActiveAdapter(w.storage, id);
    if adapter.Some? {
      var balance := Position(w.positions, adapter.value);
      hide ActiveAdapter, Position, TakeExcess, DeployShortfall, BpsOf;
      BpsFits(balance, nav);
      var current, target: int := BpsOf(balance, nav).value, w.storage.allocations[id].targetBps;
      if current > target {
        TakeFits(w, adapter.value, current - target, nav);
      } else {
        DeployFits(w, adapter.value, target - current, nav);
      }
    }
  }

  lemma BpsFits(balance: int, nav: int)
    requires 0 <= balance <= nav && nav > 0 && nav * TWO_TO_THE_32 <= I128_MAX
    ensures BpsOf(balance, nav).Ok?
  {
    FloorNonNegative(balance * BPS, nav);
  }

  lemma TakeFits(w: State, adapter: Address, excessBps: int, nav: int)
    requires 0 < excessBps < TWO_TO_THE_32 && 0 < nav && nav * TWO_TO_THE_32 <= I128_MAX
    requires 0 <= w.storage.reserve <= nav && 0 <= Position(w.positions, adapter) <= nav
    ensures TakeExcess(w, adapter, excessBps, nav).Ok?
  {
    MulMono2(0, excessBps, 0, nav);
    MulMono(excessBps, TWO_TO_THE_32, nav);
    FloorNonNegative(excessBps * nav, BPS);
    hide Position;
  }

  lemma DeployFits(w: State, adapter: Address, lackingBps: int, nav: int)
    requires 0 <= lackingBps < TWO_TO_THE_32 && 0 < nav && nav * TWO_TO_THE_32 <= I128_MAX
    requires 0 <= w.storage.reserve <= nav && w.storage.reserve <= w.tokens
    ensures DeployShortfall(w, adapter, lackingBps, nav).Ok?
  {
    MulMono2(0, lackingBps, 0, nav);
    MulMono(lackingBps, TWO_TO_THE_32, nav);
    FloorNonNegative(lackingBps * nav, BPS);
    hide Position;
  }

  /** A rebalance of a sound vault with distinct adapters cannot fail while its net asset value leaves a
      factor of 2^32 to spare. */
  lemma RebalanceSucceeds(v: State)
    requires Sound(v) && DistinctAdapters(v.storage) && NetValue(v) * TWO_TO_THE_32 <= I128_MAX
    ensures Rebalance(v).Ok?
  {
    var n := |v.storage.ids|;
    NetValueNonNegative(v);
    NavSucceeds(v, n);
    if NetValue(v) > 0 {
      RebalanceStagesSucceed(v, n);
    }
  }

  lemma {:induction false} RebalanceStagesSucceed(v: State, n: nat)
    requires Sound(v) && DistinctAdapters(v.storage) && NetValue(v) > 0 && NetValue(v) * TWO_TO_THE_32 <= I128_MAX
    requires n <= |v.storage.ids|
    ensures RebalanceUpTo(v, NetValue(v), n).Ok?
  {
    hide NetValue, Rebalanced, RebalanceStep, DistinctAdapters, Part, NonNegative, Sound;
    if n > 0 {
      RebalanceStagesSucceed(v, n - 1);
      var w := RebalanceUpTo(v, NetValue(v), n - 1).value;
      SoundIsNonNegative(v);
      RebalanceKeeps(v, NetValue(v), n - 1);
      TurnFits(v, n - 1, w);
      RebalanceStepSucceeds(w, NetValue(v), v.storage.ids[n - 1]);
    }
  }

  lemma SoundIsNonNegative(v: State)
    requires Sound(v)
    ensures 0 <= v.storage.reserve <= v.tokens && NonNegative(v.positions)
  {
  }

  lemma TurnFits(v: State, n: nat, w: State)
    requires n < |v.storage.ids| && Rebalanced(v, n, w) && DistinctAdapters(v.storage) && v.storage.reserve <= v.tokens
    ensures 0 <= w.storage.reserve <= NetValue(v) && w.storage.reserve <= w.tokens
    ensures 0 <= Part(w.storage, w.positions, v.storage.ids[n]) <= NetValue(v)
  {
    ValueNonNegative(w.storage, w.positions, |v.storage.ids|);
    hide DistinctAdapters, Uses;
    if ActiveAdapter(w.storage, v.storage.ids[n]).Some? {
      PositionWithin(w.storage, w.positions, n, |v.storage.ids|);
    }
  }

  // ---- Fees ----

  /** The price the vault shows: net asset value per share at seven decimals, 1.0 before the first share. */
  lemma ShownPriceIs(v: State)
    requires Sound(v) && FitsI128(NetValue(v) * SCALAR_7)
    ensures SharePrice(NetValue(v), v.storage.totalShares)
         == Ok(if v.storage.totalShares <= 0 then 10_000_000
               else FloorDiv(NetValue(v) * 10_000_000, v.storage.totalShares))
  {
    NetValueNonNegative(v);
    HolderWithinSupply(v, v.storage.admin);
    hide Sound, NetValue, FloorDiv, CheckedDiv;
    if v.storage.totalShares > 0 {
      PriceFits(NetValue(v), v.storage.totalShares);
    }
  }

  lemma MintFits(v: State, fee: int, price: int)
    requires Sound(v) && 0 < fee && 0 <= price && fee * SCALAR_7 <= I128_MAX - v.storage.totalShares
    ensures MintFee(v, fee, price).Ok? <==> price > 0
  {
    HolderWithinSupply(v, v.storage.admin);
    hide Sound, SharesOf, FloorDiv;
    if price == 0 {
      ZeroPriceFails(v, fee);
    } else {
      QuotientFits(fee * SCALAR_7, price);
    }
  }

  /** The fee never exceeds 2^128 over a year of basis points. */
  lemma FeeBounded(nav: int, bps: int, elapsed: int)
    requires nav >= 0 && bps >= 0 && elapsed >= 0
    ensures 0 <= ProratedFee(nav, bps, elapsed) <= 2_000_000_000_000_000_000_000_000_000
  {
    MulMono2(0, nav, 0, bps);
    MulMono2(0, nav * bps, 0, elapsed);
    hide FloorDiv;
    if nav * bps * elapsed <= U128_MAX {
      FloorMono(nav * bps * elapsed, U128_MAX, 315_360_000_000);
      FloorMono(0, nav * bps * elapsed, 315_360_000_000);
      Ends();
    }
  }

  lemma Ends()
    ensures FloorDiv(U128_MAX, 315_360_000_000) <= 2_000_000_000_000_000_000_000_000_000
    ensures FloorDiv(0, 315_360_000_000) == 0
  {
  }

  /** With value and supply well inside the type, accruing the management fee fails exactly when there is
      a fee to charge and the share price has rounded down to nothing. */
  lemma ManagementFeeFailsIff(v: State, now: nat)
    requires Sound(v) && FitsI128(NetValue(v) * SCALAR_7)
    requires v.storage.totalShares <= 100_000_000_000_000_000_000_000_000_000_000_000_000
    ensures var s := v.storage;
            AccrueManagementFee(v, now).Err? <==>
              && now > s.lastFeeAccrual
              && ProratedFee(NetValue(v), s.config.managementFeeBps, now - s.lastFeeAccrual) > 0
              && s.totalShares > 0 && NetValue(v) * SCALAR_7 < s.totalShares
  {
    var s, nav := v.storage, NetValue(v);
    NetValueNonNegative(v);
    HolderWithinSupply(v, s.admin);
    NavSucceeds(v, |s.ids|);
    hide Sound, NetValue, NavUpTo, Value, SharesOf, MintFee, ManagementFee, ProratedFee, FloorDiv;
    if now > s.lastFeeAccrual {
      var elapsed := now - s.lastFeeAccrual;
      FeeIsProrated(nav, s.config.managementFeeBps, elapsed);
      NothingOfNothing(nav, s.config.managementFeeBps, elapsed);
      FeeBounded(nav, s.config.managementFeeBps, elapsed);
      var fee := ProratedFee(nav, s.config.managementFeeBps, elapsed);
      if fee > 0 && s.totalShares > 0 {
        PriceFits(nav, s.totalShares);
        MintFits(v, fee, FloorDiv(nav * SCALAR_7, s.totalShares));
      }
    }
  }

  lemma PriceFits(nav: int, total: int)
    requires 0 <= nav && FitsI128(nav * SCALAR_7) && total > 0
    ensures SharePrice(nav, total) == Ok(FloorDiv(nav * SCALAR_7, total)) && FloorDiv(nav * SCALAR_7, total) >= 0
    ensures FloorDiv(nav * SCALAR_7, total) == 0 <==> nav * SCALAR_7 < total
  {
    QuotientFits(nav * SCALAR_7, total);
    hide CheckedDiv, FloorDiv;
    if nav * SCALAR_7 >= total {
      FloorIsGreatest(nav * SCALAR_7, total, 1);
    } else {
      FloorFromBounds(nav * SCALAR_7, total, 0);
    }
  }

  /** Within the same bounds charging the performance fee never fails. */
  lemma PerformanceFeeSucceeds(v: State)
    requires Sound(v) && v.storage.highWaterMark >= 0
    requires NetValue(v) * SCALAR_7 * TWO_TO_THE_32 <= I128_MAX / 2 && v.storage.totalShares <= I128_MAX / 2
    ensures ApplyPerformanceFee(v).Ok?
  {
    var s, nav, bps: int := v.storage, NetValue(v), v.storage.config.performanceFeeBps;
    NetValueNonNegative(v);
    HolderWithinSupply(v, s.admin);
    NavSucceeds(v, |s.ids|);
    hide Sound, NetValue, NavUpTo, Value, SharesOf, MintFee, FloorDiv, CheckedDiv;
    if bps != 0 && s.totalShares != 0 {
      PriceFits(nav, s.totalShares);
      hide SharePrice;
      var price := FloorDiv(nav * SCALAR_7, s.totalShares);
      if price > s.highWaterMark {
        RiseFits(nav, s.totalShares, price, s.highWaterMark, bps);
        var gains := FloorDiv((price - s.highWaterMark) * s.totalShares, SCALAR_7);
        var fee := FloorDiv(gains * bps, BPS);
        QuotientFits((price - s.highWaterMark) * s.totalShares, SCALAR_7);
        QuotientFits(gains * bps, BPS);
        if fee > 0 {
          MintFits(v, fee, price);
        }
      }
    }
  }

  lemma RiseFits(nav: int, total: int, price: int, mark: int, bps: int)
    requires nav >= 0 && total > 0 && 0 <= mark < price == FloorDiv(nav * SCALAR_7, total)
    requires 0 <= bps < TWO_TO_THE_32 && nav * SCALAR_7 * TWO_TO_THE_32 <= I128_MAX / 2
    ensures var gains := FloorDiv((price - mark) * total, SCALAR_7);
            && 0 <= (price - mark) * total <= I128_MAX && 0 <= gains * bps <= I128_MAX
            && FloorDiv(gains * bps, BPS) * SCALAR_7 <= I128_MAX / 2
            && price - mark <= I128_MAX
  {
    assert price * total <= nav * SCALAR_7;
    MulMono2(0, price - mark, 0, total);
    MulMono2(price - mark, price, total, total);
    FloorNonNegative((price - mark) * total, SCALAR_7);
    var gains := FloorDiv((price - mark) * total, SCALAR_7);
    FloorMono((price - mark) * total, nav * SCALAR_7, SCALAR_7);
    WholeNav(nav);
    MulMono2(gains, nav, bps, TWO_TO_THE_32);
    MulMono2(0, gains, 0, bps);
    FloorNonNegative(gains * bps, BPS);
    MulMono2(1, total, price - mark, price - mark);
  }

  lemma WholeNav(nav: int)
    ensures FloorDiv(nav * SCALAR_7, SCALAR_7) == nav
  {
  }

  // ---- The status ----

  /** Only pausing, unpausing and an exit move the status; until it is unpaused, a vault that is not
      active takes no deposit, whatever else happens. */
  lemma {:induction false} ClosedOverRuns(v: State, events: seq<Event>, from: Address, amount: int)
    requires v.storage.status != Status.Active && forall e | e in events :: !e.op.UnpauseOp?
    ensures Run(v, events).storage.status != Status.Active && Deposit(Run(v, events), from, amount).Err?
  {
    hide Next, Nav, ToShares;
    if events != [] {
      var init, last := events[..|events| - 1], events[|events| - 1];
      ClosedOverRuns(v, init, from, amount);
      StatusMoves(Run(v, init), last);
    }
  }

  lemma StatusMoves(v: State, event: Event)
    ensures Next(v, event).storage.status
              == if event.op.PauseOp? then Status.Paused
                 else if event.op.UnpauseOp? then Status.Active
                 else if event.op.ExitOp? && Outcome(v, event).Ok? then Status.EmergencyExit
                 else v.storage.status
  {
    hide Deposit, Withdraw, Transfer, Burn, SpendAllowance, Rebalance, HarvestAll, ApplyPerformanceFee, SharesOf,
      Issued, ExitUpTo;
    if Outcome(v, event).Err? {
      return;
    }
    match event.op {
      case DepositOp(from, amount) => DepositEffect(v, from, amount);
      case WithdrawOp(from, shares) => WithdrawKeepsBooks(v, from, shares);
      case TransferOp(from, to, amount) => TransferMoves(v, from, to, amount);
      case TransferFromOp(spender, from, to, amount) => SpendKeepsBooks(v, event.sequence, spender, from, amount);
        TransferMoves(SpendAllowance(v, event.sequence, from, spender, amount).value, from, to, amount);
      case BurnOp(from, amount) => BurnRetires(v, from, amount);
      case BurnFromOp(spender, from, amount) => SpendKeepsBooks(v, event.sequence, spender, from, amount);
        BurnRetires(SpendAllowance(v, event.sequence, from, spender, amount).value, from, amount);
      case RebalanceOp => RebalanceKeepsBooks(v);
      case HarvestOp(harvested) => HarvestKeepsBooks(v, event.now, harvested);
      case PerformanceFeeOp => PerformanceKeepsBooks(v);
      case _ =>
    }
  }
}
