/** The vault contract: entry points and loops that update storage step by step. */
module Vaults {
  import opened Outcomes
  import opened FixedPoint
  import opened VaultRules
  import Rules = VaultRules

  /** An answer and a state agree with a specification; after an error the state is restored. */
  predicate Did(before: State, outcome: Result<State>, after: State, r: Result<()>) {
    match outcome
    case Ok(v) => r == Ok(()) && after == v
    case Err(error) => r == Err(error) && after == before
  }

  class Vault {
    var storage: Storage
    var shares: map<Address, int>
    var allowances: map<(Address, Address), Allowance>
    var positions: map<Address, int>
    var tokens: int

    /** The state as one value. */
    function View(): State
      reads this
    {
      State(storage, shares, allowances, positions, tokens)
    }

    constructor (admin: Address, config: Config, now: nat)
      ensures View() == State(Storage(Status.Active, 0, 0, SCALAR_7, now, [], map[], config, admin), map[], map[],
        map[], 0)
    {
      storage := Storage(Status.Active, 0, 0, SCALAR_7, now, [], map[], config, admin);
      shares, allowances, positions, tokens := map[], map[], map[], 0;
    }

    /** What the host does after a failed call. */
    method Restore(v: State)
      modifies this
      ensures View() == v
    {
      storage, shares, allowances, positions, tokens := v.storage, v.shares, v.allowances, v.positions, v.tokens;
    }

    // ---- The other contracts ----

    method CallWithdraw(adapter: Address, amount: int) returns (actual: int)
      modifies this`positions, this`tokens
      ensures (positions, actual) == AdapterWithdraw(old(positions), adapter, amount)
      ensures tokens == old(tokens) + actual
    {
      actual := Min(amount, Position(positions, adapter));
      positions := positions[adapter := Position(positions, adapter) - actual];
      tokens := tokens + actual;
    }

    // ---- Net asset value ----

    method CalculateNav() returns (r: Result<int>)
      ensures r == Nav(View())
    {
      var nav := storage.reserve;
      var i := 0;
      while i < |storage.ids|
        invariant 0 <= i <= |storage.ids|
        invariant NavUpTo(View(), i) == Ok(nav)
      {
        var id := storage.ids[i];
        if id in storage.allocations && storage.allocations[id].active {
          var sum := CheckedAdd(nav, Position(positions, storage.allocations[id].adapter));
          if sum.Err? {
            NavStops(View(), i + 1, |storage.ids|);
            return Err(sum.error);
          }
          nav := sum.value;
        }
        i := i + 1;
      }
      return Ok(nav);
    }

    // ---- The share token ----

    method Transfer(from: Address, to: Address, amount: int) returns (r: Result<()>)
      modifies this
      ensures Did(old(View()), Rules.Transfer(old(View()), from, to, amount), View(), r)
    {
      var saved := View();
      r := Take(from, amount);
      if r.Err? {
        return;
      }
      r := Give(to, amount);
      if r.Err? {
        Restore(saved);
      }
    }

    method Take(from: Address, amount: int) returns (r: Result<()>)
      modifies this`shares
      ensures Did(old(View()), SubtractShares(old(View()), from, amount), View(), r)
    {
      var balance := if from in shares then shares[from] else 0;
      if balance < amount {
        return Err(InsufficientBalance);
      }
      balance :- Minus(balance, amount);
      shares := shares[from := balance];
      return Ok(());
    }

    method Give(to: Address, amount: int) returns (r: Result<()>)
      modifies this`shares
      ensures Did(old(View()), AddShares(old(View()), to, amount), View(), r)
    {
      var balance := if to in shares then shares[to] else 0;
      balance :- CheckedAdd(balance, amount);
      shares := shares[to := balance];
      return Ok(());
    }

    method Spend(sequence: nat, from: Address, spender: Address, amount: int) returns (r: Result<()>)
      modifies this`allowances
      ensures Did(old(View()), SpendAllowance(old(View()), sequence, from, spender, amount), View(), r)
    {
      var allowance := if (from, spender) in allowances then allowances[(from, spender)] else Allowance(0, 0);
      if allowance.amount < amount {
        return Err(InsufficientAllowance);
      }
      if allowance.liveUntil != 0 && allowance.liveUntil < sequence {
        return Err(InsufficientAllowance);
      }
      var left :- Minus(allowance.amount, amount);
      allowances := allowances[(from, spender) := Allowance(left, allowance.liveUntil)];
      return Ok(());
    }

    method TransferFrom(sequence: nat, spender: Address, from: Address, to: Address, amount: int)
        returns (r: Result<()>)
      modifies this
      ensures Did(old(View()), Rules.TransferFrom(old(View()), sequence, spender, from, to, amount), View(), r)
    {
      var saved := View();
      r := Spend(sequence, from, spender, amount);
      if r.Err? {
        return;
      }
      r := Take(from, amount);
      if r.Err? {
        Restore(saved);
        return;
      }
      r := Give(to, amount);
      if r.Err? {
        Restore(saved);
      }
    }

    method Approve(sequence: nat, from: Address, spender: Address, amount: int, liveUntil: nat) returns (r: Result<()>)
      modifies this`allowances
      ensures Did(old(View()), Rules.Approve(old(View()), sequence, from, spender, amount, liveUntil), View(), r)
    {
      if liveUntil != 0 && liveUntil < sequence {
        return Err(Trap);
      }
      allowances := allowances[(from, spender) := Allowance(amount, liveUntil)];
      return Ok(());
    }

    method Burn(from: Address, amount: int) returns (r: Result<()>)
      modifies this
      ensures Did(old(View()), Rules.Burn(old(View()), from, amount), View(), r)
    {
      var saved := View();
      r := Take(from, amount);
      if r.Err? {
        return;
      }
      var total := Minus(storage.totalShares, amount);
      if total.Err? {
        Restore(saved);
        return Err(total.error);
      }
      storage := storage.(totalShares := total.value);
    }

    method BurnFrom(sequence: nat, spender: Address, from: Address, amount: int) returns (r: Result<()>)
      modifies this
      ensures Did(old(View()), Rules.BurnFrom(old(View()), sequence, spender, from, amount), View(), r)
    {
      var saved := View();
      r := Spend(sequence, from, spender, amount);
      if r.Err? {
        return;
      }
      r := Burn(from, amount);
      if r.Err? {
        Restore(saved);
      }
    }

    // ---- Deposit and withdraw ----

    method Deposit(from: Address, amount: int) returns (r: Result<int>)
      modifies this
      ensures (View(), r) == Settle(old(View()), Rules.Deposit(old(View()), from, amount))
    {
      if amount <= 0 {
        return Err(ZeroAmount);
      }
      if storage.status != Status.Active {
        return Err(VaultNotActive);
      }
      var saved := View();
      tokens := tokens + amount;
      var valued := CalculateNav();
      NavIgnoresTokens(saved, View(), |storage.ids|);
      var bought := if valued.Ok? then ToShares(amount, valued.value, storage.totalShares) else valued;
      if bought.Err? {
        Restore(saved);
        return bought;
      }
      if bought.value == 0 {
        Restore(saved);
        return Err(ZeroAmount);
      }
      var reserve := CheckedAdd(storage.reserve, amount);
      var total := CheckedAdd(storage.totalShares, bought.value);
      if reserve.Err? || total.Err? {
        Restore(saved);
        return Err(ArithmeticError);
      }
      storage := storage.(reserve := reserve.value, totalShares := total.value);
      var minted := Give(from, bought.value);
      if minted.Err? {
        Restore(saved);
        return Err(minted.error);
      }
      return bought;
    }

    /** Pulls up to `needed` from the active protocols, from the first on. */
    method PullFromProtocols(needed: int) returns (r: Result<int>)
      modifies this`positions, this`tokens
      ensures var d := PullUpTo(storage, old(positions), needed, |storage.ids|);
              && (d.Ok? ==>
                    && r == Ok(d.value.pulled) && positions == d.value.positions
                    && tokens == old(tokens) + d.value.pulled)
              && (d.Err? ==> r == Err(d.error))
    {
      var remaining, pulled := needed, 0;
      var i := 0;
      while i < |storage.ids|
        invariant 0 <= i <= |storage.ids|
        invariant PullUpTo(storage, old(positions), needed, i) == Ok(Drain(positions, remaining, pulled))
        invariant tokens == old(tokens) + pulled
      {
        if remaining <= 0 {
          PullIdles(storage, old(positions), needed, i, |storage.ids|);
          break;
        }
        var id := storage.ids[i];
        if id in storage.allocations && storage.allocations[id].active {
          var adapter := storage.allocations[id].adapter;
          var balance := Position(positions, adapter);
          var toWithdraw := Min(remaining, balance);
          if toWithdraw > 0 {
            var actual := CallWithdraw(adapter, toWithdraw);
            var sum, rest := CheckedAdd(pulled, actual), CheckedSub(remaining, actual);
            if sum.Err? || rest.Err? {
              PullStops(storage, old(positions), needed, i + 1, |storage.ids|);
              return Err(ArithmeticError);
            }
            pulled, remaining := sum.value, rest.value;
          }
        }
        i := i + 1;
      }
      return Ok(pulled);
    }

    method Withdraw(from: Address, shares: int) returns (r: Result<int>)
      modifies this
      ensures (View(), r) == Settle(old(View()), Rules.Withdraw(old(View()), from, shares))
    {
      if shares <= 0 {
        return Err(ZeroAmount);
      }
      if storage.status.EmergencyExit? && storage.reserve == 0 {
        return Err(InsufficientLiquidity);
      }
      var held := if from in this.shares then this.shares[from] else 0;
      if held < shares {
        return Err(InsufficientShares);
      }
      var saved := View();
      var nav := CalculateNav();
      var worth := if nav.Ok? then FromShares(shares, nav.value, storage.totalShares) else nav;
      if worth.Err? {
        return worth;
      }
      var amount := worth.value;
      if amount == 0 {
        return Err(ZeroAmount);
      }
      var burned := Take(from, shares);
      if burned.Err? {
        return Err(burned.error);
      }
      var total := CheckedSub(storage.totalShares, shares);
      if total.Err? {
        Restore(saved);
        return Err(total.error);
      }
      storage := storage.(totalShares := total.value);
      var funded := FundFrom(amount);
      if funded.Err? || funded.value < 0 || funded.value > tokens {
        Restore(saved);
        return if funded.Err? then funded else Err(Trap);
      }
      tokens := tokens - funded.value;
      return funded;
    }

    /** The reserve first; what it lacks comes from the protocols.  On an error the caller restores. */
    method FundFrom(amount: int) returns (r: Result<int>)
      modifies this`storage, this`positions, this`tokens
      ensures var f := Fund(old(View()), amount);
              && (f.Ok? ==> r == Ok(f.value.1) && View() == f.value.0)
              && (f.Err? ==> r == Err(f.error))
    {
      if storage.reserve >= amount {
        var reserve :- Minus(storage.reserve, amount);
        storage := storage.(reserve := reserve);
        return Ok(amount);
      }
      var fromReserve := storage.reserve;
      var stillNeeded :- Minus(amount, fromReserve);
      var pulled :- PullFromProtocols(stillNeeded);
      storage := storage.(reserve := 0);
      r := Plus(fromReserve, pulled);
    }

    // ---- Rebalancing ----

    /** One turn of the loop.  On an error the caller restores. */
    method RebalanceProtocol(id: Symbol, nav: int) returns (r: Result<()>)
      requires nav != 0
      modifies this`storage, this`positions, this`tokens
      ensures var step := RebalanceStep(old(View()), nav, id);
              && (step.Ok? ==> r == Ok(()) && View() == step.value)
              && (step.Err? ==> r == Err(step.error))
      ensures storage.ids == old(storage.ids)
    {
      if id !in storage.allocations || !storage.allocations[id].active {
        return Ok(());
      }
      var adapter, target := storage.allocations[id].adapter, storage.allocations[id].targetBps;
      var current :- BpsOf(Position(positions, adapter), nav);
      var diff: int := if current > target then current - target else target - current;
      if diff < storage.config.rebalanceThresholdBps {
        return Ok(());
      }
      var product :- CheckedMul(diff, nav);
      var amount := TruncDiv(product, BPS);
      if current > target {
        var actual := CallWithdraw(adapter, amount);
        var reserve :- CheckedAdd(storage.reserve, actual);
        storage := storage.(reserve := reserve);
      } else {
        var toDeploy := Min(amount, storage.reserve);
        if toDeploy == 0 {
          return Ok(());
        }
        if toDeploy < 0 || toDeploy > tokens {
          return Err(Trap);
        }
        tokens := tokens - toDeploy;
        var reserve :- CheckedSub(storage.reserve, toDeploy);
        storage := storage.(reserve := reserve);
        positions := positions[adapter := Position(positions, adapter) + toDeploy];
      }
      return Ok(());
    }

    method Rebalance() returns (r: Result<()>)
      modifies this
      ensures Did(old(View()), Rules.Rebalance(old(View())), View(), r)
    {
      var saved := View();
      var valued := CalculateNav();
      if valued.Err? {
        return Err(valued.error);
      }
      var nav := valued.value;
      if nav == 0 {
        return Ok(());
      }
      var i := 0;
      while i < |storage.ids|
        invariant 0 <= i <= |storage.ids| && storage.ids == saved.storage.ids
        invariant RebalanceUpTo(saved, nav, i) == Ok(View())
      {
        r := RebalanceProtocol(storage.ids[i], nav);
        if r.Err? {
          RebalanceStops(saved, nav, i + 1, |saved.storage.ids|);
          Restore(saved);
          return;
        }
        i := i + 1;
      }
      return Ok(());
    }

    // ---- Administration ----

    method EmergencyExit() returns (r: Result<()>)
      modifies this
      ensures Did(old(View()), EmergencyExits(old(View())), View(), r)
    {
      var saved := View();
      var i := 0;
      while i < |storage.ids|
        invariant 0 <= i <= |storage.ids| && storage.ids == saved.storage.ids
        invariant ExitUpTo(saved, i) == Ok(View())
      {
        var id := storage.ids[i];
        if id in storage.allocations && storage.allocations[id].active {
          var allocation := storage.allocations[id];
          var balance := Position(positions, allocation.adapter);
          if balance > 0 {
            var actual := CallWithdraw(allocation.adapter, balance);
            var reserve := Plus(storage.reserve, actual);
            if reserve.Err? {
              ExitStops(saved, i + 1, |saved.storage.ids|);
              Restore(saved);
              return Err(reserve.error);
            }
            storage := storage.(reserve := reserve.value);
          }
          storage := storage.(allocations := storage.allocations[id := allocation.(active := false)]);
        }
        i := i + 1;
      }
      storage := storage.(status := Status.EmergencyExit);
      return Ok(());
    }

    method Pause()
      modifies this`storage
      ensures View() == SetStatus(old(View()), Status.Paused)
    {
      storage := storage.(status := Status.Paused);
    }

    method Unpause()
      modifies this`storage
      ensures View() == SetStatus(old(View()), Status.Active)
    {
      storage := storage.(status := Status.Active);
    }

    method SetConfig(config: Config) returns (r: Result<()>)
      modifies this`storage
      ensures Did(old(View()), Rules.SetConfig(old(View()), config), View(), r)
    {
      if config.minLiquidityBps > BPS || config.maxProtocolBps > BPS
         || config.managementFeeBps > 1_000 || config.performanceFeeBps > 5_000 {
        return Err(InvalidConfig);
      }
      storage := storage.(config := config);
      return Ok(());
    }

    method AddProtocol(id: Symbol, adapter: Address, targetBps: U32) returns (r: Result<()>)
      modifies this`storage
      ensures Did(old(View()), Rules.AddProtocol(old(View()), id, adapter, targetBps), View(), r)
    {
      if |storage.ids| >= MAX_PROTOCOLS {
        return Err(MaxProtocolsReached);
      }
      if id in storage.allocations {
        return Err(ProtocolAlreadyExists);
      }
      if targetBps > BPS {
        return Err(InvalidConfig);
      }
      storage := storage.(ids := storage.ids + [id],
                          allocations := storage.allocations[id := Allocation(adapter, targetBps, true)]);
      return Ok(());
    }

    method RemoveProtocol(id: Symbol) returns (r: Result<()>)
      modifies this`storage
      ensures Did(old(View()), Rules.RemoveProtocol(old(View()), id), View(), r)
    {
      if id !in storage.allocations {
        return Err(ProtocolNotFound);
      }
      var newIds: seq<Symbol> := [];
      for i := 0 to |storage.ids|
        invariant newIds == Without(storage.ids[..i], id)
      {
        assert storage.ids[..i + 1][..i] == storage.ids[..i];
        if storage.ids[i] != id {
          newIds := newIds + [storage.ids[i]];
        }
      }
      assert storage.ids[..|storage.ids|] == storage.ids;
      storage := storage.(ids := newIds, allocations := storage.allocations - {id});
      return Ok(());
    }

    method SetProtocolActive(id: Symbol, active: bool) returns (r: Result<()>)
      modifies this`storage
      ensures Did(old(View()), Rules.SetProtocolActive(old(View()), id, active), View(), r)
    {
      if id !in storage.allocations {
        return Err(ProtocolNotFound);
      }
      storage := storage.(allocations := storage.allocations[id := storage.allocations[id].(active := active)]);
      return Ok(());
    }

    // ---- Fees ----

    /** Mints shares worth `fee` to the administrator.  On an error the caller restores. */
    method ChargeFee(fee: int, price: int) returns (r: Result<()>)
      modifies this`storage, this`shares
      ensures var f := MintFee(old(View()), fee, price);
              && (f.Ok? ==> r == Ok(()) && View() == f.value)
              && (f.Err? ==> r == Err(f.error))
    {
      var scaled :- CheckedMul(fee, SCALAR_7);
      var feeShares :- CheckedDiv(scaled, price);
      if feeShares > 0 {
        r := Give(storage.admin, feeShares);
        if r.Err? {
          return;
        }
        var total :- CheckedAdd(storage.totalShares, feeShares);
        storage := storage.(totalShares := total);
      }
      return Ok(());
    }

    /** On an error the caller restores. */
    method AccrueFee(now: nat) returns (r: Result<()>)
      modifies this`storage, this`shares
      ensures var f := AccrueManagementFee(old(View()), now);
              && (f.Ok? ==> r == Ok(()) && View() == f.value)
              && (f.Err? ==> r == Err(f.error))
    {
      var elapsed := Max(now - storage.lastFeeAccrual, 0);
      if elapsed == 0 || storage.config.managementFeeBps == 0 {
        return Ok(());
      }
      var valued := CalculateNav();
      if valued.Err? {
        return Err(valued.error);
      }
      var nav := valued.value;
      if nav == 0 {
        storage := storage.(lastFeeAccrual := now);
        return Ok(());
      }
      var fee := ManagementFee(nav, storage.config.managementFeeBps, elapsed);
      if fee > 0 && storage.totalShares > 0 {
        var price :- SharePrice(nav, storage.totalShares);
        r := ChargeFee(fee, price);
        if r.Err? {
          return;
        }
      }
      storage := storage.(lastFeeAccrual := now);
      return Ok(());
    }

    method HarvestAll(now: nat, harvested: int) returns (r: Result<()>)
      modifies this
      ensures Did(old(View()), Rules.HarvestAll(old(View()), now, harvested), View(), r)
    {
      var saved := View();
      var reserve :- CheckedAdd(storage.reserve, harvested);
      tokens := tokens + harvested;
      storage := storage.(reserve := reserve);
      r := AccrueFee(now);
      if r.Err? {
        Restore(saved);
      }
    }

    method ApplyPerformanceFee() returns (r: Result<()>)
      modifies this
      ensures Did(old(View()), Rules.ApplyPerformanceFee(old(View())), View(), r)
    {
      var saved := View();
      if storage.config.performanceFeeBps == 0 || storage.totalShares == 0 {
        return Ok(());
      }
      var valued := CalculateNav();
      if valued.Err? {
        return Err(valued.error);
      }
      var price :- SharePrice(valued.value, storage.totalShares);
      if price <= storage.highWaterMark {
        return Ok(());
      }
      var rise :- CheckedSub(price, storage.highWaterMark);
      var scaled :- CheckedMul(rise, storage.totalShares);
      var gains :- CheckedDiv(scaled, SCALAR_7);
      var charge :- CheckedMul(gains, storage.config.performanceFeeBps);
      var fee :- CheckedDiv(charge, BPS);
      if fee > 0 {
        r := ChargeFee(fee, price);
        if r.Err? {
          Restore(saved);
          return;
        }
      }
      storage := storage.(highWaterMark := price);
      return Ok(());
    }
  }

  /** The loops stop at the first error. */
  lemma {:induction false} NavStops(v: State, k: nat, n: nat)
    requires k <= n <= |v.storage.ids| && NavUpTo(v, k).Err?
    ensures NavUpTo(v, n) == NavUpTo(v, k)
  {
    if k < n {
      NavStops(v, k, n - 1);
    }
  }

  lemma {:induction false} NavIgnoresTokens(v: State, w: State, n: nat)
    requires n <= |v.storage.ids| && v.storage == w.storage && v.positions == w.positions
    ensures NavUpTo(v, n) == NavUpTo(w, n)
  {
    if n > 0 {
      NavIgnoresTokens(v, w, n - 1);
    }
  }

  lemma {:induction false} PullStops(s: Storage, positions: map<Address, int>, needed: int, k: nat, n: nat)
    requires k <= n <= |s.ids| && PullUpTo(s, positions, needed, k).Err?
    ensures PullUpTo(s, positions, needed, n) == PullUpTo(s, positions, needed, k)
  {
    if k < n {
      PullStops(s, positions, needed, k, n - 1);
    }
  }

  /** Once nothing more is needed the rest of the pull loop changes nothing, so it may break off. */
  lemma {:induction false} PullIdles(s: Storage, positions: map<Address, int>, needed: int, k: nat, n: nat)
    requires k <= n <= |s.ids|
    requires PullUpTo(s, positions, needed, k).Ok? && PullUpTo(s, positions, needed, k).value.remaining <= 0
    ensures PullUpTo(s, positions, needed, n) == PullUpTo(s, positions, needed, k)
  {
    if k < n {
      PullIdles(s, positions, needed, k, n - 1);
    }
  }

  lemma {:induction false} RebalanceStops(v: State, nav: int, k: nat, n: nat)
    requires nav != 0 && k <= n <= |v.storage.ids| && RebalanceUpTo(v, nav, k).Err?
    ensures RebalanceUpTo(v, nav, n) == RebalanceUpTo(v, nav, k)
  {
    if k < n {
      RebalanceStops(v, nav, k, n - 1);
    }
  }

  lemma {:induction false} ExitStops(v: State, k: nat, n: nat)
    requires k <= n <= |v.storage.ids| && ExitUpTo(v, k).Err?
    ensures ExitUpTo(v, n) == ExitUpTo(v, k)
  {
    if k < n {
      ExitStops(v, k, n - 1);
    }
  }
}
