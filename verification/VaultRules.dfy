/** The vault as functions of its state: shares priced by net asset value, a pull loop and a
    rebalance loop over protocol adapters, and fees paid in new shares.

    An adapter is exact: `a_balance` reads the vault's position, `a_withdraw(x)` delivers
    min(x, position) and lowers the position by that, `a_deposit(x)` raises it by x. */
module VaultRules {
  import opened Outcomes
  import opened FixedPoint
  import PoolTypes

  type Address = PoolTypes.Address
  type Symbol = PoolTypes.Symbol

  const MAX_PROTOCOLS: int := 10
  const U128_MAX: int := 0xFFFF_FFFF_FFFF_FFFF_FFFF_FFFF_FFFF_FFFF

  datatype Status = Active | Paused | EmergencyExit

  datatype Config = Config(
    managementFeeBps: U32, performanceFeeBps: U32,
    minLiquidityBps: U32, maxProtocolBps: U32, rebalanceThresholdBps: U32)

  datatype Allocation = Allocation(adapter: Address, targetBps: U32, active: bool)

  datatype Storage = Storage(
    status: Status, reserve: int, totalShares: int,
    highWaterMark: int, lastFeeAccrual: nat,
    ids: seq<Symbol>, allocations: map<Symbol, Allocation>,
    config: Config, admin: Address)

  datatype Allowance = Allowance(amount: int, liveUntil: nat)

  /** The contract's storage, its share ledger, and the deposit tokens it holds itself
      (`tokens`) or has in each adapter (`positions`). */
  datatype State = State(
    storage: Storage,
    shares: map<Address, int>, allowances: map<(Address, Address), Allowance>,
    positions: map<Address, int>, tokens: int)

  function SharesOf(v: State, who: Address): int {
    if who in v.shares then v.shares[who] else 0
  }

  function AllowanceOf(v: State, from: Address, spender: Address): Allowance {
    if (from, spender) in v.allowances then v.allowances[(from, spender)] else Allowance(0, 0)
  }

  function Position(positions: map<Address, int>, adapter: Address): int {
    if adapter in positions then positions[adapter] else 0
  }

  // ---- Adapters and the token ----

  function AdapterWithdraw(positions: map<Address, int>, adapter: Address, amount: int): (map<Address, int>, int) {
    var actual := Min(amount, Position(positions, adapter));
    (positions[adapter := Position(positions, adapter) - actual], actual)
  }

  function AdapterDeposit(positions: map<Address, int>, adapter: Address, amount: int): map<Address, int> {
    positions[adapter := Position(positions, adapter) + amount]
  }

  /** The token contract refuses a negative amount and one above the sender's balance. */
  function TokenOut(v: State, amount: int): Result<State> {
    if 0 <= amount <= v.tokens then Ok(v.(tokens := v.tokens - amount)) else Err(Trap)
  }

  // ---- Net asset value ----

  /** The adapter behind a protocol that is registered and active. */
  function ActiveAdapter(s: Storage, id: Symbol): Option<Address> {
    if id in s.allocations && s.allocations[id].active then Some(s.allocations[id].adapter) else None
  }

  /** The NAV loop after `n` protocols. */
  function NavUpTo(v: State, n: nat): Result<int>
    requires n <= |v.storage.ids|
  {
    if n == 0 then Ok(v.storage.reserve)
    else
      var nav :- NavUpTo(v, n - 1);
      var adapter := ActiveAdapter(v.storage, v.storage.ids[n - 1]);
      if adapter.None? then Ok(nav) else CheckedAdd(nav, Position(v.positions, adapter.value))
  }

  function Nav(v: State): Result<int> {
    NavUpTo(v, |v.storage.ids|)
  }

  function SharePrice(nav: int, totalShares: int): Result<int> {
    if totalShares == 0 then Ok(SCALAR_7)
    else
      var scaled :- CheckedMul(nav, SCALAR_7);
      CheckedDiv(scaled, totalShares)
  }

  function ToShares(amount: int, nav: int, totalShares: int): Result<int> {
    if totalShares == 0 || nav == 0 then Ok(amount)
    else
      var scaled :- CheckedMul(amount, totalShares);
      CheckedDiv(scaled, nav)
  }

  function FromShares(shares: int, nav: int, totalShares: int): Result<int> {
    if totalShares == 0 then Ok(0)
    else
      var scaled :- CheckedMul(shares, nav);
      CheckedDiv(scaled, totalShares)
  }

  // ---- The share ledger; no amount is checked for its sign ----

  function AddShares(v: State, who: Address, amount: int): Result<State> {
    var balance :- CheckedAdd(SharesOf(v, who), amount);
    Ok(v.(shares := v.shares[who := balance]))
  }

  function SubtractShares(v: State, who: Address, amount: int): Result<State> {
    var _ :- Need(SharesOf(v, who) >= amount, InsufficientBalance);
    var balance :- Minus(SharesOf(v, who), amount);
    Ok(v.(shares := v.shares[who := balance]))
  }

  function SpendAllowance(v: State, sequence: nat, from: Address, spender: Address, amount: int): Result<State> {
    var a := AllowanceOf(v, from, spender);
    var _ :- Need(a.amount >= amount, InsufficientAllowance);
    var _ :- Need(a.liveUntil == 0 || sequence <= a.liveUntil, InsufficientAllowance);
    var left :- Minus(a.amount, amount);
    Ok(v.(allowances := v.allowances[(from, spender) := Allowance(left, a.liveUntil)]))
  }

  function Transfer(v: State, from: Address, to: Address, amount: int): Result<State> {
    var taken :- SubtractShares(v, from, amount);
    AddShares(taken, to, amount)
  }

  function TransferFrom(v: State, sequence: nat, spender: Address, from: Address, to: Address,
      amount: int): Result<State> {
    var spent :- SpendAllowance(v, sequence, from, spender, amount);
    Transfer(spent, from, to, amount)
  }

  function Approve(v: State, sequence: nat, from: Address, spender: Address, amount: int,
      liveUntil: nat): Result<State> {
    var _ :- Need(liveUntil == 0 || sequence <= liveUntil, Trap);
    Ok(v.(allowances := v.allowances[(from, spender) := Allowance(amount, liveUntil)]))
  }

  function Burn(v: State, from: Address, amount: int): Result<State> {
    var taken :- SubtractShares(v, from, amount);
    var total :- Minus(v.storage.totalShares, amount);
    Ok(taken.(storage := v.storage.(totalShares := total)))
  }

  function BurnFrom(v: State, sequence: nat, spender: Address, from: Address, amount: int): Result<State> {
    var spent :- SpendAllowance(v, sequence, from, spender, amount);
    Burn(spent, from, amount)
  }

  // ---- Deposit and withdraw ----

  function Deposit(v: State, from: Address, amount: int): Result<(State, int)> {
    var _ :- Need(amount > 0, ZeroAmount);
    var _ :- Need(v.storage.status == Status.Active, VaultNotActive);
    var nav :- Nav(v);
    var shares :- ToShares(amount, nav, v.storage.totalShares);
    var _ :- Need(shares != 0, ZeroAmount);
    var reserve :- CheckedAdd(v.storage.reserve, amount);
    var total :- CheckedAdd(v.storage.totalShares, shares);
    var minted :- AddShares(v, from, shares);
    Ok((minted.(storage := v.storage.(reserve := reserve, totalShares := total), tokens := v.tokens + amount), shares))
  }

  /** The pull loop's variables: the adapters' positions, what is still needed, what has arrived. */
  datatype Drain = Drain(positions: map<Address, int>, remaining: int, pulled: int)

  function PullStep(s: Storage, d: Drain, id: Symbol): Result<Drain> {
    var adapter := ActiveAdapter(s, id);
    if d.remaining <= 0 || adapter.None? then Ok(d)
    else
      var toWithdraw := Min(d.remaining, Position(d.positions, adapter.value));
      if toWithdraw <= 0 then Ok(d)
      else
        var (positions, actual) := AdapterWithdraw(d.positions, adapter.value, toWithdraw);
        var pulled :- CheckedAdd(d.pulled, actual);
        var remaining :- CheckedSub(d.remaining, actual);
        Ok(Drain(positions, remaining, pulled))
  }

  /** The pull loop after `n` protocols. */
  function PullUpTo(s: Storage, positions: map<Address, int>, needed: int, n: nat): Result<Drain>
    requires n <= |s.ids|
  {
    if n == 0 then Ok(Drain(positions, needed, 0))
    else
      var d :- PullUpTo(s, positions, needed, n - 1);
      PullStep(s, d, s.ids[n - 1])
  }

  /** Takes `amount` from the reserve, or empties it and pulls the rest from the protocols. */
  function Fund(v: State, amount: int): Result<(State, int)> {
    if v.storage.reserve >= amount then
      var reserve :- Minus(v.storage.reserve, amount);
      Ok((v.(storage := v.storage.(reserve := reserve)), amount))
    else
      var needed :- Minus(amount, v.storage.reserve);
      var d :- PullUpTo(v.storage, v.positions, needed, |v.storage.ids|);
      var actual :- Plus(v.storage.reserve, d.pulled);
      Ok((v.(storage := v.storage.(reserve := 0), positions := d.positions, tokens := v.tokens + d.pulled), actual))
  }

  function Withdraw(v: State, from: Address, shares: int): Result<(State, int)> {
    var s := v.storage;
    var _ :- Need(shares > 0, ZeroAmount);
    var _ :- Need(!(s.status.EmergencyExit? && s.reserve == 0), InsufficientLiquidity);
    var _ :- Need(SharesOf(v, from) >= shares, InsufficientShares);
    var nav :- Nav(v);
    var amount :- FromShares(shares, nav, s.totalShares);
    var _ :- Need(amount != 0, ZeroAmount);
    var burned :- SubtractShares(v, from, shares);
    var total :- CheckedSub(s.totalShares, shares);
    var funded :- Fund(burned.(storage := s.(totalShares := total)), amount);
    var paid :- TokenOut(funded.0, funded.1);
    Ok((paid, funded.1))
  }

  // ---- Rebalancing ----

  /** A position in basis points of `nav`; the cast to `u32` drops the high bits. */
  function BpsOf(balance: int, nav: int): Result<U32>
    requires nav != 0
  {
    var scaled :- CheckedMul(balance, BPS);
    var bps :- Fit(TruncDiv(scaled, nav), Trap);
    Ok(bps % TWO_TO_THE_32)
  }

  /** Pulls the excess of one protocol over its target into the reserve. */
  function TakeExcess(v: State, adapter: Address, excessBps: int, nav: int): Result<State> {
    var product :- CheckedMul(excessBps, nav);
    var (positions, actual) := AdapterWithdraw(v.positions, adapter, TruncDiv(product, BPS));
    var reserve :- CheckedAdd(v.storage.reserve, actual);
    Ok(v.(storage := v.storage.(reserve := reserve), positions := positions, tokens := v.tokens + actual))
  }

  /** Deploys what one protocol lacks, as far as the reserve goes. */
  function DeployShortfall(v: State, adapter: Address, lackingBps: int, nav: int): Result<State> {
    var product :- CheckedMul(lackingBps, nav);
    var toDeploy := Min(TruncDiv(product, BPS), v.storage.reserve);
    if toDeploy == 0 then Ok(v)
    else
      var paid :- TokenOut(v, toDeploy);
      var reserve :- CheckedSub(v.storage.reserve, toDeploy);
      Ok(paid.(storage := v.storage.(reserve := reserve), positions := AdapterDeposit(v.positions, adapter, toDeploy)))
  }

  function RebalanceStep(v: State, nav: int, id: Symbol): Result<State>
    requires nav != 0
  {
    var adapter := ActiveAdapter(v.storage, id);
    if adapter.None? then Ok(v)
    else
      var current :- BpsOf(Position(v.positions, adapter.value), nav);
      var target := v.storage.allocations[id].targetBps;
      if Max(current - target, target - current) < v.storage.config.rebalanceThresholdBps then Ok(v)
      else if current > target then TakeExcess(v, adapter.value, current - target, nav)
      else DeployShortfall(v, adapter.value, target - current, nav)
  }

  /** The rebalance loop after `n` protocols. */
  function RebalanceUpTo(v: State, nav: int, n: nat): Result<State>
    requires nav != 0 && n <= |v.storage.ids|
    ensures RebalanceUpTo(v, nav, n).Ok? ==> RebalanceUpTo(v, nav, n).value.storage.ids == v.storage.ids
  {
    if n == 0 then Ok(v)
    else
      var mid :- RebalanceUpTo(v, nav, n - 1);
      RebalanceStep(mid, nav, v.storage.ids[n - 1])
  }

  /** With nothing under management there is nothing to move. */
  function Rebalance(v: State): Result<State> {
    var nav :- Nav(v);
    if nav == 0 then Ok(v) else RebalanceUpTo(v, nav, |v.storage.ids|)
  }

  // ---- Administration ----

  /** Drains one active protocol into the reserve and marks it inactive. */
  function ExitStep(v: State, id: Symbol): Result<State> {
    var adapter := ActiveAdapter(v.storage, id);
    if adapter.None? then Ok(v)
    else
      var balance := Position(v.positions, adapter.value);
      var off := v.storage.allocations[id := v.storage.allocations[id].(active := false)];
      if balance > 0 then
        var (positions, actual) := AdapterWithdraw(v.positions, adapter.value, balance);
        var reserve :- Plus(v.storage.reserve, actual);
        Ok(v.(storage := v.storage.(reserve := reserve, allocations := off), positions := positions,
          tokens := v.tokens + actual))
      else
        Ok(v.(storage := v.storage.(allocations := off)))
  }

  function ExitUpTo(v: State, n: nat): Result<State>
    requires n <= |v.storage.ids|
  {
    if n == 0 then Ok(v)
    else
      var mid :- ExitUpTo(v, n - 1);
      ExitStep(mid, v.storage.ids[n - 1])
  }

  function EmergencyExits(v: State): Result<State> {
    var drained :- ExitUpTo(v, |v.storage.ids|);
    Ok(drained.(storage := drained.storage.(status := Status.EmergencyExit)))
  }

  function SetStatus(v: State, status: Status): State {
    v.(storage := v.storage.(status := status))
  }

  function SetConfig(v: State, config: Config): Result<State> {
    var _ :- Need(
      && config.minLiquidityBps <= BPS && config.maxProtocolBps <= BPS
      && config.managementFeeBps <= 1_000 && config.performanceFeeBps <= 5_000, InvalidConfig);
    Ok(v.(storage := v.storage.(config := config)))
  }

  function AddProtocol(v: State, id: Symbol, adapter: Address, targetBps: U32): Result<State> {
    var s := v.storage;
    var _ :- Need(|s.ids| < MAX_PROTOCOLS, MaxProtocolsReached);
    var _ :- Need(id !in s.allocations, ProtocolAlreadyExists);
    var _ :- Need(targetBps <= BPS, InvalidConfig);
    Ok(v.(storage := s.(ids := s.ids + [id], allocations := s.allocations[id := Allocation(adapter, targetBps, true)])))
  }

  function Without(ids: seq<Symbol>, id: Symbol): seq<Symbol> {
    if ids == [] then []
    else Without(ids[..|ids| - 1], id) + if ids[|ids| - 1] == id then [] else [ids[|ids| - 1]]
  }

  function RemoveProtocol(v: State, id: Symbol): Result<State> {
    var s := v.storage;
    var _ :- Need(id in s.allocations, ProtocolNotFound);
    Ok(v.(storage := s.(ids := Without(s.ids, id), allocations := s.allocations - {id})))
  }

  function SetProtocolActive(v: State, id: Symbol, active: bool): Result<State> {
    var s := v.storage;
    if id !in s.allocations then Err(ProtocolNotFound)
    else Ok(v.(storage := s.(allocations := s.allocations[id := s.allocations[id].(active := active)])))
  }

  // ---- Fees, paid to the administrator in new shares ----

  /** Mints shares worth `fee` at `price`; a zero price is an arithmetic error. */
  function MintFee(v: State, fee: int, price: int): Result<State> {
    var scaled :- CheckedMul(fee, SCALAR_7);
    var feeShares :- CheckedDiv(scaled, price);
    if feeShares <= 0 then Ok(v)
    else
      var minted :- AddShares(v, v.storage.admin, feeShares);
      var total :- CheckedAdd(v.storage.totalShares, feeShares);
      Ok(minted.(storage := v.storage.(totalShares := total)))
  }

  /** `unwrap_or(0)` on a `u128` product: a product out of range counts as zero. */
  function OrZero(x: int): int {
    if x <= U128_MAX then x else 0
  }

  /** The year's fee, prorated; `nav as u128` wraps a negative value.  The quotient is far inside
      `i128`, so the cast back loses nothing. */
  function ManagementFee(nav: int, feeBps: U32, elapsed: nat): int {
    var wide := if nav >= 0 then nav else nav + U128_MAX + 1;
    OrZero(OrZero(wide * feeBps) * elapsed) / BPS / SECONDS_PER_YEAR
  }

  function AccrueManagementFee(v: State, now: nat): Result<State> {
    var s := v.storage;
    var elapsed := Max(now - s.lastFeeAccrual, 0);
    if elapsed == 0 || s.config.managementFeeBps == 0 then Ok(v)
    else
      var nav :- Nav(v);
      var fee := if nav == 0 then 0 else ManagementFee(nav, s.config.managementFeeBps, elapsed);
      if fee > 0 && s.totalShares > 0 then
        var price :- SharePrice(nav, s.totalShares);
        var charged :- MintFee(v, fee, price);
        Ok(charged.(storage := charged.storage.(lastFeeAccrual := now)))
      else
        Ok(v.(storage := s.(lastFeeAccrual := now)))
  }

  /** Harvesting brings `harvested` deposit tokens into the reserve, then charges the management fee. */
  function HarvestAll(v: State, now: nat, harvested: int): Result<State> {
    var reserve :- CheckedAdd(v.storage.reserve, harvested);
    AccrueManagementFee(v.(storage := v.storage.(reserve := reserve), tokens := v.tokens + harvested), now)
  }

  function ApplyPerformanceFee(v: State): Result<State> {
    var s := v.storage;
    if s.config.performanceFeeBps == 0 || s.totalShares == 0 then Ok(v)
    else
      var nav :- Nav(v);
      var price :- SharePrice(nav, s.totalShares);
      if price <= s.highWaterMark then Ok(v)
      else
        var rise :- CheckedSub(price, s.highWaterMark);
        var scaled :- CheckedMul(rise, s.totalShares);
        var gains :- CheckedDiv(scaled, SCALAR_7);
        var charge :- CheckedMul(gains, s.config.performanceFeeBps);
        var fee :- CheckedDiv(charge, BPS);
        var charged :- if fee > 0 then MintFee(v, fee, price) else Ok(v);
        Ok(charged.(storage := charged.storage.(highWaterMark := price)))
  }
}
