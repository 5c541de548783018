/** Rebalancing moves funds between the reserve and the adapters, and where it acts it hits its target. */
module RebalanceFacts {
  import opened FixedPoint
  import opened VaultRules
  import opened VaultFunds

  /** Where the rebalance loop stands after `n` protocols. */
  ghost predicate Rebalanced(v: State, n: nat, w: State)
    requires n <= |v.storage.ids|
  {
    && w.storage == v.storage.(reserve := w.storage.reserve)
    && w == v.(storage := w.storage, positions := w.positions, tokens := w.tokens)
    && w.storage.reserve >= 0
    && NonNegative(w.positions)
    && w.tokens - w.storage.reserve == v.tokens - v.storage.reserve
    && (DistinctAdapters(v.storage) ==> NetValue(w) == NetValue(v))
    && (forall a: Address :: !Uses(v.storage, a, n) ==> Position(w.positions, a) == Position(v.positions, a))
  }

  /** One adapter gains what the reserve loses. */
  ghost predicate Swap(v: State, w: State, adapter: Address, gain: int) {
    && w == v.(storage := w.storage, positions := w.positions, tokens := w.tokens)
    && w.storage == v.storage.(reserve := v.storage.reserve - gain)
    && w.tokens == v.tokens - gain
    && w.positions == v.positions[adapter := Position(v.positions, adapter) + gain]
    && 0 <= w.storage.reserve && 0 <= Position(w.positions, adapter)
  }

  lemma SwapKeepsValue(v: State, w: State, k: nat, gain: int)
    requires DistinctAdapters(v.storage) && k < |v.storage.ids| && ActiveAdapter(v.storage, v.storage.ids[k]).Some?
    requires Swap(v, w, ActiveAdapter(v.storage, v.storage.ids[k]).value, gain)
    ensures NetValue(w) == NetValue(v)
  {
    var adapter := ActiveAdapter(v.storage, v.storage.ids[k]).value;
    ValueMoved(v.storage, v.positions, k, Position(v.positions, adapter) + gain, |v.storage.ids|);
    ValueFrame(v.storage, w.storage, w.positions, |v.storage.ids|);
  }

  /** How much a step moves into the adapter: nothing inside the threshold, down to the target
      above it, and up to the target below it as far as the reserve goes. */
  function Gain(v: State, nav: int, id: Symbol): int
    requires nav > 0 && ActiveAdapter(v.storage, id).Some?
  {
    var balance := Position(v.positions, v.storage.allocations[id].adapter);
    var current := FloorDiv(balance * BPS, nav) % TWO_TO_THE_32;
    var target := v.storage.allocations[id].targetBps;
    if Max(current - target, target - current) < v.storage.config.rebalanceThresholdBps then 0
    else if current > target then -Min(FloorDiv((current - target) * nav, BPS), balance)
    else Min(FloorDiv((target - current) * nav, BPS), v.storage.reserve)
  }

  lemma BpsIs(balance: int, nav: int)
    requires balance >= 0 && nav > 0 && BpsOf(balance, nav).Ok?
    ensures BpsOf(balance, nav).value == FloorDiv(balance * BPS, nav) % TWO_TO_THE_32
  {
  }

  lemma TakeSwaps(v: State, adapter: Address, excessBps: int, nav: int)
    requires excessBps > 0 && nav > 0 && TakeExcess(v, adapter, excessBps, nav).Ok?
    requires v.storage.reserve >= 0 && Position(v.positions, adapter) >= 0
    ensures Swap(v, TakeExcess(v, adapter, excessBps, nav).value, adapter,
                 -Min(FloorDiv(excessBps * nav, BPS), Position(v.positions, adapter)))
  {
    MulSign(excessBps, nav);
    FloorNonNegative(excessBps * nav, BPS);
  }

  lemma DeploySwaps(v: State, adapter: Address, lackingBps: int, nav: int)
    requires lackingBps >= 0 && nav > 0 && DeployShortfall(v, adapter, lackingBps, nav).Ok?
    requires v.storage.reserve >= 0 && Position(v.positions, adapter) >= 0
    ensures var w := DeployShortfall(v, adapter, lackingBps, nav).value;
            var gain := Min(FloorDiv(lackingBps * nav, BPS), v.storage.reserve);
            if gain == 0 then w == v else Swap(v, w, adapter, gain)
  {
    MulSign(lackingBps, nav);
    FloorNonNegative(lackingBps * nav, BPS);
  }

  lemma StepSwaps(v: State, nav: int, id: Symbol)
    requires nav > 0 && v.storage.reserve >= 0 && NonNegative(v.positions) && RebalanceStep(v, nav, id).Ok?
    ensures var adapter := ActiveAdapter(v.storage, id);
            var w := RebalanceStep(v, nav, id).value;
            if adapter.None? then w == v
            else w == v || Swap(v, w, adapter.value, Gain(v, nav, id))
    ensures var adapter := ActiveAdapter(v.storage, id);
            adapter.Some? ==>
              Position(RebalanceStep(v, nav, id).value.positions, adapter.value)
                == Position(v.positions, adapter.value) + Gain(v, nav, id)
  {
    var adapter := ActiveAdapter(v.storage, id);
    if adapter.Some? {
      var balance := Position(v.positions, adapter.value);
      var target: int := v.storage.allocations[id].targetBps;
      var current: int := BpsOf(balance, nav).value;
      BpsIs(balance, nav);
      hide TakeExcess, DeployShortfall, FloorDiv, BpsOf;
      if Max(current - target, target - current) >= v.storage.config.rebalanceThresholdBps {
        if current > target {
          TakeSwaps(v, adapter.value, current - target, nav);
        } else {
          DeploySwaps(v, adapter.value, target - current, nav);
        }
      }
    }
  }

  lemma MulSign(x: int, y: int)
    requires y > 0
    ensures x >= 0 ==> x * y >= 0
    ensures x <= 0 ==> -x * y >= 0
  {
  }

  lemma SwapKeeps(v: State, n: nat, w: State, x: State, gain: int)
    requires n < |v.storage.ids| && Rebalanced(v, n, w) && ActiveAdapter(v.storage, v.storage.ids[n]).Some?
    requires Swap(w, x, ActiveAdapter(v.storage, v.storage.ids[n]).value, gain)
    ensures Rebalanced(v, n + 1, x)
  {
    var adapter := ActiveAdapter(v.storage, v.storage.ids[n]).value;
    UsesNext(v.storage, n);
    DistinctFrame(v.storage, w.storage);
    if DistinctAdapters(v.storage) {
      SwapKeepsValue(w, x, n, gain);
    }
    hide Uses, NetValue, DistinctAdapters, ActiveAdapter;
    assert forall a: Address :: a != adapter ==> Position(x.positions, a) == Position(w.positions, a);
  }

  lemma IdleKeeps(v: State, n: nat, w: State)
    requires n < |v.storage.ids| && Rebalanced(v, n, w)
    ensures Rebalanced(v, n + 1, w)
  {
    UsesNext(v.storage, n);
    hide Uses, NetValue, DistinctAdapters, ActiveAdapter;
  }

  lemma StepKeeps(v: State, nav: int, n: nat, w: State)
    requires nav > 0 && n < |v.storage.ids| && Rebalanced(v, n, w)
    requires RebalanceStep(w, nav, v.storage.ids[n]).Ok?
    ensures Rebalanced(v, n + 1, RebalanceStep(w, nav, v.storage.ids[n]).value)
  {
    var id := v.storage.ids[n];
    StepSwaps(w, nav, id);
    assert ActiveAdapter(w.storage, id) == ActiveAdapter(v.storage, id);
    hide RebalanceStep, Rebalanced, Swap;
    if RebalanceStep(w, nav, id).value == w {
      IdleKeeps(v, n, w);
    } else {
      SwapKeeps(v, n, w, RebalanceStep(w, nav, id).value, Gain(w, nav, id));
    }
  }

  lemma RebalanceStarts(v: State)
    requires v.storage.reserve >= 0 && NonNegative(v.positions)
    ensures Rebalanced(v, 0, v)
  {
  }

  lemma {:induction false} RebalanceKeeps(v: State, nav: int, n: nat)
    requires nav > 0 && n <= |v.storage.ids| && RebalanceUpTo(v, nav, n).Ok?
    requires v.storage.reserve >= 0 && NonNegative(v.positions)
    ensures Rebalanced(v, n, RebalanceUpTo(v, nav, n).value)
  {
    hide Rebalanced, RebalanceStep, NonNegative;
    if n == 0 {
      RebalanceStarts(v);
    } else {
      RebalanceKeeps(v, nav, n - 1);
      StepKeeps(v, nav, n - 1, RebalanceUpTo(v, nav, n - 1).value);
    }
  }

  /** Rebalancing conserves net asset value and never overdraws the reserve. */
  lemma RebalanceConserves(v: State)
    requires Rebalance(v).Ok? && v.storage.reserve >= 0 && FitsI128(v.storage.reserve) && NonNegative(v.positions)
    ensures var w := Rebalance(v).value;
            && w.storage == v.storage.(reserve := w.storage.reserve) && w.storage.reserve >= 0
            && w == v.(storage := w.storage, positions := w.positions, tokens := w.tokens)
            && NonNegative(w.positions)
            && w.tokens - w.storage.reserve == v.tokens - v.storage.reserve
            && (DistinctAdapters(v.storage) ==> NetValue(w) == NetValue(v))
  {
    var n := |v.storage.ids|;
    NavIsNetValue(v, n);
    ValueNonNegative(v.storage, v.positions, n);
    if NetValue(v) != 0 {
      RebalanceKeeps(v, NetValue(v), n);
    }
  }

  /** Once its turn is over, a protocol's adapter is left alone. */
  lemma {:induction false} LaterStepsLeave(v: State, nav: int, k: nat, n: nat)
    requires nav > 0 && k < n <= |v.storage.ids| && RebalanceUpTo(v, nav, n).Ok?
    requires v.storage.reserve >= 0 && NonNegative(v.positions) && DistinctAdapters(v.storage)
    requires ActiveAdapter(v.storage, v.storage.ids[k]).Some?
    ensures RebalanceUpTo(v, nav, k + 1).Ok?
    ensures var a := ActiveAdapter(v.storage, v.storage.ids[k]).value;
            Position(RebalanceUpTo(v, nav, n).value.positions, a)
              == Position(RebalanceUpTo(v, nav, k + 1).value.positions, a)
  {
    if k + 1 < n {
      LaterStepsLeave(v, nav, k, n - 1);
      var w := RebalanceUpTo(v, nav, n - 1).value;
      RebalanceKeeps(v, nav, n - 1);
      StepSwaps(w, nav, v.storage.ids[n - 1]);
      assert ActiveAdapter(w.storage, v.storage.ids[n - 1]) == ActiveAdapter(v.storage, v.storage.ids[n - 1]);
      assert ActiveAdapter(v.storage, v.storage.ids[k]) != ActiveAdapter(v.storage, v.storage.ids[n - 1]);
      hide RebalanceStep, Rebalanced, Gain;
    }
  }

  /** One position is at most the whole. */
  lemma {:induction false} PositionWithin(s: Storage, positions: map<Address, int>, k: nat, n: nat)
    requires k < n <= |s.ids| && NonNegative(positions) && ActiveAdapter(s, s.ids[k]).Some?
    ensures 0 <= Position(positions, ActiveAdapter(s, s.ids[k]).value) <= Value(s, positions, n)
  {
    ValueNonNegative(s, positions, n - 1);
    if k < n - 1 {
      PositionWithin(s, positions, k, n - 1);
    }
  }

  /** When protocol `k`'s turn comes, its position is still the one it began with. */
  lemma TurnStarts(v: State, nav: int, k: nat)
    requires nav == NetValue(v) > 0 && k < |v.storage.ids| && Rebalance(v).Ok?
    requires v.storage.reserve >= 0 && FitsI128(v.storage.reserve) && NonNegative(v.positions)
      && DistinctAdapters(v.storage)
    requires ActiveAdapter(v.storage, v.storage.ids[k]).Some?
    ensures Rebalance(v) == RebalanceUpTo(v, nav, |v.storage.ids|)
    ensures RebalanceUpTo(v, nav, k).Ok?
    ensures RebalanceUpTo(v, nav, k + 1) == RebalanceStep(RebalanceUpTo(v, nav, k).value, nav, v.storage.ids[k])
    ensures var a := ActiveAdapter(v.storage, v.storage.ids[k]).value;
            var w := RebalanceUpTo(v, nav, k).value;
            && Position(w.positions, a) == Position(v.positions, a)
            && w.storage == v.storage.(reserve := w.storage.reserve)
            && w.storage.reserve >= 0 && NonNegative(w.positions)
  {
    var n := |v.storage.ids|;
    NavIsNetValue(v, n);
    LaterStepsLeave(v, nav, k, n);
    RebalanceKeeps(v, nav, k);
    assert !Uses(v.storage, ActiveAdapter(v.storage, v.storage.ids[k]).value, k);
    hide RebalanceStep, NonNegative, Value;
  }

  /** What a rebalance does to protocol `k`, from its position and the reserve when its turn comes:
      the share of `nav` it held, `current`, is one rounding below its true share. */
  lemma PositionAfter(v: State, k: nat)
    requires Rebalance(v).Ok? && NetValue(v) > 0 && k < |v.storage.ids|
    requires v.storage.reserve >= 0 && FitsI128(v.storage.reserve) && NonNegative(v.positions)
      && DistinctAdapters(v.storage)
    requires ActiveAdapter(v.storage, v.storage.ids[k]).Some?
    ensures RebalanceUpTo(v, NetValue(v), k).Ok?
    ensures var a := ActiveAdapter(v.storage, v.storage.ids[k]).value;
            var nav, balance := NetValue(v), Position(v.positions, a);
            var current, target := FloorDiv(balance * BPS, nav), v.storage.allocations[v.storage.ids[k]].targetBps;
            var reserve := RebalanceUpTo(v, nav, k).value.storage.reserve;
            && 0 <= current <= BPS && reserve >= 0
            && Position(Rebalance(v).value.positions, a) == balance
                 + if Max(current - target, target - current) < v.storage.config.rebalanceThresholdBps then 0
                   else if current > target then -Min(FloorDiv((current - target) * nav, BPS), balance)
                   else Min(FloorDiv((target - current) * nav, BPS), reserve)
  {
    hide RebalanceStep, RebalanceUpTo, NavUpTo, Uses, Value, DistinctAdapters, FloorDiv, NonNegative;
    var id, nav, n := v.storage.ids[k], NetValue(v), |v.storage.ids|;
    var a := ActiveAdapter(v.storage, id).value;
    TurnStarts(v, nav, k);
    var w := RebalanceUpTo(v, nav, k).value;
    LaterStepsLeave(v, nav, k, n);
    StepSwaps(w, nav, id);
    PositionWithin(v.storage, v.positions, k, n);
    ShareIsBps(Position(v.positions, a), nav);
  }

  lemma ShareIsBps(balance: int, nav: int)
    requires 0 <= balance <= nav && 0 < nav
    ensures 0 <= FloorDiv(balance * BPS, nav) <= BPS
  {
    FloorNonNegative(balance * BPS, nav);
    FloorMono(balance * BPS, nav * BPS, nav);
    FloorIsGreatest(nav * BPS, nav, BPS);
    var q := FloorDiv(nav * BPS, nav);
    MulCancelLess(q, BPS + 1, nav);
  }

  /** Above target and beyond the threshold: down to less than one basis point and one rounding over it. */
  lemma OverTargetLands(balance: int, nav: int, target: int)
    requires 0 <= balance && 0 < nav && 0 <= target < FloorDiv(balance * BPS, nav)
    ensures var excess := FloorDiv((FloorDiv(balance * BPS, nav) - target) * nav, BPS);
            && 0 <= excess <= balance
            && target * nav <= (balance - excess) * BPS < (target + 1) * nav + BPS
  {
    var current := FloorDiv(balance * BPS, nav);
    var excess := FloorDiv((current - target) * nav, BPS);
    assert (current - target) * nav == current * nav - target * nav;
    assert (current + 1) * nav == current * nav + nav && (target + 1) * nav == target * nav + nav;
    MulSign(target, nav);
    MulSign(current - target, nav);
    FloorIsGreatest((current - target) * nav, BPS, 0);
    MulCancel(excess, balance, BPS);
  }

  /** Below target with the need covered: up to it, short of at most one rounding. */
  lemma UnderTargetLands(balance: int, nav: int, target: int)
    requires 0 <= balance && 0 < nav && FloorDiv(balance * BPS, nav) <= target
    ensures var need := FloorDiv((target - FloorDiv(balance * BPS, nav)) * nav, BPS);
            && 0 <= need
            && target * nav - BPS < (balance + need) * BPS < (target + 1) * nav
  {
    var current := FloorDiv(balance * BPS, nav);
    var need := FloorDiv((target - current) * nav, BPS);
    assert (target - current) * nav == target * nav - current * nav;
    assert (current + 1) * nav == current * nav + nav && (target + 1) * nav == target * nav + nav;
    MulSign(target - current, nav);
    FloorIsGreatest((target - current) * nav, BPS, 0);
  }

  /** Where each protocol ends.  Inside the threshold it keeps its position; above it lands on its
      target; below it lands on its target when the reserve at its turn covers the need, and takes
      the whole reserve when it does not. */
  lemma RebalanceHitsTargets(v: State, k: nat)
    requires Rebalance(v).Ok? && NetValue(v) > 0 && k < |v.storage.ids|
    requires v.storage.reserve >= 0 && FitsI128(v.storage.reserve) && NonNegative(v.positions)
      && DistinctAdapters(v.storage)
    requires ActiveAdapter(v.storage, v.storage.ids[k]).Some?
    ensures RebalanceUpTo(v, NetValue(v), k).Ok?
    ensures var a := ActiveAdapter(v.storage, v.storage.ids[k]).value;
            var nav, before, after := NetValue(v), Position(v.positions, a), Position(Rebalance(v).value.positions, a);
            var current, target := FloorDiv(before * BPS, nav), v.storage.allocations[v.storage.ids[k]].targetBps;
            var reserve := RebalanceUpTo(v, nav, k).value.storage.reserve;
            if Max(current - target, target - current) < v.storage.config.rebalanceThresholdBps then
              after == before
            else if current > target then
              target * nav <= after * BPS < (target + 1) * nav + BPS
            else if FloorDiv((target - current) * nav, BPS) <= reserve then
              target * nav - BPS < after * BPS < (target + 1) * nav
            else
              after == before + reserve
  {
    hide Rebalance, RebalanceUpTo, NetValue, Position, FloorDiv, DistinctAdapters, NonNegative;
    var id, nav := v.storage.ids[k], NetValue(v);
    var balance := Position(v.positions, ActiveAdapter(v.storage, id).value);
    var target: int := v.storage.allocations[id].targetBps;
    PositionAfter(v, k);
    if FloorDiv(balance * BPS, nav) > target {
      OverTargetLands(balance, nav, target);
    } else {
      UnderTargetLands(balance, nav, target);
    }
  }
}
