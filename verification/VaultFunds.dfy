/** What the vault's loops do to its net asset value. */
module VaultFunds {
  import opened Outcomes
  import opened FixedPoint
  import opened VaultRules

  /** The positions of the first `n` protocols, as a plain sum; one adapter may be counted twice. */
  function Value(s: Storage, positions: map<Address, int>, n: nat): int
    requires n <= |s.ids|
  {
    if n == 0 then 0
    else
      var adapter := ActiveAdapter(s, s.ids[n - 1]);
      Value(s, positions, n - 1) + if adapter.None? then 0 else Position(positions, adapter.value)
  }

  function NetValue(v: State): int {
    v.storage.reserve + Value(v.storage, v.positions, |v.storage.ids|)
  }

  /** One of the first `n` protocols is active and stands on `adapter`. */
  ghost predicate Uses(s: Storage, adapter: Address, n: nat)
    requires n <= |s.ids|
  {
    exists k :: 0 <= k < n && ActiveAdapter(s, s.ids[k]) == Some(adapter)
  }

  /** No two active protocols share an adapter. */
  ghost predicate DistinctAdapters(s: Storage) {
    forall i, j :: 0 <= i < j < |s.ids| && ActiveAdapter(s, s.ids[i]).Some? ==>
      ActiveAdapter(s, s.ids[i]) != ActiveAdapter(s, s.ids[j])
  }

  /** The positions of the first `n` protocols, each adapter counted once: what can be withdrawn. */
  ghost function Reach(s: Storage, positions: map<Address, int>, n: nat): int
    requires n <= |s.ids|
  {
    if n == 0 then 0
    else
      var adapter := ActiveAdapter(s, s.ids[n - 1]);
      Reach(s, positions, n - 1)
        + if adapter.None? || Uses(s, adapter.value, n - 1) then 0 else Position(positions, adapter.value)
  }

  ghost predicate NonNegative(positions: map<Address, int>) {
    forall a: Address :: Position(positions, a) >= 0
  }

  /** The NAV loop computes the plain sum. */
  lemma {:induction false} NavIsNetValue(v: State, n: nat)
    requires n <= |v.storage.ids| && FitsI128(v.storage.reserve)
    ensures var sum := v.storage.reserve + Value(v.storage, v.positions, n);
            NavUpTo(v, n).Ok? ==> NavUpTo(v, n).value == sum && FitsI128(sum)
  {
    if n > 0 {
      NavIsNetValue(v, n - 1);
    }
  }

  /** A sum that fits, over positions none of which is negative, never overflows on the way. */
  lemma {:induction false} NavSucceeds(v: State, n: nat)
    requires n <= |v.storage.ids| && NonNegative(v.positions)
    requires 0 <= v.storage.reserve && FitsI128(v.storage.reserve + Value(v.storage, v.positions, n))
    ensures NavUpTo(v, n) == Ok(v.storage.reserve + Value(v.storage, v.positions, n))
  {
    if n > 0 {
      ValueNonNegative(v.storage, v.positions, n - 1);
      NavSucceeds(v, n - 1);
    }
  }

  lemma {:induction false} ValueNonNegative(s: Storage, positions: map<Address, int>, n: nat)
    requires n <= |s.ids| && NonNegative(positions)
    ensures Value(s, positions, n) >= 0
  {
    if n > 0 {
      ValueNonNegative(s, positions, n - 1);
    }
  }

  /** Moving a position no protocol stands on changes nothing. */
  lemma {:induction false} ValueElsewhere(s: Storage, positions: map<Address, int>, adapter: Address, x: int, n: nat)
    requires n <= |s.ids| && !Uses(s, adapter, n)
    ensures Value(s, positions[adapter := x], n) == Value(s, positions, n)
  {
    if n > 0 {
      assert ActiveAdapter(s, s.ids[n - 1]) != Some(adapter);
      ValueElsewhere(s, positions, adapter, x, n - 1);
    }
  }

  /** Moving one adapter's position moves the sum by as much, when adapters are distinct. */
  lemma {:induction false} ValueMoved(s: Storage, positions: map<Address, int>, k: nat, x: int, n: nat)
    requires DistinctAdapters(s) && k < n <= |s.ids| && ActiveAdapter(s, s.ids[k]).Some?
    ensures var adapter := ActiveAdapter(s, s.ids[k]).value;
            Value(s, positions[adapter := x], n) == Value(s, positions, n) + x - Position(positions, adapter)
  {
    var adapter := ActiveAdapter(s, s.ids[k]).value;
    if k == n - 1 {
      assert !Uses(s, adapter, n - 1);
      ValueElsewhere(s, positions, adapter, x, n - 1);
    } else {
      ValueMoved(s, positions, k, x, n - 1);
    }
  }

  /** With distinct adapters everything counted can be withdrawn; in general, no more than that. */
  lemma {:induction false} ReachIsValue(s: Storage, positions: map<Address, int>, n: nat)
    requires n <= |s.ids|
    ensures DistinctAdapters(s) ==> Reach(s, positions, n) == Value(s, positions, n)
    ensures NonNegative(positions) ==> 0 <= Reach(s, positions, n) <= Value(s, positions, n)
  {
    if n > 0 {
      ReachIsValue(s, positions, n - 1);
    }
  }

  // ---- The pull loop ----

  /** Where the pull loop stands after `n` protocols. */
  ghost predicate Pulled(s: Storage, positions: map<Address, int>, needed: int, n: nat, d: Drain)
    requires n <= |s.ids|
  {
    && d.pulled == Min(needed, Reach(s, positions, n))
    && d.remaining == needed - d.pulled
    && NonNegative(d.positions)
    && (forall a: Address :: !Uses(s, a, n) ==> Position(d.positions, a) == Position(positions, a))
    && (d.remaining > 0 ==> forall a: Address :: Uses(s, a, n) ==> Position(d.positions, a) == 0)
  }

  lemma UsesNext(s: Storage, n: nat)
    requires n < |s.ids|
    ensures forall a: Address :: Uses(s, a, n + 1) <==> Uses(s, a, n) || ActiveAdapter(s, s.ids[n]) == Some(a)
  {
    forall a: Address
      ensures Uses(s, a, n + 1) <==> Uses(s, a, n) || ActiveAdapter(s, s.ids[n]) == Some(a)
    {
      if Uses(s, a, n) {
        var k :| 0 <= k < n && ActiveAdapter(s, s.ids[k]) == Some(a);
        assert 0 <= k < n + 1;
      }
      if ActiveAdapter(s, s.ids[n]) == Some(a) {
        assert 0 <= n < n + 1;
      }
    }
  }

  lemma PullStepKeeps(s: Storage, positions: map<Address, int>, needed: int, n: nat, d: Drain)
    requires n < |s.ids| && 0 <= needed <= I128_MAX && NonNegative(positions)
    requires Pulled(s, positions, needed, n, d)
    ensures PullStep(s, d, s.ids[n]).Ok? && Pulled(s, positions, needed, n + 1, PullStep(s, d, s.ids[n]).value)
  {
    UsesNext(s, n);
    ReachIsValue(s, positions, n);
    ReachIsValue(s, positions, n + 1);
    var adapter := ActiveAdapter(s, s.ids[n]);
    hide Uses;
    if adapter.Some? && d.remaining > 0 {
      var a := adapter.value;
      var balance := Position(d.positions, a);
      assert balance == if Uses(s, a, n) then 0 else Position(positions, a);
      if Min(d.remaining, balance) > 0 {
        var after := d.positions[a := balance - Min(d.remaining, balance)];
        assert forall b: Address :: Position(after, b) == if b == a then balance - Min(d.remaining, balance)
          else Position(d.positions, b);
      }
    }
  }

  /** The loop delivers all that is needed, or all there is. */
  lemma {:induction false} PullTakes(s: Storage, positions: map<Address, int>, needed: int, n: nat)
    requires n <= |s.ids| && 0 <= needed <= I128_MAX && NonNegative(positions)
    ensures PullUpTo(s, positions, needed, n).Ok?
    ensures Pulled(s, positions, needed, n, PullUpTo(s, positions, needed, n).value)
  {
    if n > 0 {
      PullTakes(s, positions, needed, n - 1);
      PullStepKeeps(s, positions, needed, n - 1, PullUpTo(s, positions, needed, n - 1).value);
    }
  }

  /** Every unit pulled leaves the plain sum, when adapters are distinct. */
  lemma {:induction false} PullMovesValue(s: Storage, positions: map<Address, int>, needed: int, n: nat)
    requires n <= |s.ids| && DistinctAdapters(s) && PullUpTo(s, positions, needed, n).Ok?
    ensures var d := PullUpTo(s, positions, needed, n).value;
            Value(s, d.positions, |s.ids|) == Value(s, positions, |s.ids|) - d.pulled
  {
    if n > 0 {
      PullMovesValue(s, positions, needed, n - 1);
      var d := PullUpTo(s, positions, needed, n - 1).value;
      var adapter := ActiveAdapter(s, s.ids[n - 1]);
      if adapter.Some? {
        var x := Position(d.positions, adapter.value) - Min(d.remaining, Position(d.positions, adapter.value));
        ValueMoved(s, d.positions, n - 1, x, |s.ids|);
      }
    }
  }

  // ---- Funding a withdrawal ----

  /** What the vault can pay out is the reserve and each adapter's position once. */
  lemma FundTakes(v: State, amount: int)
    requires Fund(v, amount).Ok? && 0 <= amount <= I128_MAX && v.storage.reserve >= 0 && NonNegative(v.positions)
    ensures var (w, actual) := Fund(v, amount).value;
            && actual == Min(amount, v.storage.reserve + Reach(v.storage, v.positions, |v.storage.ids|))
            && w.storage == v.storage.(reserve := Max(v.storage.reserve - amount, 0))
            && NonNegative(w.positions)
            && w == v.(storage := w.storage, positions := w.positions, tokens := w.tokens)
            && w.tokens - actual - w.storage.reserve == v.tokens - v.storage.reserve
            && (DistinctAdapters(v.storage) ==> NetValue(w) == NetValue(v) - actual)
  {
    var n := |v.storage.ids|;
    ReachIsValue(v.storage, v.positions, n);
    var w := Fund(v, amount).value.0;
    if v.storage.reserve >= amount {
      ValueFrame(v.storage, w.storage, v.positions, n);
    } else {
      var needed := amount - v.storage.reserve;
      PullTakes(v.storage, v.positions, needed, n);
      ValueFrame(v.storage, w.storage, w.positions, n);
      if DistinctAdapters(v.storage) {
        PullMovesValue(v.storage, v.positions, needed, n);
      }
    }
  }

  /** The sum reads only the protocols and the positions. */
  lemma {:induction false} ValueFrame(s: Storage, t: Storage, positions: map<Address, int>, n: nat)
    requires n <= |s.ids| && s.ids == t.ids && s.allocations == t.allocations
    ensures Value(s, positions, n) == Value(t, positions, n)
  {
    if n > 0 {
      ValueFrame(s, t, positions, n - 1);
    }
  }

  lemma DistinctFrame(s: Storage, t: Storage)
    requires s.ids == t.ids && s.allocations == t.allocations
    ensures DistinctAdapters(s) <==> DistinctAdapters(t)
  {
  }

  // ---- The exit loop ----

  /** Where the exit loop stands after `n` protocols. */
  ghost predicate Exited(v: State, n: nat, w: State)
    requires n <= |v.storage.ids|
  {
    && w.storage.reserve == v.storage.reserve + Reach(v.storage, v.positions, n)
    && w.tokens - w.storage.reserve == v.tokens - v.storage.reserve
    && w.storage == v.storage.(reserve := w.storage.reserve, allocations := w.storage.allocations)
    && w == v.(storage := w.storage, positions := w.positions, tokens := w.tokens)
    && w.storage.allocations.Keys == v.storage.allocations.Keys
    && (forall id: Symbol :: ActiveAdapter(w.storage, id) ==
          if id in v.storage.ids[..n] then None else ActiveAdapter(v.storage, id))
    && (forall a: Address :: Position(w.positions, a) == if Uses(v.storage, a, n) then 0 else Position(v.positions, a))
  }

  /** Draining one protocol. */
  lemma ExitStepEffect(w: State, id: Symbol)
    requires NonNegative(w.positions) && ExitStep(w, id).Ok? && ActiveAdapter(w.storage, id).Some?
    ensures var adapter, x := ActiveAdapter(w.storage, id).value, ExitStep(w, id).value;
            && x.storage.reserve == w.storage.reserve + Position(w.positions, adapter)
            && x.tokens == w.tokens + Position(w.positions, adapter)
            && x.storage == w.storage.(reserve := x.storage.reserve, allocations := x.storage.allocations)
            && x == w.(storage := x.storage, positions := x.positions, tokens := x.tokens)
            && x.storage.allocations.Keys == w.storage.allocations.Keys
            && (forall other: Symbol :: ActiveAdapter(x.storage, other) ==
                  if other == id then None else ActiveAdapter(w.storage, other))
            && (forall a: Address :: Position(x.positions, a) == if a == adapter then 0 else Position(w.positions, a))
  {
  }

  lemma ExitStepKeeps(v: State, n: nat, w: State)
    requires n < |v.storage.ids| && NonNegative(v.positions) && Exited(v, n, w)
    requires ExitStep(w, v.storage.ids[n]).Ok?
    ensures Exited(v, n + 1, ExitStep(w, v.storage.ids[n]).value)
  {
    var id := v.storage.ids[n];
    UsesNext(v.storage, n);
    assert v.storage.ids[..n + 1] == v.storage.ids[..n] + [id];
    var adapter := ActiveAdapter(v.storage, id);
    if id in v.storage.ids[..n] {
      if adapter.Some? {
        var k :| 0 <= k < n && v.storage.ids[k] == id;
        assert Uses(v.storage, adapter.value, n);
      }
      assert ExitStep(w, id) == Ok(w);
      hide Uses, ExitStep, ActiveAdapter, Position;
    } else if adapter.Some? {
      ExitStepEffect(w, id);
      hide Uses, ExitStep, ActiveAdapter, Position;
    } else {
      assert ExitStep(w, id) == Ok(w);
      hide Uses, ExitStep, ActiveAdapter, Position;
    }
  }

  lemma {:induction false} ExitTakes(v: State, n: nat)
    requires n <= |v.storage.ids| && NonNegative(v.positions) && ExitUpTo(v, n).Ok?
    ensures Exited(v, n, ExitUpTo(v, n).value)
  {
    if n == 0 {
      assert forall a: Address :: !Uses(v.storage, a, 0);
    } else {
      ExitTakes(v, n - 1);
      ExitStepKeeps(v, n - 1, ExitUpTo(v, n - 1).value);
    }
  }

  lemma {:induction false} InactiveIsWorthless(s: Storage, positions: map<Address, int>, n: nat)
    requires n <= |s.ids| && forall k :: 0 <= k < n ==> ActiveAdapter(s, s.ids[k]).None?
    ensures Value(s, positions, n) == 0
  {
    if n > 0 {
      InactiveIsWorthless(s, positions, n - 1);
    }
  }

  /** An emergency exit empties every active adapter into the reserve and loses nothing;
      where protocols share an adapter, the reserve ends with what was really there. */
  lemma ExitConserves(v: State)
    requires NonNegative(v.positions) && EmergencyExits(v).Ok?
    ensures var w := EmergencyExits(v).value;
            && w.storage.status == Status.EmergencyExit
            && NetValue(w) == w.storage.reserve == v.storage.reserve + Reach(v.storage, v.positions, |v.storage.ids|)
            && (DistinctAdapters(v.storage) ==> NetValue(w) == NetValue(v))
            && w.tokens - w.storage.reserve == v.tokens - v.storage.reserve
            && w.shares == v.shares && w.storage.totalShares == v.storage.totalShares
            && NonNegative(w.positions)
            && (forall a: Address :: Position(w.positions, a) ==
                 if Uses(v.storage, a, |v.storage.ids|) then 0 else Position(v.positions, a))
  {
    var n := |v.storage.ids|;
    ExitTakes(v, n);
    ReachIsValue(v.storage, v.positions, n);
    var w := EmergencyExits(v).value;
    assert v.storage.ids[..n] == v.storage.ids;
    forall k | 0 <= k < n
      ensures ActiveAdapter(w.storage, w.storage.ids[k]).None?
    {
      var mid := ExitUpTo(v, n).value;
      assert ActiveAdapter(w.storage, w.storage.ids[k]) == ActiveAdapter(mid.storage, w.storage.ids[k]);
    }
    InactiveIsWorthless(w.storage, w.positions, n);
  }
}
