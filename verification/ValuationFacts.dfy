/** What positions and debts are worth: the scale of a price drops out, and the factored total is the sum
    of the positions, whatever their order. */
module ValuationFacts {
  import opened Outcomes
  import opened FixedPoint
  import opened Tables
  import opened PoolTypes
  import opened PoolStore
  import opened Valuation
  import opened PoolOperations
  import opened PoolSteps
  import opened BorrowSafety

  // ---- Scales ----

  lemma {:induction false} PowersMultiply(a: nat, b: nat)
    ensures Pow10(0) == 1 && Pow10(1) == 10 && Pow10(a + b) == Pow10(a) * Pow10(b)
  {
    assert Pow10(1) == 10 * Pow10(0);
    if a > 0 {
      PowersMultiply(a - 1, b);
      assert Pow10(a + b) == 10 * Pow10(a - 1 + b);
      assert 10 * (Pow10(a - 1) * Pow10(b)) == 10 * Pow10(a - 1) * Pow10(b);
    }
  }

  /** A factor common to dividend and divisor does not change the quotient. */
  lemma CommonFactor(x: int, scale: int)
    requires scale > 0
    ensures FloorDiv(10 * x, 10 * scale) == FloorDiv(x, scale)
  {
    var q := FloorDiv(x, scale);
    assert q * (10 * scale) == 10 * (q * scale) && (q + 1) * (10 * scale) == 10 * ((q + 1) * scale);
    FloorIsGreatest(10 * x, 10 * scale, q);
    MulCancelLess(FloorDiv(10 * x, 10 * scale), q + 1, 10 * scale);
  }

  /** A price with one more decimal is the same price. */
  lemma ScaleDropsOut(amount: int, price: int, decimals: nat)
    requires price > 0 && decimals < 38
    ensures UsdValue(amount, Quote(10 * price, decimals + 1)) == UsdValue(amount, Quote(price, decimals))
  {
    hide Pow10, FloorDiv;
    PowersMultiply(1, decimals);
    CommonFactor(amount * price, Pow10(decimals));
    assert amount * (10 * price) == 10 * (amount * price);
  }

  function Rescaled(quotes: map<nat, Quote>): map<nat, Quote> {
    map k | k in quotes :: Quote(10 * quotes[k].price, quotes[k].decimals + 1)
  }

  /** The same prices, each with one more decimal. */
  function RescaledEnv(e: Env): Env {
    e.(collateralQuotes := Rescaled(e.collateralQuotes), assetQuotes := Rescaled(e.assetQuotes))
  }

  predicate Rescalable(quotes: map<nat, Quote>) {
    forall k :: k in quotes ==> quotes[k].decimals < 38
  }

  lemma FactoredRescaled(p: Pool, e: Env, token: int, amount: int)
    requires Rescalable(e.collateralQuotes)
    ensures FactoredValue(p, RescaledEnv(e), token, amount) == FactoredValue(p, e, token, amount)
  {
    hide UsdValue, MulScalar7;
    if token >= 0 && token in e.collateralQuotes && e.collateralQuotes[token].price > 0 {
      ScaleDropsOut(amount, e.collateralQuotes[token].price, e.collateralQuotes[token].decimals);
    }
  }

  lemma {:induction false} CollateralRescaled(p: Pool, e: Env, collateral: seq<Entry<int>>)
    requires Rescalable(e.collateralQuotes)
    ensures CollateralValue(p, RescaledEnv(e), collateral) == CollateralValue(p, e, collateral)
  {
    hide FactoredValue, CheckedAdd, RescaledEnv;
    if collateral != [] {
      var last := collateral[|collateral| - 1];
      CollateralRescaled(p, e, collateral[..|collateral| - 1]);
      FactoredRescaled(p, e, last.key, last.value);
    }
  }

  lemma DebtRescaled(p: Pool, e: Env, cdp: CDP)
    requires Rescalable(e.assetQuotes)
    ensures DebtValue(p, RescaledEnv(e), cdp) == DebtValue(p, e, cdp)
  {
    hide UsdValue, FromDToken;
    if cdp.debtAsset.Some? && cdp.dTokens > 0 {
      var asset := cdp.debtAsset.value;
      var amount := FromDToken(cdp.dTokens, ReserveOf(p, asset, e.now).dRate);
      if amount.Ok? && asset in e.assetQuotes && e.assetQuotes[asset].price > 0 {
        ScaleDropsOut(amount.value, e.assetQuotes[asset].price, e.assetQuotes[asset].decimals);
      }
    }
  }

  /** Neither the health factor nor the borrow limit depends on how many decimals the oracles report. */
  lemma DecimalsDoNotMatter(p: Pool, e: Env, user: Address)
    requires Rescalable(e.collateralQuotes) && Rescalable(e.assetQuotes)
    ensures HealthFactor(p, RescaledEnv(e), user) == HealthFactor(p, e, user)
    ensures BorrowLimit(p, RescaledEnv(e), user) == BorrowLimit(p, e, user)
  {
    hide CollateralValue, DebtValue, EffectiveDebt, MulDivFloor, Rescaled;
    CollateralRescaled(p, e, CDPOrNew(p, user, e.now).collateral);
    DebtRescaled(p, e, CDPOrNew(p, user, e.now));
  }

  /** A value is computed exactly when there is nothing to compute, or the scale is at most 10^38 and the
      quotient fits. */
  lemma ValuedIff(amount: int, price: int, decimals: nat)
    ensures UsdValue(amount, Quote(price, decimals)).Ok? <==>
              amount == 0 || price <= 0 || (decimals <= 38 && FitsI128(FloorDiv(amount * price, Pow10(decimals))))
    ensures UsdValue(amount, Quote(price, decimals)).Ok? && (amount == 0 || price <= 0) ==>
              UsdValue(amount, Quote(price, decimals)).value == 0
  {
    hide Pow10, FloorDiv;
  }

  // ---- Sums of positions ----

  /** One position's worth: amount times price over its scale, weighted by the factor of the token, which is
      three quarters when none was set; each floored. */
  function Worth(p: Pool, e: Env, token: int, amount: int): int {
    if amount == 0 || token < 0 || token !in e.collateralQuotes then 0
    else
      var q := e.collateralQuotes[token];
      var factor := if token in p.collateralFactor then p.collateralFactor[token] else 7_500_000;
      FloorDiv(FloorDiv(amount * q.price, Pow10(q.decimals)) * factor, 10_000_000)
  }

  lemma FactoredIsWorth(p: Pool, e: Env, token: int, amount: int)
    requires amount != 0 && FactoredValue(p, e, token, amount).Ok?
    ensures FactoredValue(p, e, token, amount).value == Worth(p, e, token, amount)
  {
    hide Pow10, FloorDiv;
  }

  function TotalWorth(p: Pool, e: Env, collateral: seq<Entry<int>>): int {
    if collateral == [] then 0
    else Worth(p, e, collateral[0].key, collateral[0].value) + TotalWorth(p, e, collateral[1..])
  }

  lemma {:induction false} TotalAppend(p: Pool, e: Env, collateral: seq<Entry<int>>)
    requires collateral != []
    ensures var last := collateral[|collateral| - 1];
            TotalWorth(p, e, collateral)
              == TotalWorth(p, e, collateral[..|collateral| - 1]) + Worth(p, e, last.key, last.value)
  {
    hide Worth;
    if |collateral| > 1 {
      TotalAppend(p, e, collateral[1..]);
      assert collateral[..|collateral| - 1][1..] == collateral[1..][..|collateral| - 2];
    }
  }

  /** The loop's total is the sum of the positions' worths. */
  lemma {:induction false} CollateralIsTotal(p: Pool, e: Env, collateral: seq<Entry<int>>)
    requires CollateralValue(p, e, collateral).Ok?
    ensures CollateralValue(p, e, collateral).value == TotalWorth(p, e, collateral)
  {
    hide FactoredValue, FitsI128;
    if collateral != [] {
      var last := collateral[|collateral| - 1];
      CollateralIsTotal(p, e, collateral[..|collateral| - 1]);
      TotalAppend(p, e, collateral);
      if last.value != 0 {
        FactoredIsWorth(p, e, last.key, last.value);
      } else {
        assert Worth(p, e, last.key, 0) == 0;
      }
      hide Worth, TotalWorth;
    }
  }

  /** A write to one position moves the total by what that position's worth moves by, wherever it stands. */
  lemma {:induction false} TotalOfSet(p: Pool, e: Env, collateral: seq<Entry<int>>, token: int, amount: int)
    requires Sorted(collateral)
    ensures TotalWorth(p, e, Set(collateral, token, amount))
         == TotalWorth(p, e, collateral) - Worth(p, e, token, GetOr(collateral, token, 0)) + Worth(p, e, token, amount)
  {
    var after := Set(collateral, token, amount);
    assert Worth(p, e, token, 0) == 0;
    hide Worth;
    if collateral == [] || token < collateral[0].key {
      assert after[1..] == collateral;
      Absent(collateral, token);
    } else if collateral[0].key == token {
      assert after[1..] == collateral[1..];
    } else {
      assert after[1..] == Set(collateral[1..], token, amount);
      TotalOfSet(p, e, collateral[1..], token, amount);
    }
  }

  lemma {:induction false} Absent(collateral: seq<Entry<int>>, token: int)
    requires Sorted(collateral) && (collateral != [] ==> token < collateral[0].key)
    ensures GetOr(collateral, token, 0) == 0
  {
    if collateral != [] {
      assert forall i :: 1 <= i < |collateral| ==> collateral[0].key < collateral[i].key;
      Absent(collateral[1..], token);
    }
  }

  /** Adding collateral raises the factored total by exactly what the position gains in worth. */
  lemma AddedCollateralCounts(p: Pool, e: Env, user: Address, token: Address, amount: int)
    requires Sorted(CDPOrNew(p, user, e.now).collateral) && AddCollateral(p, e, user, token, amount).Ok?
    requires FactoredCollateral(p, e, user).Ok?
    requires FactoredCollateral(AddCollateral(p, e, user, token, amount).value.0, e, user).Ok?
    ensures FactoredCollateral(AddCollateral(p, e, user, token, amount).value.0, e, user).value
         == FactoredCollateral(p, e, user).value
          + Worth(p, e, token, CollateralOf(p, user, token) + amount) - Worth(p, e, token, CollateralOf(p, user, token))
  {
    hide AddCollateral, CollateralValue, Worth, TotalWorth, Set;
    var p' := AddCollateral(p, e, user, token, amount).value.0;
    AddCollateralEffect(p, e, user, token, amount);
    var before := CDPOrNew(p, user, e.now).collateral;
    CollateralValueFrame(p, p', e, p'.cdps[user].collateral);
    CollateralIsTotal(p, e, before);
    CollateralIsTotal(p, e, p'.cdps[user].collateral);
    TotalOfSet(p, e, before, token, CollateralOf(p, user, token) + amount);
  }

  // ---- The two tests in numbers ----

  /** What a position owes, at the stored debt rate and the asset's price. */
  function DebtWorth(p: Pool, e: Env, cdp: CDP): int {
    if cdp.debtAsset.None? || cdp.dTokens <= 0 || cdp.debtAsset.value !in e.assetQuotes then 0
    else
      var q := e.assetQuotes[cdp.debtAsset.value];
      var owed := CeilDiv(cdp.dTokens * ReserveOf(p, cdp.debtAsset.value, e.now).dRate, 1_000_000_000_000);
      FloorDiv(owed * q.price, Pow10(q.decimals))
  }

  lemma DebtIsWorth(p: Pool, e: Env, cdp: CDP)
    requires DebtValue(p, e, cdp).Ok?
    ensures DebtValue(p, e, cdp).value == DebtWorth(p, e, cdp)
  {
    hide Pow10, FloorDiv, CeilDiv, ReserveOf;
    if cdp.debtAsset.Some? && cdp.dTokens > 0 {
      var asset := cdp.debtAsset.value;
      BorrowSafety.UsdValueIs(FromDToken(cdp.dTokens, ReserveOf(p, asset, e.now).dRate).value, e.assetQuotes[asset]);
    }
  }

  /** The liability factor of a debt asset, 1.0 where none was set. */
  function Liability(p: Pool, cdp: CDP): int {
    if cdp.debtAsset.Some? && cdp.debtAsset.value in p.params then p.params[cdp.debtAsset.value].lFactor else 10_000_000
  }

  lemma EffectiveIs(value: int, lFactor: int)
    requires EffectiveDebt(value, lFactor).Ok?
    ensures lFactor > 0 && EffectiveDebt(value, lFactor).value == CeilDiv(value * 10_000_000, lFactor)
  {
  }

  /** The limit is what the collateral's worth leaves after the debt's worth over its liability factor, rounded
      up, and never below zero. */
  lemma LimitIs(p: Pool, e: Env, user: Address)
    requires BorrowLimit(p, e, user).Ok?
    ensures var cdp := CDPOrNew(p, user, e.now);
            var lFactor := if cdp.dTokens > 0 then Liability(p, cdp) else 10_000_000;
            lFactor > 0
            && BorrowLimit(p, e, user).value
                 == Max(0, TotalWorth(p, e, cdp.collateral) - CeilDiv(DebtWorth(p, e, cdp) * 10_000_000, lFactor))
  {
    hide CollateralValue, TotalWorth, DebtValue, DebtWorth, EffectiveDebt, CeilDiv, CDPOrNew;
    var cdp := CDPOrNew(p, user, e.now);
    CollateralIsTotal(p, e, cdp.collateral);
    DebtIsWorth(p, e, cdp);
    EffectiveIs(DebtValue(p, e, cdp).value, if cdp.dTokens > 0 then Liability(p, cdp) else 10_000_000);
  }

  /** The health factor is the collateral's worth over that of the debt, at seven decimals, rounded down, at most
      `u32::MAX` and cast to 32 bits; `u32::MAX` itself when the debt is worth nothing. */
  lemma HealthIs(p: Pool, e: Env, user: Address)
    requires HealthFactor(p, e, user).Ok?
    ensures user in p.cdps
    ensures var cdp := p.cdps[user];
            var debt := DebtWorth(p, e, cdp);
            if debt == 0 then HealthFactor(p, e, user).value == 4_294_967_295
            else
              Liability(p, cdp) > 0
              && var effective := CeilDiv(debt * 10_000_000, Liability(p, cdp));
              effective > 0
              && HealthFactor(p, e, user).value
                   == Min(FloorDiv(TotalWorth(p, e, cdp.collateral) * 10_000_000, effective), 4_294_967_295)
                        % 4_294_967_296
  {
    hide CollateralValue, TotalWorth, DebtValue, DebtWorth, EffectiveDebt, CeilDiv, FloorDiv;
    var cdp := p.cdps[user];
    CollateralIsTotal(p, e, cdp.collateral);
    DebtIsWorth(p, e, cdp);
    if DebtValue(p, e, cdp).value != 0 {
      EffectiveIs(DebtValue(p, e, cdp).value, Liability(p, cdp));
    }
  }

  // ---- When the two tests have an answer ----

  /** An entry of collateral that counts has a price, and its two products fit. */
  predicate Valued(p: Pool, e: Env, token: int, amount: int) {
    amount != 0 ==>
      && token >= 0 && token in e.collateralQuotes && e.collateralQuotes[token].price > 0
      && e.collateralQuotes[token].decimals <= 38
      && FitsI128(FloorDiv(amount * e.collateralQuotes[token].price, Pow10(e.collateralQuotes[token].decimals)))
      && FitsI128(Worth(p, e, token, amount))
  }

  lemma ValuedFactored(p: Pool, e: Env, token: int, amount: int)
    requires amount != 0
    ensures FactoredValue(p, e, token, amount).Ok? <==> Valued(p, e, token, amount)
  {
    hide Pow10, FloorDiv;
    if token in e.collateralQuotes {
      ValuedIff(amount, e.collateralQuotes[token].price, e.collateralQuotes[token].decimals);
    }
  }

  lemma WorthNonNegative(p: Pool, e: Env, token: int, amount: int)
    requires amount >= 0 && (token in e.collateralQuotes ==> e.collateralQuotes[token].price >= 0)
    ensures Worth(p, e, token, amount) >= 0
  {
    hide Pow10, FloorDiv;
    if amount != 0 && token >= 0 && token in e.collateralQuotes {
      var q := e.collateralQuotes[token];
      var factor: int := if token in p.collateralFactor then p.collateralFactor[token] else 7_500_000;
      MulMono2(0, amount, 0, q.price);
      FloorNonNegative(amount * q.price, Pow10(q.decimals));
      MulMono2(0, FloorDiv(amount * q.price, Pow10(q.decimals)), 0, factor);
      FloorNonNegative(FloorDiv(amount * q.price, Pow10(q.decimals)) * factor, 10_000_000);
    }
  }

  /** Over positions none of which is negative, the collateral has a value exactly when every entry that counts
      has one and the sum fits: no partial sum can be out of range before it. */
  lemma {:induction false} CollateralValuedIff(p: Pool, e: Env, collateral: seq<Entry<int>>)
    requires forall i :: 0 <= i < |collateral| ==> collateral[i].value >= 0
    requires forall t :: t in e.collateralQuotes ==> e.collateralQuotes[t].price >= 0
    ensures TotalWorth(p, e, collateral) >= 0
    ensures CollateralValue(p, e, collateral).Ok? <==>
              && (forall i :: 0 <= i < |collateral| ==> Valued(p, e, collateral[i].key, collateral[i].value))
              && TotalWorth(p, e, collateral) <= I128_MAX
  {
    hide Valued, Worth, FactoredValue;
    if collateral != [] {
      var init, last := collateral[..|collateral| - 1], collateral[|collateral| - 1];
      CollateralValuedIff(p, e, init);
      TotalAppend(p, e, collateral);
      WorthNonNegative(p, e, last.key, last.value);
      if last.value == 0 {
        ZeroCounts(p, e, last.key);
      } else {
        ValuedFactored(p, e, last.key, last.value);
        if FactoredValue(p, e, last.key, last.value).Ok? {
          FactoredIsWorth(p, e, last.key, last.value);
        }
      }
      if CollateralValue(p, e, init).Ok? {
        CollateralIsTotal(p, e, init);
      }
      assert collateral == init + [last];
    }
  }

  lemma ZeroCounts(p: Pool, e: Env, token: int)
    ensures Valued(p, e, token, 0) && Worth(p, e, token, 0) == 0
  {
  }

  /** A debt has a value exactly when there is none, or its asset has a price and the two products fit. */
  lemma DebtValuedIff(p: Pool, e: Env, cdp: CDP)
    ensures DebtValue(p, e, cdp).Ok? <==>
              cdp.debtAsset.None? || cdp.dTokens <= 0 ||
                var asset := cdp.debtAsset.value;
                var owed := CeilDiv(cdp.dTokens * ReserveOf(p, asset, e.now).dRate, 1_000_000_000_000);
                && FitsI128(owed) && asset in e.assetQuotes && e.assetQuotes[asset].price > 0
                && (owed == 0 || (e.assetQuotes[asset].decimals <= 38 && FitsI128(DebtWorth(p, e, cdp))))
  {
    hide Pow10, FloorDiv, CeilDiv, ReserveOf, UsdValue;
    if cdp.debtAsset.Some? && cdp.dTokens > 0 && cdp.debtAsset.value in e.assetQuotes {
      var asset := cdp.debtAsset.value;
      var owed := CeilDiv(cdp.dTokens * ReserveOf(p, asset, e.now).dRate, SCALAR_12);
      ValuedIff(owed, e.assetQuotes[asset].price, e.assetQuotes[asset].decimals);
    }
  }

  /** The health factor has an answer exactly when the position exists, collateral and debt have values, and a debt
      that is worth something has a liability factor and quotients that fit. */
  lemma HealthDefinedIff(p: Pool, e: Env, user: Address)
    ensures HealthFactor(p, e, user).Ok? <==>
              && user in p.cdps
              && CollateralValue(p, e, p.cdps[user].collateral).Ok? && DebtValue(p, e, p.cdps[user]).Ok?
              && var debt := DebtWorth(p, e, p.cdps[user]);
              (debt != 0 ==>
                 && Liability(p, p.cdps[user]) > 0
                 && var effective := CeilDiv(debt * 10_000_000, Liability(p, p.cdps[user]));
                 && FitsI128(effective) && effective > 0
                 && FitsI128(FloorDiv(TotalWorth(p, e, p.cdps[user].collateral) * 10_000_000, effective)))
  {
    hide CollateralValue, TotalWorth, DebtValue, DebtWorth, CeilDiv, FloorDiv;
    if user in p.cdps && CollateralValue(p, e, p.cdps[user].collateral).Ok? && DebtValue(p, e, p.cdps[user]).Ok? {
      CollateralIsTotal(p, e, p.cdps[user].collateral);
      DebtIsWorth(p, e, p.cdps[user]);
    }
  }

  /** And the borrow limit, exactly when both have values, the liability factor is positive and the two results
      fit. */
  lemma LimitDefinedIff(p: Pool, e: Env, user: Address)
    ensures var cdp := CDPOrNew(p, user, e.now);
            var lFactor := if cdp.dTokens > 0 then Liability(p, cdp) else 10_000_000;
            BorrowLimit(p, e, user).Ok? <==>
              && CollateralValue(p, e, cdp.collateral).Ok? && DebtValue(p, e, cdp).Ok? && lFactor > 0
              && var effective := CeilDiv(DebtWorth(p, e, cdp) * 10_000_000, lFactor);
              FitsI128(effective) && FitsI128(TotalWorth(p, e, cdp.collateral) - effective)
  {
    hide CollateralValue, TotalWorth, DebtValue, DebtWorth, CeilDiv, CDPOrNew;
    var cdp := CDPOrNew(p, user, e.now);
    if CollateralValue(p, e, cdp.collateral).Ok? && DebtValue(p, e, cdp).Ok? {
      CollateralIsTotal(p, e, cdp.collateral);
      DebtIsWorth(p, e, cdp);
    }
  }
}
