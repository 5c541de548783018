/** The borrow limit and the health factor: that they agree, and what they bound. */
module BorrowSafety {
  import opened Outcomes
  import opened FixedPoint
  import opened Tables
  import opened PoolTypes
  import opened PoolStore
  import opened Valuation
  import opened PoolOperations
  import opened PoolInvariants
  import opened PoolSteps
  import Interest

  // ---- One borrower's numbers ----

  function FactoredCollateral(p: Pool, e: Env, user: Address): Result<int> {
    CollateralValue(p, e, CDPOrNew(p, user, e.now).collateral)
  }

  function DebtUsd(p: Pool, e: Env, user: Address): Result<int> {
    DebtValue(p, e, CDPOrNew(p, user, e.now))
  }

  function EffectiveDebtOf(p: Pool, e: Env, user: Address): Result<int> {
    var cdp := CDPOrNew(p, user, e.now);
    var debt :- DebtValue(p, e, cdp);
    EffectiveDebt(debt, if cdp.debtAsset.Some? && cdp.dTokens > 0 then LFactor(p, cdp.debtAsset.value) else SCALAR_7)
  }

  /** The limit is what the factored collateral leaves after the effective debt, and never negative. */
  lemma LimitValue(p: Pool, e: Env, user: Address)
    requires BorrowLimit(p, e, user).Ok?
    ensures FactoredCollateral(p, e, user).Ok? && EffectiveDebtOf(p, e, user).Ok?
    ensures BorrowLimit(p, e, user).value
      == Max(FactoredCollateral(p, e, user).value - EffectiveDebtOf(p, e, user).value, 0)
  {
    hide CollateralValue, DebtValue, EffectiveDebt;
  }

  lemma DebtNonNegative(p: Pool, e: Env, user: Address)
    requires PoolInv(p) && DebtUsd(p, e, user).Ok?
    ensures DebtUsd(p, e, user).value >= 0
  {
    var cdp := CDPOrNew(p, user, e.now);
    if cdp.debtAsset.Some? && cdp.dTokens > 0 {
      var asset := cdp.debtAsset.value;
      assert AssetInv(p, asset);
      var r := ReserveOf(p, asset, e.now);
      OwedNonNegative(cdp.dTokens, r.dRate);
      hide UsdValue, PoolInv, FromDToken;
      ValueNonNegative(FromDToken(cdp.dTokens, r.dRate).value, e.assetQuotes[asset]);
    }
  }

  lemma OwedNonNegative(dTokens: int, dRate: int)
    requires dTokens >= 0 && dRate >= 0 && FromDToken(dTokens, dRate).Ok?
    ensures FromDToken(dTokens, dRate).value >= 0
  {
    MulMono2(0, dTokens, 0, dRate);
    CeilMono(0, dTokens * dRate, SCALAR_12);
  }

  /** The health factor unfolded: u32::MAX without debt value, else the cast quotient. */
  lemma HealthValue(p: Pool, e: Env, user: Address)
    requires HealthFactor(p, e, user).Ok?
    ensures user in p.cdps && DebtUsd(p, e, user).Ok? && FactoredCollateral(p, e, user).Ok?
    ensures DebtUsd(p, e, user).value == 0 ==> HealthFactor(p, e, user).value == U32_MAX
    ensures DebtUsd(p, e, user).value != 0 ==>
              && EffectiveDebtOf(p, e, user).Ok? && EffectiveDebtOf(p, e, user).value > 0
              && HealthFactor(p, e, user).value
                   == ToU32(FloorDiv(FactoredCollateral(p, e, user).value * SCALAR_7,
                     EffectiveDebtOf(p, e, user).value))
  {
    hide CollateralValue, EffectiveDebt;
  }

  /** The quotient is below 1.0 exactly when the numerator is below the denominator. */
  lemma QuotientBelowOne(collateral: int, effective: int)
    requires effective > 0
    ensures FloorDiv(collateral * SCALAR_7, effective) < SCALAR_7 <==> collateral < effective
  {
    if collateral >= effective {
      MulMono(effective, collateral, SCALAR_7);
      FloorIsGreatest(collateral * SCALAR_7, effective, SCALAR_7);
    } else {
      MulCancelLess(FloorDiv(collateral * SCALAR_7, effective), SCALAR_7, effective);
    }
  }

  lemma CastBelowOne(collateral: int, effective: int)
    requires effective > 0 && collateral >= 0
    ensures ToU32(FloorDiv(collateral * SCALAR_7, effective)) < SCALAR_7 <==> collateral < effective
  {
    QuotientBelowOne(collateral, effective);
    FloorNonNegative(collateral * SCALAR_7, effective);
  }

  lemma RemainderIs(x: int, m: int, t: int, y: int)
    requires m > 0 && x == t * m + y && 0 <= y < m
    ensures x % m == y
  {
    FloorIsGreatest(x, m, t);
    assert (t + 1) * m == t * m + m;
    MulCancelLess(FloorDiv(x, m), t + 1, m);
  }

  lemma SplitProduct(d: int, m: int, q: int, t: int, s: int)
    requires q == t * m + s
    ensures q * d == t * (m * d) + s * d
  {
    assert (t * m + s) * d == t * m * d + s * d;
    assert t * m * d == t * (m * d);
  }

  /** Dividing by `d` and wrapping the quotient at `m` is taking the remainder of `n`, their product. */
  lemma WrappedQuotient(x: int, d: int, m: int, n: int, q: int, t: int, s: int)
    requires d > 0 && m > 0 && n == m * d && q * d <= x < q * d + d && q == t * m + s && 0 <= s < m
    ensures n > 0 && x % n == s * d + (x - q * d)
  {
    var sd, qd, tn := s * d, q * d, t * n;
    assert qd == tn + sd by { SplitProduct(d, m, q, t, s); }
    assert 0 <= sd && sd + d <= n by {
      MulMono2(0, s, 0, d);
      MulMono(s + 1, m, d);
    }
    RemainderIs(x, n, t, sd + (x - qd));
  }

  lemma WindowOf(s: int, d: int, rest: int, limit: int)
    requires 0 <= rest < d
    ensures s < limit <==> s * d + rest < limit * d
  {
    if s < limit {
      MulMono(s + 1, limit, d);
    } else {
      MulMono(limit, s, d);
    }
  }

  lemma NegativeCast(q: int)
    requires q < 0
    ensures q == (q / TWO_TO_THE_32) * TWO_TO_THE_32 + ToU32(q)
  {
  }

  /** A negative quotient wraps: it reads as below 1.0 exactly when the total falls into one of the
      windows, each 1.0 of the debt wide, that lie 2^32 units of the quotient apart. */
  lemma CastNegative(collateral: int, effective: int)
    requires effective > 0 && collateral < 0
    ensures ToU32(FloorDiv(collateral * SCALAR_7, effective)) < SCALAR_7
       <==> (collateral * SCALAR_7) % (TWO_TO_THE_32 * effective) < SCALAR_7 * effective
  {
    hide ToU32;
    var x := collateral * SCALAR_7;
    var q := FloorDiv(x, effective);
    MulCancelLess(q, 0, effective);
    NegativeCast(q);
    WrappedQuotient(x, effective, TWO_TO_THE_32, TWO_TO_THE_32 * effective, q, q / TWO_TO_THE_32, ToU32(q));
    WindowOf(ToU32(q), effective, x - q * effective, SCALAR_7);
  }

  /** With debt, when a CDP is liquidatable.  For a total that is not negative: exactly when the factored
      collateral is below the effective debt, the amounts the borrow limit subtracts.  For a negative
      total, which the cast wraps: exactly in the windows of `CastNegative`; elsewhere it reads as healthy. */
  lemma LiquidatableIff(p: Pool, e: Env, user: Address)
    requires HealthFactor(p, e, user).Ok? && DebtUsd(p, e, user).Ok? && DebtUsd(p, e, user).value != 0
    ensures FactoredCollateral(p, e, user).Ok? && EffectiveDebtOf(p, e, user).Ok?
    ensures var collateral, effective := FactoredCollateral(p, e, user).value, EffectiveDebtOf(p, e, user).value;
            && effective > 0
            && (HealthFactor(p, e, user).value < SCALAR_7 <==>
                  if collateral >= 0 then collateral < effective
                  else (collateral * SCALAR_7) % (TWO_TO_THE_32 * effective) < SCALAR_7 * effective)
  {
    hide HealthFactor, FactoredCollateral, EffectiveDebtOf, DebtUsd, FloorDiv, ToU32;
    HealthValue(p, e, user);
    var collateral, effective := FactoredCollateral(p, e, user).value, EffectiveDebtOf(p, e, user).value;
    if collateral >= 0 {
      CastBelowOne(collateral, effective);
    } else {
      CastNegative(collateral, effective);
    }
  }

  /** Right after a fill, whose check is a health factor of at most 1.15, a negative total can only be
      more than four hundred times the debt below zero; smaller ones arise from later price moves. */
  lemma NegativeTotalAfterFill(p: Pool, e: Env, user: Address)
    requires HealthFactor(p, e, user).Ok? && HealthFactor(p, e, user).value <= MAX_HEALTH_FACTOR
    requires DebtUsd(p, e, user).Ok? && DebtUsd(p, e, user).value != 0
    requires FactoredCollateral(p, e, user).Ok? && FactoredCollateral(p, e, user).value < 0
    ensures EffectiveDebtOf(p, e, user).Ok?
    ensures FactoredCollateral(p, e, user).value * SCALAR_7
          < (MAX_HEALTH_FACTOR + 1 - TWO_TO_THE_32) * EffectiveDebtOf(p, e, user).value
  {
    HealthValue(p, e, user);
    hide HealthFactor, FactoredCollateral, EffectiveDebtOf, DebtUsd;
    var c, d := FactoredCollateral(p, e, user).value, EffectiveDebtOf(p, e, user).value;
    var q := FloorDiv(c * SCALAR_7, d);
    MulCancelLess(q, 0, d);
    assert q <= MAX_HEALTH_FACTOR - TWO_TO_THE_32;
    MulMono(q + 1, MAX_HEALTH_FACTOR + 1 - TWO_TO_THE_32, d);
  }

  /** A borrower with room to borrow is never liquidatable. */
  lemma PositiveLimitIsHealthy(p: Pool, e: Env, user: Address)
    requires PoolInv(p) && BorrowLimit(p, e, user).Ok? && BorrowLimit(p, e, user).value > 0
    requires HealthFactor(p, e, user).Ok?
    ensures HealthFactor(p, e, user).value >= SCALAR_7
  {
    LimitValue(p, e, user);
    HealthValue(p, e, user);
    if DebtUsd(p, e, user).value != 0 {
      hide HealthFactor, BorrowLimit, FactoredCollateral, EffectiveDebtOf, DebtUsd, PoolInv;
      LiquidatableIff(p, e, user);
    }
  }

  // ---- Collateral removal ----

  /** Valuation reads only the collateral factors of the store. */
  lemma {:induction false} CollateralValueFrame(p: Pool, q: Pool, e: Env, collateral: seq<Entry<int>>)
    requires p.collateralFactor == q.collateralFactor
    ensures CollateralValue(p, e, collateral) == CollateralValue(q, e, collateral)
  {
    hide UsdValue, QuoteFor, MulScalar7, CheckedAdd;
    if collateral != [] {
      CollateralValueFrame(p, q, e, collateral[..|collateral| - 1]);
    }
  }

  lemma RemovalChecks(p: Pool, e: Env, user: Address, token: Address, amount: int)
    requires RemoveCollateral(p, e, user, token, amount).Ok?
    requires user in p.cdps && p.cdps[user].dTokens > 0 && p.cdps[user].debtAsset.Some?
    ensures var reduced := WithCollateral(p, user, token, CollateralOf(p, user, token) - amount, e.now);
            && BorrowLimit(reduced, e, user).Ok? && DebtUsd(p, e, user).Ok?
            && DebtUsd(p, e, user).value <= BorrowLimit(reduced, e, user).value
            && HealthFactor(p, e, user).Ok? && HealthFactor(p, e, user).value >= MIN_HEALTH_FACTOR
  {
    hide BorrowLimit, HealthFactor, DebtValue, WithCollateral, Send;
  }

  /** What a removal leaves to be valued: the smaller collateral, and the debt as it was. */
  lemma AfterRemoval(p: Pool, e: Env, user: Address, token: Address, amount: int)
    requires RemoveCollateral(p, e, user, token, amount).Ok?
    ensures user in p.cdps
    ensures var p' := RemoveCollateral(p, e, user, token, amount).value.0;
            && user in p'.cdps
            && FactoredCollateral(p', e, user)
                 == CollateralValue(p, e, Set(p.cdps[user].collateral, token, CollateralOf(p, user, token) - amount))
            && EffectiveDebtOf(p', e, user) == EffectiveDebtOf(p, e, user)
            && DebtUsd(p', e, user) == DebtUsd(p, e, user)
            && p'.cdps[user] == p.cdps[user].(lastUpdate := e.now,
                 collateral := Set(p.cdps[user].collateral, token, CollateralOf(p, user, token) - amount))
  {
    RemoveCollateralEffect(p, e, user, token, amount);
    assert CollateralOf(p, user, token) > 0;
    hide RemoveCollateral, CollateralValue, EffectiveDebt, UsdValue, QuoteFor, FromDToken;
    var p' := RemoveCollateral(p, e, user, token, amount).value.0;
    CollateralValueFrame(p, p', e, p'.cdps[user].collateral);
  }

  /** The position the borrow limit of a removal is computed for. */
  lemma ReducedPosition(p: Pool, e: Env, user: Address, token: Address, left: int)
    requires user in p.cdps
    ensures var reduced := WithCollateral(p, user, token, left, e.now);
            && FactoredCollateral(reduced, e, user) == CollateralValue(p, e, Set(p.cdps[user].collateral, token, left))
            && EffectiveDebtOf(reduced, e, user) == EffectiveDebtOf(p, e, user)
  {
    hide CollateralValue, EffectiveDebt, UsdValue, QuoteFor, FromDToken, Set;
    var reduced := WithCollateral(p, user, token, left, e.now);
    CollateralValueFrame(reduced, p, e, reduced.cdps[user].collateral);
  }

  lemma DebtorOf(p: Pool, e: Env, user: Address)
    requires DebtUsd(p, e, user).Ok? && DebtUsd(p, e, user).value != 0
    ensures user in p.cdps && p.cdps[user].dTokens > 0 && p.cdps[user].debtAsset.Some?
  {
  }

  /** After a debtor removes collateral, what remains covers the effective debt and the debt value
      on top of it; in the CDP only that collateral amount and the update time change; and the
      health test that passed was that of the position before the removal. */
  lemma RemovalLeavesMargin(p: Pool, e: Env, user: Address, token: Address, amount: int)
    requires PoolInv(p) && RemoveCollateral(p, e, user, token, amount).Ok?
    requires DebtUsd(p, e, user).Ok? && DebtUsd(p, e, user).value != 0
    ensures var p' := RemoveCollateral(p, e, user, token, amount).value.0;
            && user in p.cdps && user in p'.cdps
            && FactoredCollateral(p', e, user).Ok? && EffectiveDebtOf(p', e, user).Ok?
            && FactoredCollateral(p', e, user).value
                 >= EffectiveDebtOf(p', e, user).value + DebtUsd(p, e, user).value
            && p'.cdps[user] == p.cdps[user].(lastUpdate := e.now,
                 collateral := Set(p.cdps[user].collateral, token, CollateralOf(p, user, token) - amount))
            && HealthFactor(p, e, user).Ok? && HealthFactor(p, e, user).value >= MIN_HEALTH_FACTOR
  {
    hide *;
    DebtorOf(p, e, user);
    RemovalChecks(p, e, user, token, amount);
    AfterRemoval(p, e, user, token, amount);
    DebtNonNegative(p, e, user);
    var left := CollateralOf(p, user, token) - amount;
    ReducedPosition(p, e, user, token, left);
    LimitValue(WithCollateral(p, user, token, left, e.now), e, user);
    MaxReaches(FactoredCollateral(RemoveCollateral(p, e, user, token, amount).value.0, e, user).value,
               EffectiveDebtOf(p, e, user).value, DebtUsd(p, e, user).value);
  }

  lemma MaxReaches(collateral: int, effective: int, debt: int)
    requires 0 <= debt <= Max(collateral - effective, 0) && debt != 0
    ensures collateral >= effective + debt
  {
  }

  lemma CastAtLeastMin(collateral: int, effective: int)
    requires effective > 0 && collateral >= 0
    ensures ToU32(FloorDiv(collateral * SCALAR_7, effective)) >= MIN_HEALTH_FACTOR
       <==> 11 * effective <= 10 * collateral
  {
    var x := collateral * SCALAR_7;
    FloorNonNegative(x, effective);
    if 11 * effective <= 10 * collateral {
      assert MIN_HEALTH_FACTOR * effective <= x;
      FloorIsGreatest(x, effective, MIN_HEALTH_FACTOR);
    } else {
      assert x < MIN_HEALTH_FACTOR * effective;
      MulCancelLess(FloorDiv(x, effective), MIN_HEALTH_FACTOR, effective);
    }
  }

  /** The health after a removal by a debtor is at least 1.1 exactly when ten times the remaining
      factored value covers eleven times the effective debt. */
  lemma RemovalHealthIff(p: Pool, e: Env, user: Address, token: Address, amount: int)
    requires PoolInv(p) && RemoveCollateral(p, e, user, token, amount).Ok?
    requires DebtUsd(p, e, user).Ok? && DebtUsd(p, e, user).value != 0
    ensures user in p.cdps
    ensures var health := HealthFactor(RemoveCollateral(p, e, user, token, amount).value.0, e, user);
            var remaining := CollateralValue(p, e,
              Set(p.cdps[user].collateral, token, CollateralOf(p, user, token) - amount));
            var effective := EffectiveDebtOf(p, e, user);
            && remaining.Ok? && effective.Ok? && effective.value + DebtUsd(p, e, user).value <= remaining.value
            && (health.Ok? ==> (health.value >= MIN_HEALTH_FACTOR <==> 11 * effective.value <= 10 * remaining.value))
  {
    hide RemoveCollateral, HealthFactor, FactoredCollateral, EffectiveDebtOf, DebtUsd, PoolInv, CollateralValue, Set,
      ToU32, FloorDiv, CollateralOf;
    AfterRemoval(p, e, user, token, amount);
    RemovalLeavesMargin(p, e, user, token, amount);
    var p' := RemoveCollateral(p, e, user, token, amount).value.0;
    DebtNonNegative(p, e, user);
    if HealthFactor(p', e, user).Ok? {
      HealthValue(p', e, user);
      CastAtLeastMin(FactoredCollateral(p', e, user).value, EffectiveDebtOf(p', e, user).value);
    }
  }

  lemma TenfoldAtMost(value: int, lFactor: int)
    requires value >= 0 && 10 * lFactor >= SCALAR_7
    ensures CeilDiv(value * SCALAR_7, lFactor) <= 10 * value
  {
    MulMono(SCALAR_7, 10 * lFactor, value);
    CeilIsLeast(value * SCALAR_7, lFactor, 10 * value);
  }

  lemma EffectiveTenfold(p: Pool, e: Env, user: Address)
    requires PoolInv(p) && DebtUsd(p, e, user).Ok? && EffectiveDebtOf(p, e, user).Ok?
    requires user in p.cdps && p.cdps[user].debtAsset.Some? ==>
               10 * LFactor(p, p.cdps[user].debtAsset.value) >= SCALAR_7
    ensures EffectiveDebtOf(p, e, user).value <= 10 * DebtUsd(p, e, user).value
  {
    DebtNonNegative(p, e, user);
    var cdp := CDPOrNew(p, user, e.now);
    hide PoolInv, DebtValue;
    TenfoldAtMost(DebtUsd(p, e, user).value,
                  if cdp.debtAsset.Some? && cdp.dTokens > 0 then LFactor(p, cdp.debtAsset.value) else SCALAR_7);
  }

  lemma RemovalDebtDefined(p: Pool, e: Env, user: Address, token: Address, amount: int)
    requires PoolInv(p) && RemoveCollateral(p, e, user, token, amount).Ok?
    ensures DebtUsd(p, e, user).Ok?
  {
    assert DebtorInv(p, user);
    hide PoolInv, BorrowLimit, HealthFactor, WithCollateral, Send, FromDToken, UsdValue;
  }

  /** When the liability factor of the debt is at least a tenth, what a removal's tests leave is always
      a health factor of at least 1.1. */
  lemma RemovalKeepsHealth(p: Pool, e: Env, user: Address, token: Address, amount: int)
    requires PoolInv(p) && RemoveCollateral(p, e, user, token, amount).Ok?
    requires user in p.cdps && p.cdps[user].debtAsset.Some? ==>
               10 * LFactor(p, p.cdps[user].debtAsset.value) >= SCALAR_7
    ensures var health := HealthFactor(RemoveCollateral(p, e, user, token, amount).value.0, e, user);
            health.Ok? ==> health.value >= MIN_HEALTH_FACTOR
  {
    hide RemoveCollateral, HealthFactor, FactoredCollateral, EffectiveDebtOf, DebtUsd, PoolInv, CollateralValue, Set,
      CollateralOf;
    var p' := RemoveCollateral(p, e, user, token, amount).value.0;
    RemovalDebtDefined(p, e, user, token, amount);
    AfterRemoval(p, e, user, token, amount);
    if DebtUsd(p, e, user).value != 0 {
      RemovalHealthIff(p, e, user, token, amount);
      EffectiveTenfold(p, e, user);
    } else if HealthFactor(p', e, user).Ok? {
      HealthValue(p', e, user);
    }
  }

  // ---- The borrow bound ----

  /** Debt units, their USD value and its effective value, over mathematical integers. */
  function Owed(dTokens: int, dRate: int): int {
    CeilDiv(dTokens * dRate, SCALAR_12)
  }

  function Usd(amount: int, price: int, scale: int): int
    requires scale > 0
  {
    FloorDiv(amount * price, scale)
  }

  function Weighted(value: int, lFactor: int): int
    requires lFactor > 0
  {
    CeilDiv(value * SCALAR_7, lFactor)
  }

  /** What a mint of dTokens for `owed` underlying adds to the debt: at most `owed` and one dToken. */
  lemma OwedAfterMint(dTokens: int, dRate: int, owed: int)
    requires dRate > 0
    ensures Owed(dTokens + CeilDiv(owed * SCALAR_12, dRate), dRate)
      <= Owed(dTokens, dRate) + owed + CeilDiv(dRate, SCALAR_12)
  {
    var minted := CeilDiv(owed * SCALAR_12, dRate);
    assert (dTokens + minted) * dRate == dTokens * dRate + minted * dRate;
    assert minted * dRate == (minted - 1) * dRate + dRate;
    CeilMono((dTokens + minted) * dRate, dTokens * dRate + (owed * SCALAR_12 + dRate), SCALAR_12);
    CeilSubadditive(dTokens * dRate, owed * SCALAR_12 + dRate, SCALAR_12);
    CeilSubadditive(owed * SCALAR_12, dRate, SCALAR_12);
    CeilIsLeast(owed * SCALAR_12, SCALAR_12, owed);
  }

  lemma UsdOfSum(x: int, y: int, z: int, total: int, price: int, scale: int)
    requires scale > 0 && price >= 0 && total <= x + y + z
    ensures Usd(total, price, scale) <= Usd(x, price, scale) + Usd(y, price, scale) + Usd(z, price, scale) + 2
  {
    MulMono(total, x + y + z, price);
    FloorMono(total * price, (x + y + z) * price, scale);
    assert (x + y + z) * price == x * price + (y * price + z * price);
    FloorSubadditive(x * price, y * price + z * price, scale);
    FloorSubadditive(y * price, z * price, scale);
  }

  lemma WeightedOfSum(x: int, y: int, z: int, total: int, lFactor: int)
    requires lFactor > 0 && total <= x + y + z
    ensures Weighted(total, lFactor) <= Weighted(x, lFactor) + Weighted(y, lFactor) + Weighted(z, lFactor)
  {
    CeilMono(total * SCALAR_7, (x + y + z) * SCALAR_7, lFactor);
    CeilSubadditive(x * SCALAR_7, (y + z) * SCALAR_7, lFactor);
    CeilSubadditive(y * SCALAR_7, z * SCALAR_7, lFactor);
  }

  /** The pure arithmetic of a borrow. */
  lemma BorrowArithmetic(dTokens: int, dRate: int, amount: int, fee: int, price: int, scale: int, lFactor: int)
    requires dRate > 0 && price >= 0 && scale > 0 && lFactor > 0
    ensures var after := dTokens + CeilDiv((amount + fee) * SCALAR_12, dRate);
            Weighted(Usd(Owed(after, dRate), price, scale), lFactor)
              <= Weighted(Usd(Owed(dTokens, dRate), price, scale), lFactor)
               + Weighted(Usd(amount, price, scale), lFactor)
               + Weighted(Usd(fee + CeilDiv(dRate, SCALAR_12), price, scale) + 2, lFactor)
  {
    var after := dTokens + CeilDiv((amount + fee) * SCALAR_12, dRate);
    var extra := fee + CeilDiv(dRate, SCALAR_12);
    OwedAfterMint(dTokens, dRate, amount + fee);
    UsdOfSum(Owed(dTokens, dRate), amount, extra, Owed(after, dRate), price, scale);
    WeightedOfSum(Usd(Owed(dTokens, dRate), price, scale), Usd(amount, price, scale), Usd(extra, price, scale) + 2,
                  Usd(Owed(after, dRate), price, scale), lFactor);
  }

  /** The effective value of `dTokens` at `dRate`, when nothing overflows. */
  function EffectiveAt(dTokens: int, dRate: int, q: Quote, lFactor: int): int
    requires lFactor > 0
  {
    Weighted(Usd(Owed(dTokens, dRate), q.price, Pow10(q.decimals)), lFactor)
  }

  lemma UsdValueIs(amount: int, q: Quote)
    requires q.price > 0 && UsdValue(amount, q).Ok?
    ensures UsdValue(amount, q).value == Usd(amount, q.price, Pow10(q.decimals))
  {
    if amount == 0 {
      DivZero(Pow10(q.decimals));
    }
  }

  lemma NoDebtIsZero(dRate: int, q: Quote, lFactor: int)
    requires lFactor > 0
    ensures EffectiveAt(0, dRate, q, lFactor) == 0
  {
    hide Pow10, FloorDiv, CeilDiv;
    DivZero(SCALAR_12);
    DivZero(Pow10(q.decimals));
    DivZero(lFactor);
    assert Owed(0, dRate) == 0;
    assert Usd(0, q.price, Pow10(q.decimals)) == 0;
    assert Weighted(0, lFactor) == 0;
  }

  /** The effective debt the contract computes is the closed form at the stored rate. */
  lemma EffectiveDebtIs(p: Pool, e: Env, user: Address, asset: Symbol)
    requires asset in e.assetQuotes && e.assetQuotes[asset].price > 0 && LFactor(p, asset) > 0
    requires EffectiveDebtOf(p, e, user).Ok?
    requires CDPOrNew(p, user, e.now).dTokens >= 0
    requires CDPOrNew(p, user, e.now).debtAsset == Some(asset)
          || (CDPOrNew(p, user, e.now).debtAsset.None? && CDPOrNew(p, user, e.now).dTokens == 0)
    ensures EffectiveDebtOf(p, e, user).value
         == EffectiveAt(CDPOrNew(p, user, e.now).dTokens, ReserveOf(p, asset, e.now).dRate, e.assetQuotes[asset],
           LFactor(p, asset))
  {
    var cdp, r, q := CDPOrNew(p, user, e.now), ReserveOf(p, asset, e.now), e.assetQuotes[asset];
    if cdp.dTokens == 0 {
      NoDebtIsZero(r.dRate, q, LFactor(p, asset));
      DivZero(SCALAR_7);
    } else {
      UsdValueIs(FromDToken(cdp.dTokens, r.dRate).value, q);
    }
  }

  /** The tests a successful borrow passed. */
  lemma BorrowChecks(p: Pool, e: Env, user: Address, asset: Symbol, amount: int)
    requires Borrow(p, e, user, asset, amount).Ok?
    ensures BorrowLimit(p, e, user).Ok?
    ensures asset in e.assetQuotes && e.assetQuotes[asset].price > 0 && LFactor(p, asset) > 0
    ensures UsdValue(amount, e.assetQuotes[asset]).Ok?
    ensures Weighted(UsdValue(amount, e.assetQuotes[asset]).value, LFactor(p, asset)) <= BorrowLimit(p, e, user).value
  {
    hide BorrowLimit, UsdValue, AccruedReserve, MulScalar7Ceil, ToDTokenUp, Interest.Utilization;
  }

  /** After a borrow the effective debt is at most the larger of factored collateral and prior
      effective debt, plus what accrual in this call added to the prior debt (nothing if the
      reserve was already accrued), plus the effective value of the origination fee, one dToken
      and two units of rounding. */
  lemma BorrowBound(p: Pool, e: Env, user: Address, asset: Symbol, amount: int)
    requires PoolInv(p) && Borrow(p, e, user, asset, amount).Ok?
    requires EffectiveDebtOf(Borrow(p, e, user, asset, amount).value.0, e, user).Ok?
    ensures FactoredCollateral(p, e, user).Ok? && EffectiveDebtOf(p, e, user).Ok? && AccruedReserve(p, e, asset).Ok?
    ensures asset in e.assetQuotes && LFactor(p, asset) > 0
    ensures var p' := Borrow(p, e, user, asset, amount).value.0;
            var q, lFactor := e.assetQuotes[asset], LFactor(p, asset);
            var dRate := AccruedReserve(p, e, asset).value.dRate;
            var before := EffectiveDebtOf(p, e, user).value;
            var accruedDebt := EffectiveAt(CDPOrNew(p, user, e.now).dTokens, dRate, q, lFactor);
            var fee := CeilDiv(amount * p.originationFeeRate, SCALAR_7);
            EffectiveDebtOf(p', e, user).value
              <= Max(FactoredCollateral(p, e, user).value, before) + (accruedDebt - before)
               + Weighted(Usd(fee + CeilDiv(dRate, SCALAR_12), q.price, Pow10(q.decimals)) + 2, lFactor)
    ensures AccruedReserve(p, e, asset).value == ReserveOf(p, asset, e.now) ==>
              EffectiveAt(CDPOrNew(p, user, e.now).dTokens, AccruedReserve(p, e, asset).value.dRate,
                e.assetQuotes[asset], LFactor(p, asset))
                == EffectiveDebtOf(p, e, user).value
  {
    hide Borrow, AccruedReserve, BorrowLimit, EffectiveDebtOf, FactoredCollateral, EffectiveAt, UsdValue;
    var r := BorrowEffect(p, e, user, asset, amount);
    var p' := Borrow(p, e, user, asset, amount).value.0;
    BorrowChecks(p, e, user, asset, amount);
    LimitValue(p, e, user);
    assert DebtorInv(p, user);
    hide PoolInv;
    var cdp, q, lFactor := CDPOrNew(p, user, e.now), e.assetQuotes[asset], LFactor(p, asset);
    var fee := CeilDiv(amount * p.originationFeeRate, SCALAR_7);
    UsdValueIs(amount, q);
    EffectiveDebtIs(p, e, user, asset);
    MintPositive(amount, p.originationFeeRate, r.dRate);
    EffectiveDebtIs(p', e, user, asset);
    BorrowStep(cdp.dTokens, r.dRate, amount, fee, q, lFactor);
  }

  lemma BorrowStep(dTokens: int, dRate: int, amount: int, fee: int, q: Quote, lFactor: int)
    requires dRate > 0 && q.price > 0 && lFactor > 0
    ensures EffectiveAt(dTokens + CeilDiv((amount + fee) * SCALAR_12, dRate), dRate, q, lFactor)
         <= EffectiveAt(dTokens, dRate, q, lFactor) + Weighted(Usd(amount, q.price, Pow10(q.decimals)), lFactor)
          + Weighted(Usd(fee + CeilDiv(dRate, SCALAR_12), q.price, Pow10(q.decimals)) + 2, lFactor)
  {
    BorrowArithmetic(dTokens, dRate, amount, fee, q.price, Pow10(q.decimals), lFactor);
  }

  lemma NoValueIsZero(p: Pool, e: Env, user: Address)
    requires DebtUsd(p, e, user) == Ok(0) && EffectiveDebtOf(p, e, user).Ok?
    ensures EffectiveDebtOf(p, e, user).value == 0
  {
    var cdp := CDPOrNew(p, user, e.now);
    DivZero(if cdp.debtAsset.Some? && cdp.dTokens > 0 then LFactor(p, cdp.debtAsset.value) else SCALAR_7);
    hide DebtValue;
  }

  /** Health on a total that is not negative, with or without debt value. */
  lemma HealthyIff(p: Pool, e: Env, user: Address)
    requires HealthFactor(p, e, user).Ok? && EffectiveDebtOf(p, e, user).Ok?
    ensures FactoredCollateral(p, e, user).Ok?
    ensures FactoredCollateral(p, e, user).value >= 0 ==>
              (HealthFactor(p, e, user).value >= SCALAR_7 <==>
                 EffectiveDebtOf(p, e, user).value <= FactoredCollateral(p, e, user).value)
  {
    hide HealthFactor, FactoredCollateral, EffectiveDebtOf, DebtUsd;
    HealthValue(p, e, user);
    if DebtUsd(p, e, user).value == 0 {
      NoValueIsZero(p, e, user);
    } else {
      LiquidatableIff(p, e, user);
    }
  }

  /** The position after a borrow: the collateral as it was, and the debt with its fee at the accrued rate. */
  lemma AfterBorrow(p: Pool, e: Env, user: Address, asset: Symbol, amount: int)
    requires PoolInv(p) && Borrow(p, e, user, asset, amount).Ok?
    requires EffectiveDebtOf(Borrow(p, e, user, asset, amount).value.0, e, user).Ok?
    ensures AccruedReserve(p, e, asset).Ok? && AccruedReserve(p, e, asset).value.dRate > 0
    ensures asset in e.assetQuotes && LFactor(p, asset) > 0
    ensures var p' := Borrow(p, e, user, asset, amount).value.0;
            var dRate := AccruedReserve(p, e, asset).value.dRate;
            var fee := CeilDiv(amount * p.originationFeeRate, SCALAR_7);
            && FactoredCollateral(p', e, user) == FactoredCollateral(p, e, user)
            && EffectiveDebtOf(p', e, user).value
                 == EffectiveAt(CDPOrNew(p, user, e.now).dTokens + CeilDiv((amount + fee) * SCALAR_12, dRate), dRate,
                      e.assetQuotes[asset], LFactor(p, asset))
  {
    hide Borrow, AccruedReserve, BorrowLimit, EffectiveDebtOf, EffectiveAt, UsdValue, CollateralValue;
    var r := BorrowEffect(p, e, user, asset, amount);
    var p' := Borrow(p, e, user, asset, amount).value.0;
    BorrowChecks(p, e, user, asset, amount);
    assert DebtorInv(p, user);
    hide PoolInv;
    CollateralValueFrame(p, p', e, CDPOrNew(p, user, e.now).collateral);
    MintPositive(amount, p.originationFeeRate, r.dRate);
    EffectiveDebtIs(p', e, user, asset);
  }

  /** A borrower is healthy right after a borrow exactly when the factored collateral covers the
      effective value of the debt with its fee, at the rate the call accrued to. */
  lemma BorrowLeavesHealthyIff(p: Pool, e: Env, user: Address, asset: Symbol, amount: int)
    requires PoolInv(p) && Borrow(p, e, user, asset, amount).Ok?
    requires HealthFactor(Borrow(p, e, user, asset, amount).value.0, e, user).Ok?
    ensures FactoredCollateral(p, e, user).Ok? && AccruedReserve(p, e, asset).Ok?
    ensures AccruedReserve(p, e, asset).value.dRate > 0 && asset in e.assetQuotes && LFactor(p, asset) > 0
    ensures var collateral, dRate := FactoredCollateral(p, e, user).value, AccruedReserve(p, e, asset).value.dRate;
            var fee := CeilDiv(amount * p.originationFeeRate, SCALAR_7);
            var debt := CDPOrNew(p, user, e.now).dTokens + CeilDiv((amount + fee) * SCALAR_12, dRate);
            collateral >= 0 ==>
              (HealthFactor(Borrow(p, e, user, asset, amount).value.0, e, user).value >= SCALAR_7 <==>
                 EffectiveAt(debt, dRate, e.assetQuotes[asset], LFactor(p, asset)) <= collateral)
  {
    hide Borrow, HealthFactor, FactoredCollateral, EffectiveDebtOf, EffectiveAt, AccruedReserve, PoolInv, CeilDiv;
    var p' := Borrow(p, e, user, asset, amount).value.0;
    BorrowedDebtDefined(p, e, user, asset, amount);
    AfterBorrow(p, e, user, asset, amount);
    HealthyIff(p', e, user);
  }

  lemma ZeroDebtDefined(p: Pool, e: Env, user: Address, asset: Symbol)
    requires DebtUsd(p, e, user) == Ok(0) && LFactor(p, asset) > 0
    requires CDPOrNew(p, user, e.now).debtAsset == Some(asset)
    ensures EffectiveDebtOf(p, e, user).Ok?
  {
    DivZero(LFactor(p, asset));
    DivZero(SCALAR_7);
    hide DebtValue, LFactor, CDPOrNew;
  }

  lemma BorrowedAsset(p: Pool, e: Env, user: Address, asset: Symbol, amount: int)
    requires Borrow(p, e, user, asset, amount).Ok?
    ensures var p' := Borrow(p, e, user, asset, amount).value.0;
            CDPOrNew(p', user, e.now).debtAsset == Some(asset) && LFactor(p', asset) > 0
  {
    hide Borrow, AccruedReserve, CeilDiv;
    var r := BorrowEffect(p, e, user, asset, amount);
    BorrowChecks(p, e, user, asset, amount);
  }

  lemma BorrowedDebtDefined(p: Pool, e: Env, user: Address, asset: Symbol, amount: int)
    requires Borrow(p, e, user, asset, amount).Ok?
    requires HealthFactor(Borrow(p, e, user, asset, amount).value.0, e, user).Ok?
    ensures EffectiveDebtOf(Borrow(p, e, user, asset, amount).value.0, e, user).Ok?
  {
    hide *;
    var p' := Borrow(p, e, user, asset, amount).value.0;
    BorrowedAsset(p, e, user, asset, amount);
    HealthValue(p', e, user);
    if DebtUsd(p', e, user).value == 0 {
      ZeroDebtDefined(p', e, user, asset);
    }
  }
}
