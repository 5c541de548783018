/** Values of collateral and debt, and the two solvency tests built on them. */
module Valuation {
  import opened Outcomes
  import opened FixedPoint
  import opened Tables
  import opened PoolTypes
  import opened PoolStore

  function Pow10(n: nat): (r: int)
    ensures r >= 1
  {
    if n == 0 then 1 else 10 * Pow10(n - 1)
  }

  function TenPow(exp: nat): Result<int> {
    if exp > 38 then Err(ArithmeticError) else Ok(Pow10(exp))
  }

  function UsdValue(amount: int, q: Quote): Result<int> {
    if amount == 0 || q.price <= 0 then Ok(0)
    else
      var scale :- TenPow(q.decimals);
      MulDivFloor(amount, q.price, scale)
  }

  function QuoteFor(quotes: map<nat, Quote>, key: nat): Result<Quote> {
    if key !in quotes then Err(OraclePriceFetchFailed)
    else if quotes[key].price <= 0 then Err(InvalidOraclePrice)
    else Ok(quotes[key])
  }

  /** One collateral position weighted by its token's factor. */
  function FactoredValue(p: Pool, e: Env, token: int, amount: int): Result<int> {
    if token < 0 then Err(OraclePriceFetchFailed)
    else
      var q :- QuoteFor(e.collateralQuotes, token);
      var value :- UsdValue(amount, q);
      MulScalar7(value, CollateralFactor(p, token))
  }

  /** The factored value of all positions, added up in key order. */
  function CollateralValue(p: Pool, e: Env, collateral: seq<Entry<int>>): Result<int> {
    if collateral == [] then Ok(0)
    else
      var last := collateral[|collateral| - 1];
      var total :- CollateralValue(p, e, collateral[..|collateral| - 1]);
      if last.value == 0 then Ok(total)
      else
        var factored :- FactoredValue(p, e, last.key, last.value);
        CheckedAdd(total, factored)
  }

  /** The USD value of a debt at the stored rate of its reserve. */
  function DebtValue(p: Pool, e: Env, cdp: CDP): Result<int> {
    if cdp.debtAsset.None? || cdp.dTokens <= 0 then Ok(0)
    else
      var asset := cdp.debtAsset.value;
      var amount :- FromDToken(cdp.dTokens, ReserveOf(p, asset, e.now).dRate);
      var q :- QuoteFor(e.assetQuotes, asset);
      UsdValue(amount, q)
  }

  function EffectiveDebt(value: int, lFactor: int): Result<int> {
    MulDivCeil(value, SCALAR_7, lFactor)
  }

  function BorrowLimit(p: Pool, e: Env, borrower: Address): Result<int> {
    var cdp := CDPOrNew(p, borrower, e.now);
    var collateral :- CollateralValue(p, e, cdp.collateral);
    var debt :- DebtValue(p, e, cdp);
    var lFactor := if cdp.debtAsset.Some? && cdp.dTokens > 0 then LFactor(p, cdp.debtAsset.value) else SCALAR_7;
    var effective :- EffectiveDebt(debt, lFactor);
    var limit :- CheckedSub(collateral, effective);
    Ok(Max(limit, 0))
  }

  /** `health_factor.min(u32::MAX) as u32`: the cast wraps a negative quotient. */
  function ToU32(x: int): U32 {
    Min(x, U32_MAX) % TWO_TO_THE_32
  }

  /** Factored collateral over effective debt (7 decimals), `u32::MAX` without debt value. */
  function HealthFactor(p: Pool, e: Env, borrower: Address): Result<U32> {
    if borrower !in p.cdps then Err(CDPNotInsolvent)
    else
      var cdp := p.cdps[borrower];
      var collateral :- CollateralValue(p, e, cdp.collateral);
      var debt :- DebtValue(p, e, cdp);
      if debt == 0 then Ok(U32_MAX)
      else
        var lFactor := if cdp.debtAsset.Some? then LFactor(p, cdp.debtAsset.value) else SCALAR_7;
        var effective :- EffectiveDebt(debt, lFactor);
        var factor :- MulDivFloor(collateral, SCALAR_7, effective);
        Ok(ToU32(factor))
  }

  /** An error on a prefix is the error of the whole. */
  lemma {:induction false} CollateralPrefixFails(p: Pool, e: Env, collateral: seq<Entry<int>>, n: nat)
    requires n <= |collateral| && CollateralValue(p, e, collateral[..n]).Err?
    ensures CollateralValue(p, e, collateral) == CollateralValue(p, e, collateral[..n])
  {
    if n == |collateral| {
      assert collateral[..n] == collateral;
    } else {
      var init := collateral[..|collateral| - 1];
      assert init[..n] == collateral[..n];
      CollateralPrefixFails(p, e, init, n);
    }
  }

  /** The loop both solvency tests run over the collateral keys. */
  method SumCollateral(p: Pool, e: Env, collateral: seq<Entry<int>>) returns (r: Result<int>)
    ensures r == CollateralValue(p, e, collateral)
  {
    var total := 0;
    for i := 0 to |collateral|
      invariant CollateralValue(p, e, collateral[..i]) == Ok(total)
    {
      assert collateral[..i + 1][..i] == collateral[..i];
      var entry := collateral[i];
      if entry.value == 0 {
        continue;
      }
      var factored := FactoredValue(p, e, entry.key, entry.value);
      if factored.Err? {
        CollateralPrefixFails(p, e, collateral, i + 1);
        return Err(factored.error);
      }
      var sum := CheckedAdd(total, factored.value);
      if sum.Err? {
        CollateralPrefixFails(p, e, collateral, i + 1);
        return sum;
      }
      total := sum.value;
    }
    assert collateral[..|collateral|] == collateral;
    return Ok(total);
  }
}
