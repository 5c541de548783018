/** The Soroswap adapter's integer square root and LP valuation. */
module Soroswap {
  import opened Outcomes
  import opened FixedPoint

  /** `n` is the integer square root of `x`. */
  predicate IsRoot(n: int, x: int) {
    n >= 0 && n * n <= x < (n + 1) * (n + 1)
  }

  /** One Newton step from any guess overshoots or hits the root: the AM-GM inequality. */
  lemma NewtonAboveRoot(x: int, guess: int)
    requires x > 0 && guess > 0
    ensures var next := (guess + x / guess) / 2;
            x < (next + 1) * (next + 1)
  {
    var q := x / guess;
    var next := (guess + q) / 2;
    assert x < (q + 1) * guess;
    var s := guess + q + 1;
    assert 4 * ((q + 1) * guess) <= s * s by {
      assert s * s - 4 * ((q + 1) * guess) == (guess - (q + 1)) * (guess - (q + 1));
      SquareNonNegative(guess - (q + 1));
    }
    assert s <= 2 * next + 2;
    MulMono2(s, 2 * next + 2, s, 2 * next + 2);
    assert (2 * next + 2) * (2 * next + 2) == 4 * ((next + 1) * (next + 1));
  }

  lemma SquareNonNegative(d: int)
    ensures d * d >= 0
  {
    if d >= 0 {
      MulMono2(0, d, 0, d);
    } else {
      MulMono2(0, -d, 0, -d);
    }
  }

  /** When a step does not go down, the guess is already low enough. */
  lemma StationaryBelowRoot(x: int, guess: int)
    requires x > 0 && guess > 0 && (guess + x / guess) / 2 >= guess
    ensures guess * guess <= x
  {
    var q := x / guess;
    MulMono(guess, q, guess);
    assert q * guess <= x;
  }

  /** Newton's iteration, from the argument down.  Its comment promises every non-negative `i128`;
      the first addition overflows on the largest one, and no other sum does. */
  method Isqrt(x: int) returns (r: Result<int>)
    requires FitsI128(x)
    ensures x == I128_MAX ==> r == Err(Trap)
    ensures x < 0 ==> r == Ok(0)
    ensures 0 <= x < I128_MAX ==> r.Ok? && IsRoot(r.value, x)
  {
    if x <= 0 {
      return Ok(0);
    }
    var guess := x;
    var sum :- Plus(guess, 1);
    var next := sum / 2;
    assert x / x == 1 by {
      FloorIsGreatest(x, x, 1);
      MulCancelLess(x / x, 2, x);
    }
    MulMono(1, x + 1, x + 1);
    while next < guess
      invariant 0 < guess <= x
      invariant next == (guess + x / guess) / 2
      invariant x < (guess + 1) * (guess + 1)
      decreases guess
    {
      NewtonAboveRoot(x, guess);
      NewtonPositive(x, guess);
      guess := next;
      NewtonFits(x, guess);
      sum := Plus(guess, x / guess).value;
      next := sum / 2;
    }
    StationaryBelowRoot(x, guess);
    return Ok(guess);
  }

  /** The sum of a step is at most `x + 1`. */
  lemma NewtonFits(x: int, guess: int)
    requires 0 < guess <= x
    ensures 0 < guess + x / guess <= x + 1
  {
    var q := x / guess;
    FloorIsGreatest(x, guess, 1);
    MulMono2(0, guess - 1, 0, q - 1);
    assert (guess - 1) * (q - 1) == q * guess - guess - q + 1;
  }

  lemma NewtonPositive(x: int, guess: int)
    requires 0 < guess <= x
    ensures (guess + x / guess) / 2 > 0
  {
    FloorIsGreatest(x, guess, 1);
  }

  /** There is only one integer square root. */
  lemma RootUnique(m: int, n: int, x: int)
    requires IsRoot(m, x) && IsRoot(n, x)
    ensures m == n
  {
    if m < n {
      MulMono2(m + 1, n, m + 1, n);
    } else if n < m {
      MulMono2(n + 1, m, n + 1, m);
    }
  }

  // ---- Fair value ----

  const SCALE: int := 1_000_000

  /** `checked_mul(..).unwrap_or(fallback)`. */
  function MulOr(a: int, b: int, fallback: int): int {
    if FitsI128(a * b) then a * b else fallback
  }

  /** The adapter's share of one reserve: zero when the product overflows. */
  function Share(reserve: int, lpBalance: int, totalLp: int): int
    requires totalLp > 0
  {
    FloorDiv(MulOr(reserve, lpBalance, 0), totalLp)
  }

  /** The share of token b, in token a at the spot price. */
  function InTokenA(shareB: int, reserveA: int, reserveB: int): int
    requires reserveB > 0
  {
    FloorDiv(MulOr(shareB, reserveA, 0), reserveB)
  }

  /** The argument of the square root, with its overflow fallbacks. */
  function ScaledProduct(shareA: int, shareBInA: int): int {
    MulOr(MulOr(shareA, SCALE, shareA), MulOr(shareBInA, SCALE, shareBInA), 0)
  }

  function FairFromRoot(root: int): int
    requires root >= 0
  {
    MulOr(root, 2, root) / SCALE
  }

  /** What the valuation answers when its square root does not trap. */
  ghost predicate IsFairValue(fair: int, reserveA: int, reserveB: int, lpBalance: int, totalLp: int)
    requires totalLp > 0 && reserveB > 0
  {
    var a := Share(reserveA, lpBalance, totalLp);
    var b := InTokenA(Share(reserveB, lpBalance, totalLp), reserveA, reserveB);
    exists root :: IsRoot(root, ScaledProduct(a, b)) && fair == FairFromRoot(root)
  }

  method FairValue(reserveA: nat, reserveB: nat, lpBalance: nat, totalLp: nat) returns (fair: Result<int>)
    ensures lpBalance == 0 || totalLp == 0 || reserveA == 0 || reserveB == 0 ==> fair == Ok(0)
    ensures lpBalance != 0 && totalLp != 0 && reserveA != 0 && reserveB != 0 ==>
              var a := Share(reserveA, lpBalance, totalLp);
              var b := InTokenA(Share(reserveB, lpBalance, totalLp), reserveA, reserveB);
              if ScaledProduct(a, b) == I128_MAX then fair == Err(Trap)
              else fair.Ok? && IsFairValue(fair.value, reserveA, reserveB, lpBalance, totalLp)
  {
    if lpBalance == 0 || totalLp == 0 || reserveA == 0 || reserveB == 0 {
      return Ok(0);
    }
    var shareA := Share(reserveA, lpBalance, totalLp);
    var shareB := Share(reserveB, lpBalance, totalLp);
    var shareBInA := InTokenA(shareB, reserveA, reserveB);
    ShareNonNegative(reserveA, lpBalance, totalLp);
    ShareNonNegative(reserveB, lpBalance, totalLp);
    InTokenANonNegative(shareB, reserveA, reserveB);
    ProductNonNegative(shareA, shareBInA);
    var product := ScaledProduct(shareA, shareBInA);
    var root :- Isqrt(product);
    return Ok(FairFromRoot(root));
  }

  lemma ShareNonNegative(reserve: int, lpBalance: int, totalLp: int)
    requires reserve >= 0 && lpBalance >= 0 && totalLp > 0
    ensures Share(reserve, lpBalance, totalLp) >= 0
  {
    MulMono2(0, reserve, 0, lpBalance);
    FloorNonNegative(MulOr(reserve, lpBalance, 0), totalLp);
  }

  lemma InTokenANonNegative(shareB: int, reserveA: int, reserveB: int)
    requires shareB >= 0 && reserveA >= 0 && reserveB > 0
    ensures InTokenA(shareB, reserveA, reserveB) >= 0
  {
    MulMono2(0, shareB, 0, reserveA);
    FloorNonNegative(MulOr(shareB, reserveA, 0), reserveB);
  }

  lemma ProductNonNegative(a: int, b: int)
    requires a >= 0 && b >= 0
    ensures 0 <= ScaledProduct(a, b) <= I128_MAX
  {
    var x, y := MulOr(a, SCALE, a), MulOr(b, SCALE, b);
    MulMono2(0, x, 0, y);
  }

  /** No product of the valuation overflows. */
  predicate NothingOverflows(reserveA: int, reserveB: int, lpBalance: int, totalLp: int)
    requires totalLp > 0 && reserveB > 0
  {
    var a := Share(reserveA, lpBalance, totalLp);
    var shareB := Share(reserveB, lpBalance, totalLp);
    var b := InTokenA(shareB, reserveA, reserveB);
    && FitsI128(reserveA * lpBalance) && FitsI128(reserveB * lpBalance) && FitsI128(shareB * reserveA)
    && FitsI128(a * SCALE) && FitsI128(b * SCALE) && a * SCALE * (b * SCALE) < I128_MAX
  }

  /** A share that does not overflow is its fraction of the reserve, rounded down. */
  lemma ShareIs(reserve: int, lpBalance: int, totalLp: int)
    requires totalLp > 0 && FitsI128(reserve * lpBalance)
    ensures var share := Share(reserve, lpBalance, totalLp);
            share * totalLp <= reserve * lpBalance < (share + 1) * totalLp
  {
    hide FloorDiv;
  }

  /** And its conversion is its worth at the spot price, rounded down. */
  lemma ConversionIs(shareB: int, reserveA: int, reserveB: int)
    requires reserveB > 0 && FitsI128(shareB * reserveA)
    ensures var b := InTokenA(shareB, reserveA, reserveB);
            b * reserveB <= shareB * reserveA < (b + 1) * reserveB
  {
    hide FloorDiv;
  }

  /** When a share, its conversion or the scaled product overflows, the position is valued at nothing. */
  lemma OverflowIsWorthNothing(reserveA: int, reserveB: int, lpBalance: int, totalLp: int, fair: int)
    requires totalLp > 0 && reserveB > 0 && IsFairValue(fair, reserveA, reserveB, lpBalance, totalLp)
    requires var a, shareB := Share(reserveA, lpBalance, totalLp), Share(reserveB, lpBalance, totalLp);
             || !FitsI128(reserveA * lpBalance) || !FitsI128(reserveB * lpBalance) || !FitsI128(shareB * reserveA)
             || (var b := InTokenA(shareB, reserveA, reserveB);
                 FitsI128(a * SCALE) && FitsI128(b * SCALE) && !FitsI128(a * SCALE * (b * SCALE)))
    ensures fair == 0
  {
    var a, shareB := Share(reserveA, lpBalance, totalLp), Share(reserveB, lpBalance, totalLp);
    var b := InTokenA(shareB, reserveA, reserveB);
    var root :| IsRoot(root, ScaledProduct(a, b)) && fair == FairFromRoot(root);
    NoShare(reserveA, lpBalance, totalLp);
    NoShare(reserveB, lpBalance, totalLp);
    NoConversion(shareB, reserveA, reserveB);
    NoProduct(a, b);
    hide Share, InTokenA, ScaledProduct, FitsI128;
    RootUnique(root, 0, 0);
  }

  lemma NoShare(reserve: int, lpBalance: int, totalLp: int)
    requires totalLp > 0
    ensures !FitsI128(reserve * lpBalance) ==> Share(reserve, lpBalance, totalLp) == 0
  {
    hide FloorDiv;
    DivZero(totalLp);
  }

  lemma NoConversion(shareB: int, reserveA: int, reserveB: int)
    requires reserveB > 0
    ensures shareB == 0 || !FitsI128(shareB * reserveA) ==> InTokenA(shareB, reserveA, reserveB) == 0
  {
    hide FloorDiv;
    DivZero(reserveB);
  }

  lemma NoProduct(a: int, b: int)
    ensures a == 0 || b == 0 ==> ScaledProduct(a, b) == 0
    ensures FitsI128(a * SCALE) && FitsI128(b * SCALE) && !FitsI128(a * SCALE * (b * SCALE)) ==>
              ScaledProduct(a, b) == 0
  {
    ZeroTimes(a, b);
    ZeroTimes(MulOr(a, SCALE, a), MulOr(b, SCALE, b));
  }

  lemma ZeroTimes(a: int, b: int)
    ensures a == 0 || b == 0 ==> a * b == 0
  {
  }

  /** Converted at the spot price, the share of b is never worth more than the share of a:
      both are the same fraction of the pool, rounded down once or twice. */
  lemma ShareOfBAtMostA(reserveA: int, reserveB: int, lpBalance: int, totalLp: int)
    requires reserveA > 0 && reserveB > 0 && lpBalance >= 0 && totalLp > 0
    requires NothingOverflows(reserveA, reserveB, lpBalance, totalLp)
    ensures InTokenA(Share(reserveB, lpBalance, totalLp), reserveA, reserveB) <= Share(reserveA, lpBalance, totalLp)
  {
    var a, shareB := Share(reserveA, lpBalance, totalLp), Share(reserveB, lpBalance, totalLp);
    var b := InTokenA(shareB, reserveA, reserveB);
    hide Share, InTokenA;
    ShareIs(reserveA, lpBalance, totalLp);
    ShareIs(reserveB, lpBalance, totalLp);
    ConversionIs(shareB, reserveA, reserveB);
    ConvertedShare(reserveA, reserveB, lpBalance, totalLp, shareB, b);
    MulCancelLess(b, a + 1, totalLp);
  }

  lemma ConvertedShare(reserveA: int, reserveB: int, lpBalance: int, totalLp: int, shareB: int, b: int)
    requires reserveA > 0 && reserveB > 0 && totalLp > 0
    requires shareB * totalLp <= reserveB * lpBalance && b * reserveB <= shareB * reserveA
    ensures b * totalLp <= reserveA * lpBalance
  {
    MulMono(b * reserveB, shareB * reserveA, totalLp);
    MulMono(shareB * totalLp, reserveB * lpBalance, reserveA);
    assert b * reserveB * totalLp == b * totalLp * reserveB;
    assert shareB * reserveA * totalLp == shareB * totalLp * reserveA;
    assert reserveB * lpBalance * reserveA == reserveA * lpBalance * reserveB;
    MulCancel(b * totalLp, reserveA * lpBalance, reserveB);
  }

  /** Geometric mean between twice the smaller and the sum, after scaling and unscaling. */
  lemma MeanBounds(a: int, b: int, root: int)
    requires 0 <= b <= a && IsRoot(root, a * SCALE * (b * SCALE)) && root * 2 <= I128_MAX
    ensures 2 * b <= FairFromRoot(root) <= a + b
  {
    var x, y := a * SCALE, b * SCALE;
    RootAtLeast(x, y, root);
    RootAtMost(x, y, root);
  }

  lemma RootAtLeast(x: int, y: int, root: int)
    requires 0 <= y <= x && IsRoot(root, x * y)
    ensures y <= root
  {
    if root + 1 <= y {
      MulMono2(root + 1, y, root + 1, y);
      MulMono(y, x, y);
    }
  }

  lemma SquareCancel(a: int, b: int)
    requires 0 <= b && a * a <= b * b
    ensures a <= b
  {
    if a > b {
      MulMono2(b + 1, a, b + 1, a);
    }
  }

  lemma RootAtMost(x: int, y: int, root: int)
    requires 0 <= y && 0 <= x && IsRoot(root, x * y)
    ensures 2 * root <= x + y
  {
    SquareNonNegative(x - y);
    assert (x + y) * (x + y) - 4 * (x * y) == (x - y) * (x - y);
    assert 2 * root * (2 * root) == 4 * (root * root);
    SquareCancel(2 * root, x + y);
  }

  /** The root of an `i128` fits in half the bits, so doubling it cannot overflow. */
  lemma RootSmall(root: int, x: int)
    requires IsRoot(root, x) && x <= I128_MAX
    ensures 2 * root <= I128_MAX
  {
    SquareCancel(root, 0x1_0000_0000_0000_0000);
  }

  /** When nothing overflows, the fair value lies between twice the share of b and the sum of
      both shares, and the share of b is at most the share of a. */
  lemma FairValueBounds(reserveA: int, reserveB: int, lpBalance: int, totalLp: int, fair: int)
    requires reserveA > 0 && reserveB > 0 && lpBalance >= 0 && totalLp > 0
    requires NothingOverflows(reserveA, reserveB, lpBalance, totalLp)
    requires IsFairValue(fair, reserveA, reserveB, lpBalance, totalLp)
    ensures var a := Share(reserveA, lpBalance, totalLp);
            var b := InTokenA(Share(reserveB, lpBalance, totalLp), reserveA, reserveB);
            0 <= b <= a && 2 * b <= fair <= a + b
  {
    var a := Share(reserveA, lpBalance, totalLp);
    var b := InTokenA(Share(reserveB, lpBalance, totalLp), reserveA, reserveB);
    var root :| IsRoot(root, ScaledProduct(a, b)) && fair == FairFromRoot(root);
    hide Share, InTokenA;
    ShareNonNegative(reserveB, lpBalance, totalLp);
    InTokenANonNegative(Share(reserveB, lpBalance, totalLp), reserveA, reserveB);
    ShareOfBAtMostA(reserveA, reserveB, lpBalance, totalLp);
    ScaledFits(a, b);
    hide NothingOverflows, ScaledProduct, FairFromRoot;
    RootSmall(root, a * SCALE * (b * SCALE));
    MeanBounds(a, b, root);
  }

  lemma ScaledFits(a: int, b: int)
    requires a >= 0 && b >= 0
    requires FitsI128(a * SCALE) && FitsI128(b * SCALE) && a * SCALE * (b * SCALE) < I128_MAX
    ensures ScaledProduct(a, b) == a * SCALE * (b * SCALE)
  {
    MulMono2(0, a * SCALE, 0, b * SCALE);
  }

  // ---- What the value follows ----

  /** The conversion at the spot price undoes the other reserve: what is lost against the share of a
      is less than one unit of token b's price and one of token a. */
  lemma ShareOfBNearA(reserveA: int, reserveB: int, lpBalance: int, totalLp: int)
    requires reserveA > 0 && reserveB > 0 && lpBalance >= 0 && totalLp > 0
    requires NothingOverflows(reserveA, reserveB, lpBalance, totalLp)
    ensures var a := Share(reserveA, lpBalance, totalLp);
            var b := InTokenA(Share(reserveB, lpBalance, totalLp), reserveA, reserveB);
            (b + 1) * reserveB > a * reserveB - reserveA && a - b <= CeilDiv(reserveA, reserveB)
  {
    var a, shareB := Share(reserveA, lpBalance, totalLp), Share(reserveB, lpBalance, totalLp);
    var b := InTokenA(shareB, reserveA, reserveB);
    hide Share, InTokenA, CeilDiv;
    ShareIs(reserveA, lpBalance, totalLp);
    ShareIs(reserveB, lpBalance, totalLp);
    ConversionIs(shareB, reserveA, reserveB);
    LostInConversion(reserveA, reserveB, lpBalance, totalLp, a, shareB, b);
    LossInUnits(reserveA, reserveB, a, b);
  }

  lemma LostInConversion(reserveA: int, reserveB: int, lpBalance: int, totalLp: int, a: int, shareB: int, b: int)
    requires reserveA > 0 && reserveB > 0 && totalLp > 0
    requires a * totalLp <= reserveA * lpBalance && reserveB * lpBalance < (shareB + 1) * totalLp
    requires shareB * reserveA < (b + 1) * reserveB
    ensures (b + 1) * reserveB > a * reserveB - reserveA
  {
    MulMono(a * totalLp, reserveA * lpBalance, reserveB);
    MulMono(reserveB * lpBalance + 1, (shareB + 1) * totalLp, reserveA);
    assert reserveA * lpBalance * reserveB == reserveB * lpBalance * reserveA;
    assert a * totalLp * reserveB == a * reserveB * totalLp;
    assert (shareB + 1) * totalLp * reserveA == (shareB * reserveA + reserveA) * totalLp;
    MulCancelLess(a * reserveB, shareB * reserveA + reserveA, totalLp);
  }

  lemma LossInUnits(reserveA: int, reserveB: int, a: int, b: int)
    requires reserveB > 0 && (b + 1) * reserveB > a * reserveB - reserveA
    ensures a - b <= CeilDiv(reserveA, reserveB)
  {
    hide CeilDiv;
    var c := CeilDiv(reserveA, reserveB);
    assert a * reserveB < (b + 1) * reserveB + c * reserveB;
    assert (b + 1) * reserveB + c * reserveB == (b + 1 + c) * reserveB;
    MulCancelLess(a, b + 1 + c, reserveB);
  }

  /** The fair value is twice the share of a, up to twice the price of one unit of token b. */
  lemma FairValueIsTwiceShareA(reserveA: int, reserveB: int, lpBalance: int, totalLp: int, fair: int)
    requires reserveA > 0 && reserveB > 0 && lpBalance >= 0 && totalLp > 0
    requires NothingOverflows(reserveA, reserveB, lpBalance, totalLp)
    requires IsFairValue(fair, reserveA, reserveB, lpBalance, totalLp)
    ensures var a := Share(reserveA, lpBalance, totalLp);
            2 * a - 2 * CeilDiv(reserveA, reserveB) <= fair <= 2 * a
  {
    FairValueBounds(reserveA, reserveB, lpBalance, totalLp, fair);
    ShareOfBNearA(reserveA, reserveB, lpBalance, totalLp);
    hide Share, InTokenA, IsFairValue, NothingOverflows, CeilDiv;
  }

  /** How far the fair value times the LP supply can lie below twice reserve a times the LP balance. */
  function Slack(reserveA: int, reserveB: int, totalLp: int): int
    requires reserveB > 0
  {
    2 * (CeilDiv(reserveA, reserveB) + 1) * totalLp
  }

  /** So it follows reserve a alone: reserve b only sets the slack. */
  lemma FairValueFollowsReserveA(reserveA: int, reserveB: int, lpBalance: int, totalLp: int, fair: int)
    requires reserveA > 0 && reserveB > 0 && lpBalance >= 0 && totalLp > 0
    requires NothingOverflows(reserveA, reserveB, lpBalance, totalLp)
    requires IsFairValue(fair, reserveA, reserveB, lpBalance, totalLp)
    ensures 2 * (reserveA * lpBalance) - Slack(reserveA, reserveB, totalLp) < fair * totalLp
         <= 2 * (reserveA * lpBalance)
  {
    hide Share, InTokenA, IsFairValue, CeilDiv;
    FairValueIsTwiceShareA(reserveA, reserveB, lpBalance, totalLp, fair);
    ShareIs(reserveA, lpBalance, totalLp);
    FollowArithmetic(reserveA * lpBalance, totalLp, Share(reserveA, lpBalance, totalLp), CeilDiv(reserveA, reserveB),
                     fair);
  }

  lemma FollowArithmetic(value: int, total: int, a: int, c: int, fair: int)
    requires total > 0 && a * total <= value < (a + 1) * total && 2 * a - 2 * c <= fair <= 2 * a
    ensures 2 * value - 2 * (c + 1) * total < fair * total <= 2 * value
  {
    MulMono(fair, 2 * a, total);
    MulMono(2 * a - 2 * c, fair, total);
    assert (2 * a - 2 * c) * total == 2 * ((a + 1) * total) - 2 * (c + 1) * total;
  }

  /** A swap of a 10% ratio skew is to move the value by at most 0.5%. */
  predicate MovesWithin(before: int, after: int) {
    -before <= 200 * (after - before) <= before
  }

  lemma MoveArithmetic(value: int, value': int, fair: int, fair': int, total: int, slack: int)
    requires total > 0 && value - slack < fair * total <= value && value' - slack < fair' * total <= value'
    ensures 200 * (value' - value + slack) <= value - slack && 200 * (value - value' + slack) <= value - slack ==>
              MovesWithin(fair, fair')
    ensures 200 * (value' - value - slack) > value || 200 * (value - value' - slack) > value ==>
              !MovesWithin(fair, fair')
  {
    var d := 200 * (fair' - fair);
    assert d * total == 200 * (fair' * total - fair * total);
    if d > fair {
      MulMono(fair + 1, d, total);
    } else if d < -fair {
      MulMono(d, -fair - 1, total);
    } else {
      MulMono(d, fair, total);
      MulMono(-fair, d, total);
    }
  }

  /** Between two states of the pair, the promised half a percent is kept when reserve a moves by less
      than half a percent, and broken when it moves by more, up to the larger slack; whatever reserve b
      and the product of the two do. */
  lemma SwapMovesFairValue(reserveA: int, reserveB: int, reserveA': int, reserveB': int, lpBalance: int, totalLp: int,
      fair: int, fair': int)
    requires reserveA > 0 && reserveB > 0 && reserveA' > 0 && reserveB' > 0 && lpBalance >= 0 && totalLp > 0
    requires NothingOverflows(reserveA, reserveB, lpBalance, totalLp)
    requires NothingOverflows(reserveA', reserveB', lpBalance, totalLp)
    requires IsFairValue(fair, reserveA, reserveB, lpBalance, totalLp)
    requires IsFairValue(fair', reserveA', reserveB', lpBalance, totalLp)
    ensures var value, value' := 2 * (reserveA * lpBalance), 2 * (reserveA' * lpBalance);
            var slack := Max(Slack(reserveA, reserveB, totalLp), Slack(reserveA', reserveB', totalLp));
            && (200 * (value' - value + slack) <= value - slack && 200 * (value - value' + slack) <= value - slack ==>
                  MovesWithin(fair, fair'))
            && (200 * (value' - value - slack) > value || 200 * (value - value' - slack) > value ==>
                  !MovesWithin(fair, fair'))
  {
    hide IsFairValue, NothingOverflows, Slack, MovesWithin;
    FairValueFollowsReserveA(reserveA, reserveB, lpBalance, totalLp, fair);
    FairValueFollowsReserveA(reserveA', reserveB', lpBalance, totalLp, fair');
    MoveArithmetic(2 * (reserveA * lpBalance), 2 * (reserveA' * lpBalance), fair, fair', totalLp,
                   Max(Slack(reserveA, reserveB, totalLp), Slack(reserveA', reserveB', totalLp)));
  }

  /** The value of a tenth of an even pool, before and after a swap that keeps the product. */
  lemma EvenPool(fair: int)
    requires IsFairValue(fair, 420_000_000, 420_000_000, 100, 1_000)
    ensures fair == 84_000_000
  {
    var root :| IsRoot(root, ScaledProduct(42_000_000, 42_000_000)) && fair == FairFromRoot(root);
    RootUnique(root, 42_000_000_000_000, 42_000_000_000_000 * 42_000_000_000_000);
  }

  lemma SkewedPool(fair: int)
    requires IsFairValue(fair, 441_000_000, 400_000_000, 100, 1_000)
    ensures fair == 88_200_000
  {
    var root :| IsRoot(root, ScaledProduct(44_100_000, 44_100_000)) && fair == FairFromRoot(root);
    RootUnique(root, 44_100_000_000_000, 44_100_000_000_000 * 44_100_000_000_000);
  }

  /** The product of the reserves is the same, their ratio moved by 10.25%, and the value by 5%. */
  lemma SkewMovesFairValue(fair: int, fair': int)
    requires IsFairValue(fair, 420_000_000, 420_000_000, 100, 1_000)
    requires IsFairValue(fair', 441_000_000, 400_000_000, 100, 1_000)
    ensures 420_000_000 * 420_000_000 == 441_000_000 * 400_000_000
    ensures 20 * (fair' - fair) == fair && !MovesWithin(fair, fair')
  {
    hide IsFairValue;
    EvenPool(fair);
    SkewedPool(fair');
  }
}
