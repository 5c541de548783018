/** Rust's checked `i128` arithmetic and the pool's fixed-point rounding helpers. */
module FixedPoint {
  import opened Outcomes

  const I128_MAX: int := 0x7FFF_FFFF_FFFF_FFFF_FFFF_FFFF_FFFF_FFFF
  const I128_MIN: int := -0x8000_0000_0000_0000_0000_0000_0000_0000
  const TWO_TO_THE_32: int := 0x1_0000_0000
  const U32_MAX: int := 0xFFFF_FFFF

  const SCALAR_7: int := 10_000_000
  const SCALAR_12: int := 1_000_000_000_000
  const BPS: int := 10_000
  const SECONDS_PER_YEAR: int := 31_536_000

  type U32 = x: int | 0 <= x < TWO_TO_THE_32 witness 0

  predicate FitsI128(x: int) {
    I128_MIN <= x <= I128_MAX
  }

  function Fit(x: int, error: Error): Result<int> {
    if FitsI128(x) then Ok(x) else Err(error)
  }

  /** `checked_add`, `checked_sub` and `checked_mul` followed by `ok_or(ArithmeticError)?`. */
  function CheckedAdd(a: int, b: int): Result<int> {
    Fit(a + b, ArithmeticError)
  }

  function CheckedSub(a: int, b: int): Result<int> {
    Fit(a - b, ArithmeticError)
  }

  function CheckedMul(a: int, b: int): Result<int> {
    Fit(a * b, ArithmeticError)
  }

  /** Rust's `/` on integers: truncation toward zero. */
  function TruncDiv(a: int, b: int): int
    requires b != 0
  {
    if a >= 0 then
      if b > 0 then a / b else -(a / -b)
    else
      if b > 0 then -(-a / b) else -a / -b
  }

  function CheckedDiv(a: int, b: int): Result<int> {
    if b == 0 then Err(ArithmeticError) else Fit(TruncDiv(a, b), ArithmeticError)
  }

  /** The plain operators trap on overflow, because the release profile keeps overflow checks on. */
  function Plus(a: int, b: int): Result<int> {
    Fit(a + b, Trap)
  }

  function Minus(a: int, b: int): Result<int> {
    Fit(a - b, Trap)
  }

  function Min(a: int, b: int): int {
    if a <= b then a else b
  }

  function Max(a: int, b: int): int {
    if a >= b then a else b
  }

  function Clamp(x: int, lo: int, hi: int): int {
    if x < lo then lo else if x > hi then hi else x
  }

  /** Saturating `i128` subtraction: it stops at the type's bounds, not at zero. */
  function SaturatingSub(a: int, b: int): int {
    Clamp(a - b, I128_MIN, I128_MAX)
  }

  // ---- Rounding helpers: a wide product, one division, a narrowing that traps ----

  function FloorDiv(a: int, d: int): (q: int)
    requires d > 0
    ensures q * d <= a < (q + 1) * d
  {
    a / d
  }

  function CeilDiv(a: int, d: int): (q: int)
    requires d > 0
    ensures (q - 1) * d < a <= q * d
  {
    -(-a / d)
  }

  function MulDivFloor(a: int, b: int, divisor: int): Result<int> {
    if divisor <= 0 then Err(ArithmeticError) else Fit(FloorDiv(a * b, divisor), Trap)
  }

  function MulDivCeil(a: int, b: int, divisor: int): Result<int> {
    if divisor <= 0 then Err(ArithmeticError) else Fit(CeilDiv(a * b, divisor), Trap)
  }

  function ToBTokenDown(amount: int, bRate: int): Result<int> {
    MulDivFloor(amount, SCALAR_12, bRate)
  }

  function FromBToken(bTokens: int, bRate: int): Result<int> {
    MulDivFloor(bTokens, bRate, SCALAR_12)
  }

  function ToDTokenUp(amount: int, dRate: int): Result<int> {
    MulDivCeil(amount, SCALAR_12, dRate)
  }

  function ToDTokenDown(amount: int, dRate: int): Result<int> {
    MulDivFloor(amount, SCALAR_12, dRate)
  }

  function FromDToken(dTokens: int, dRate: int): Result<int> {
    MulDivCeil(dTokens, dRate, SCALAR_12)
  }

  function MulScalar7(a: int, b: int): Result<int> {
    MulDivFloor(a, b, SCALAR_7)
  }

  function MulScalar7Ceil(a: int, b: int): Result<int> {
    MulDivCeil(a, b, SCALAR_7)
  }

  // ---- Facts about products and quotients, one instance at a time ----

  lemma MulMono(a: int, b: int, c: int)
    requires a <= b && 0 <= c
    ensures a * c <= b * c
  {
  }

  lemma MulMono2(a: int, b: int, c: int, d: int)
    requires 0 <= a <= b && 0 <= c <= d
    ensures 0 <= a * c <= b * d
  {
    MulMono(a, b, c);
    MulMono(c, d, b);
  }

  /** Strict comparison survives division by a positive factor. */
  lemma MulCancelLess(a: int, b: int, c: int)
    requires a * c < b * c && 0 < c
    ensures a < b
  {
    if a >= b {
      MulMono(b, a, c);
    }
  }

  lemma MulCancel(a: int, b: int, c: int)
    requires a * c <= b * c && 0 < c
    ensures a <= b
  {
    if a > b {
      MulMono(b + 1, a, c);
    }
  }

  /** The quotient is the largest integer whose product stays below. */
  lemma FloorIsGreatest(a: int, d: int, q: int)
    requires d > 0 && q * d <= a
    ensures q <= FloorDiv(a, d)
  {
    var f := FloorDiv(a, d);
    MulCancelLess(q, f + 1, d);
  }

  lemma CeilIsLeast(a: int, d: int, q: int)
    requires d > 0 && a <= q * d
    ensures CeilDiv(a, d) <= q
  {
    var c := CeilDiv(a, d);
    MulCancelLess(c - 1, q, d);
  }

  lemma FloorMono(a: int, b: int, d: int)
    requires d > 0 && a <= b
    ensures FloorDiv(a, d) <= FloorDiv(b, d)
  {
    FloorIsGreatest(b, d, FloorDiv(a, d));
  }

  lemma CeilMono(a: int, b: int, d: int)
    requires d > 0 && a <= b
    ensures CeilDiv(a, d) <= CeilDiv(b, d)
  {
    CeilIsLeast(a, d, CeilDiv(b, d));
  }

  lemma CeilSubadditive(a: int, b: int, d: int)
    requires d > 0
    ensures CeilDiv(a + b, d) <= CeilDiv(a, d) + CeilDiv(b, d)
  {
    CeilIsLeast(a + b, d, CeilDiv(a, d) + CeilDiv(b, d));
  }

  lemma FloorSubadditive(a: int, b: int, d: int)
    requires d > 0
    ensures FloorDiv(a + b, d) <= FloorDiv(a, d) + FloorDiv(b, d) + 1
  {
    var p, q, s := FloorDiv(a, d), FloorDiv(b, d), FloorDiv(a + b, d);
    assert s * d < (p + q + 2) * d;
    MulCancelLess(s, p + q + 2, d);
  }

  lemma FloorNonNegative(a: int, d: int)
    requires d > 0 && a >= 0
    ensures 0 <= FloorDiv(a, d) <= a
  {
    FloorIsGreatest(a, d, 0);
    var q := FloorDiv(a, d);
    MulMono(1, d, q);
  }

  lemma DivZero(d: int)
    requires d > 0
    ensures FloorDiv(0, d) == 0 && CeilDiv(0, d) == 0
  {
    FloorNonNegative(0, d);
    CeilIsLeast(0, d, 0);
    MulCancelLess(-1, CeilDiv(0, d), d);
  }

  /** At a rate of 1.0 nothing is rounded. */
  lemma WholeTokens(x: int)
    ensures FloorDiv(x * SCALAR_12, SCALAR_12) == x && CeilDiv(x * SCALAR_12, SCALAR_12) == x
  {
  }
}
