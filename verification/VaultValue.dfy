/** What a share is worth: nobody's operation takes value from the other holders, and fees are
    charged on new gains only. */
module VaultValue {
  import opened Outcomes
  import opened FixedPoint
  import Sums
  import opened VaultRules
  import opened VaultFunds
  import opened RebalanceFacts
  import opened VaultSafety
  import opened VaultRuns

  /** Net asset value per share has not fallen, cross-multiplied. */
  ghost predicate PerShareKept(v: State, w: State) {
    NetValue(w) * v.storage.totalShares >= NetValue(v) * w.storage.totalShares
  }

  lemma NetValueFrame(v: State, w: State)
    requires v.positions == w.positions
    requires v.storage.ids == w.storage.ids && v.storage.allocations == w.storage.allocations
    ensures NetValue(w) - w.storage.reserve == NetValue(v) - v.storage.reserve
  {
    ValueFrame(v.storage, w.storage, v.positions, |v.storage.ids|);
  }

  lemma NetValueNonNegative(v: State)
    requires Sound(v)
    ensures NetValue(v) >= 0 && v.storage.totalShares >= 0
  {
    ValueNonNegative(v.storage, v.positions, |v.storage.ids|);
    HolderWithinSupply(v, 0);
  }

  /** (n + a) t >= n (t + s) exactly when a t >= n s. */
  lemma CrossAdd(n: int, a: int, t: int, s: int)
    ensures (n + a) * t - n * (t + s) == a * t - n * s
  {
  }

  /** A deposit raises net asset value by the amount, and never lowers it per share while shares
      are outstanding.  With none outstanding it does exactly when value was left behind. */
  lemma DepositKeepsPerShare(v: State, from: Address, amount: int)
    requires Sound(v) && Deposit(v, from, amount).Ok?
    ensures var (w, shares) := Deposit(v, from, amount).value;
            && NetValue(w) == NetValue(v) + amount
            && (PerShareKept(v, w) <==> v.storage.totalShares > 0 || NetValue(v) == 0)
  {
    hide Deposit, Sound, SharesOf, Nav, Gap, ToShares, FloorDiv, Value;
    var (w, shares) := Deposit(v, from, amount).value;
    DepositEffect(v, from, amount);
    DepositShares(v, from, amount);
    NetValueFrame(v, w);
    NetValueNonNegative(v);
    hide NetValue;
    DepositArithmetic(NetValue(v), v.storage.totalShares, amount, shares);
  }

  lemma DepositArithmetic(nav: int, total: int, amount: int, shares: int)
    requires nav >= 0 && total >= 0 && amount > 0 && shares > 0
    requires shares == if total <= 0 || nav <= 0 then amount else FloorDiv(amount * total, nav)
    ensures (nav + amount) * total >= nav * (total + shares) <==> total > 0 || nav == 0
  {
    CrossAdd(nav, amount, total, shares);
    if total == 0 && nav > 0 {
      MulMono2(1, nav, 1, shares);
    } else if nav == 0 {
      MulMono2(0, amount, 0, total);
    }
  }

  /** A withdrawal never lowers net asset value per share. */
  lemma WithdrawKeepsPerShare(v: State, from: Address, shares: int)
    requires Sound(v) && DistinctAdapters(v.storage) && Withdraw(v, from, shares).Ok?
    ensures PerShareKept(v, Withdraw(v, from, shares).value.0)
  {
    hide Withdraw, Sound, DistinctAdapters, NetValue, SharesOf, Reach, Worth, NonNegative, FloorDiv;
    WithdrawPays(v, from, shares);
    WithdrawIsExact(v, from, shares);
    WithdrawArithmetic(NetValue(v), v.storage.totalShares, shares, Withdraw(v, from, shares).value.1);
  }

  lemma WithdrawArithmetic(nav: int, total: int, shares: int, paid: int)
    requires total > 0 && paid == FloorDiv(shares * nav, total)
    ensures (nav - paid) * total >= nav * (total - shares)
  {
    CrossAdd(nav, -paid, total, -shares);
    assert -paid * total == -(paid * total);
  }

  /** A burn leaves the funds alone; per share they do not fall exactly when the amount is not
      negative or there is nothing to share. */
  lemma BurnKeepsPerShareIff(v: State, from: Address, amount: int)
    requires Sound(v) && Burn(v, from, amount).Ok?
    ensures PerShareKept(v, Burn(v, from, amount).value) <==> amount >= 0 || NetValue(v) == 0
  {
    BurnRetires(v, from, amount);
    NetValueFrame(v, Burn(v, from, amount).value);
    NetValueNonNegative(v);
    var nav := NetValue(v);
    CrossAdd(nav, 0, v.storage.totalShares, -amount);
    hide Burn, Sound, NetValue, SharesOf;
    if amount >= 0 {
      MulMono2(0, nav, 0, amount);
    } else if nav > 0 {
      MulMono2(1, nav, 1, -amount);
    }
  }

  /** Depositing and at once withdrawing the shares bought never profits while others hold shares,
      or when nothing was left behind; otherwise the depositor also walks off with what was left. */
  lemma RoundTripNeverProfitsIff(v: State, from: Address, amount: int)
    requires Sound(v) && DistinctAdapters(v.storage) && Deposit(v, from, amount).Ok?
    requires var (w, shares) := Deposit(v, from, amount).value; Withdraw(w, from, shares).Ok?
    ensures var (w, shares) := Deposit(v, from, amount).value;
            var paid := Withdraw(w, from, shares).value.1;
            paid <= amount <==> v.storage.totalShares > 0 || NetValue(v) == 0
  {
    var (w, shares) := Deposit(v, from, amount).value;
    DepositEffect(v, from, amount);
    DepositShares(v, from, amount);
    DepositKeepsPerShare(v, from, amount);
    DepositKeepsSound(v, from, amount);
    DistinctFrame(v.storage, w.storage);
    NetValueNonNegative(v);
    WithdrawIsExact(w, from, shares);
    var paid := Withdraw(w, from, shares).value.1;
    var nav, total := NetValue(v), v.storage.totalShares;
    hide Deposit, Withdraw, Sound, NetValue, SharesOf, DistinctAdapters, Nav, Gap, ToShares, PerShareKept;
    RoundTripArithmetic(nav, total, amount, shares, paid);
  }

  lemma RoundTripArithmetic(nav: int, total: int, amount: int, shares: int, paid: int)
    requires nav >= 0 && total >= 0 && amount > 0 && shares > 0
    requires shares == if total <= 0 || nav <= 0 then amount else FloorDiv(amount * total, nav)
    requires paid == FloorDiv(shares * (nav + amount), total + shares)
    ensures paid <= amount <==> total > 0 || nav == 0
  {
    if total > 0 || nav == 0 {
      assert shares * nav <= amount * total by {
        MulMono2(0, amount, 0, total);
      }
      assert shares * (nav + amount) == shares * nav + shares * amount;
      assert amount * (total + shares) == amount * total + shares * amount;
      MulCancel(paid, amount, total + shares);
    } else {
      assert shares * (nav + amount) == (nav + amount) * (total + shares);
      FloorIsGreatest(shares * (nav + amount), total + shares, nav + amount);
    }
  }

  // ---- Runs of the holders' own operations ----

  /** What holders and the manager do between fees, gains and losses; a negative burn mints. */
  predicate Neutral(op: Op) {
    match op
    case DepositOp(_, _) => true
    case WithdrawOp(_, _) => true
    case TransferOp(_, _, _) => true
    case TransferFromOp(_, _, _, _) => true
    case ApproveOp(_, _, _, _) => true
    case BurnOp(_, amount) => amount >= 0
    case BurnFromOp(_, _, amount) => amount >= 0
    case RebalanceOp => true
    case ExitOp => true
    case PauseOp => true
    case UnpauseOp => true
    case ConfigOp(_) => true
    case _ => false
  }

  /** Shares stay outstanding, and adapters distinct, before each of the events. */
  ghost predicate Outstanding(v: State, events: seq<Event>) {
    forall n :: 0 <= n < |events| ==>
      Run(v, events[..n]).storage.totalShares > 0 && DistinctAdapters(Run(v, events[..n]).storage)
  }

  lemma EventKeepsPerShare(v: State, event: Event)
    requires Sound(v) && v.storage.totalShares > 0 && DistinctAdapters(v.storage)
    requires Neutral(event.op) && Fair(v, event)
    ensures PerShareKept(v, Next(v, event))
  {
    var w := Next(v, event);
    hide Deposit, Withdraw, Transfer, Burn, SpendAllowance, Rebalance, EmergencyExits, Sound, SharesOf, Value,
      DistinctAdapters;
    if Outcome(v, event).Err? {
      return;
    }
    match event.op {
      case DepositOp(from, amount) => DepositKeepsPerShare(v, from, amount);
      case WithdrawOp(from, shares) => WithdrawKeepsPerShare(v, from, shares);
      case TransferOp(from, to, amount) =>
        TransferMoves(v, from, to, amount);
        NetValueFrame(v, w);
      case TransferFromOp(spender, from, to, amount) =>
        SpendTouchesAllowances(v, event.sequence, from, spender, amount);
        TransferMoves(SpendAllowance(v, event.sequence, from, spender, amount).value, from, to, amount);
        NetValueFrame(v, w);
      case BurnOp(from, amount) => BurnKeepsPerShareIff(v, from, amount);
      case BurnFromOp(spender, from, amount) =>
        SpendTouchesAllowances(v, event.sequence, from, spender, amount);
        SpendKeepsSound(v, event.sequence, spender, from, amount);
        NetValueFrame(v, SpendAllowance(v, event.sequence, from, spender, amount).value);
        BurnKeepsPerShareIff(SpendAllowance(v, event.sequence, from, spender, amount).value, from, amount);
      case RebalanceOp =>
        SoundHoldings(v);
        RebalanceConserves(v);
      case ExitOp =>
        SoundHoldings(v);
        ExitConserves(v);
      case _ => NetValueFrame(v, w);
    }
  }

  lemma SoundHoldings(v: State)
    requires Sound(v)
    ensures v.storage.reserve >= 0 && FitsI128(v.storage.reserve) && NonNegative(v.positions)
  {
  }

  /** Ratios compare transitively. */
  lemma CrossTransitive(n0: int, t0: int, n1: int, t1: int, n2: int, t2: int)
    requires t0 >= 0 && t1 > 0 && t2 >= 0
    requires n1 * t0 >= n0 * t1 && n2 * t1 >= n1 * t2
    ensures n2 * t0 >= n0 * t2
  {
    MulMono(n1 * t2, n2 * t1, t0);
    MulMono(n0 * t1, n1 * t0, t2);
    assert n1 * t2 * t0 == n1 * t0 * t2 && n2 * t1 * t0 == n2 * t0 * t1 && n0 * t1 * t2 == n0 * t2 * t1;
    MulCancel(n0 * t2, n2 * t0, t1);
  }

  /** Between fees and outside gains or losses, no run of deposits, withdrawals, transfers, burns,
      rebalances or an emergency exit lowers net asset value per share, as long as shares stay
      outstanding. */
  lemma {:induction false} PerShareOverRuns(v: State, events: seq<Event>)
    requires Sound(v) && Outstanding(v, events)
    requires RunFair(v, events) && forall i :: 0 <= i < |events| ==> Neutral(events[i].op)
    ensures PerShareKept(v, Run(v, events))
  {
    if events != [] {
      var init, last := events[..|events| - 1], events[|events| - 1];
      assert forall n :: 0 <= n < |init| ==> init[..n] == events[..n];
      FairPrefix(v, events);
      PerShareOverRuns(v, init);
      SoundOverRuns(v, init);
      var u := Run(v, init);
      assert Neutral(last.op) && Fair(u, last) && u.storage.totalShares > 0 && DistinctAdapters(u.storage);
      EventKeepsPerShare(u, last);
      EventKeepsSound(u, last);
      NetValueNonNegative(v);
      NetValueNonNegative(Next(u, last));
      hide Next, Sound, DistinctAdapters, NetValue, Neutral, Fair;
      CrossTransitive(NetValue(v), v.storage.totalShares, NetValue(u), u.storage.totalShares,
                      NetValue(Next(u, last)), Next(u, last).storage.totalShares);
    }
  }

  // ---- Fees ----

  lemma {:induction false} NavFrame(v: State, w: State, n: nat)
    requires n <= |v.storage.ids|
    requires v.positions == w.positions && v.storage.reserve == w.storage.reserve
    requires v.storage.ids == w.storage.ids && v.storage.allocations == w.storage.allocations
    ensures NavUpTo(v, n) == NavUpTo(w, n)
  {
    if n > 0 {
      NavFrame(v, w, n - 1);
    }
  }

  /** More shares, a lower price. */
  lemma PriceFalls(nav: int, total: int, more: int)
    requires nav >= 0 && 0 < total <= more && SharePrice(nav, total).Ok?
    ensures SharePrice(nav, more).Ok? && 0 <= SharePrice(nav, more).value <= SharePrice(nav, total).value
  {
    var scaled := nav * SCALAR_7;
    var price := FloorDiv(scaled, total);
    FloorNonNegative(scaled, total);
    FloorNonNegative(scaled, more);
    MulMono(total, more, price + 1);
    MulCancelLess(FloorDiv(scaled, more), price + 1, more);
  }

  /** A second performance fee straight after the first mints nothing: the mark is already at or
      above the diluted price. */
  lemma SecondPerformanceFeeIsFree(v: State)
    requires Sound(v) && ApplyPerformanceFee(v).Ok?
    ensures var w := ApplyPerformanceFee(v).value;
            ApplyPerformanceFee(w) == Ok(w)
  {
    var w := ApplyPerformanceFee(v).value;
    if w != v {
      PerformanceKeepsBooks(v);
      NetValueNonNegative(v);
      NavIsNetValue(v, |v.storage.ids|);
      NavFrame(v, w, |v.storage.ids|);
      PriceFalls(NetValue(v), v.storage.totalShares, w.storage.totalShares);
      hide Sound, NetValue, NavUpTo, SharePrice, MintFee;
    }
  }

  /** The fee is at most its share of the rise, in one inequality without the two roundings. */
  lemma FeeAmountBound(rise: int, total: int, bps: int)
    requires rise > 0 && total > 0 && bps >= 0
    ensures var gains := FloorDiv(rise * total, SCALAR_7);
            var fee := FloorDiv(gains * bps, BPS);
            && 0 <= gains && 0 <= fee
            && fee * BPS * SCALAR_7 <= rise * total * bps
  {
    var gains := FloorDiv(rise * total, SCALAR_7);
    MulMono2(0, rise, 0, total);
    FloorNonNegative(rise * total, SCALAR_7);
    MulMono2(0, gains, 0, bps);
    FloorNonNegative(gains * bps, BPS);
    MulMono(gains * SCALAR_7, rise * total, bps);
    assert gains * SCALAR_7 * bps == gains * bps * SCALAR_7;
  }

  /** The shares minted for a fee cost, at the price before the fee, at most the fee. */
  lemma FeeSharesBound(v: State, fee: int, price: int)
    requires fee >= 0 && price > 0 && MintFee(v, fee, price).Ok?
    ensures (MintFee(v, fee, price).value.storage.totalShares - v.storage.totalShares) * price <= fee * SCALAR_7
  {
    FloorNonNegative(fee * SCALAR_7, price);
    hide AddShares;
  }

  lemma PriceIsFloor(nav: int, total: int)
    requires nav >= 0 && total > 0 && SharePrice(nav, total).Ok?
    ensures SharePrice(nav, total).value == FloorDiv(nav * SCALAR_7, total)
  {
  }

  /** A performance fee is charged only above the old mark, moves the mark to the price, and mints
      shares worth, at that price, at most the configured part of the rise times the supply. */
  lemma PerformanceFeeIsPartOfTheRise(v: State)
    requires Sound(v) && v.storage.highWaterMark >= 0
    requires ApplyPerformanceFee(v).Ok? && ApplyPerformanceFee(v).value != v
    ensures var w := ApplyPerformanceFee(v).value;
            var price, mark := w.storage.highWaterMark, v.storage.highWaterMark;
            var total, feeShares := v.storage.totalShares, w.storage.totalShares - v.storage.totalShares;
            && total > 0 && mark < price == FloorDiv(NetValue(v) * SCALAR_7, total)
            && feeShares >= 0 && NetValue(w) == NetValue(v)
            && feeShares * price * BPS <= (price - mark) * total * v.storage.config.performanceFeeBps
  {
    var w, bps := ApplyPerformanceFee(v).value, v.storage.config.performanceFeeBps;
    var price, mark, total := w.storage.highWaterMark, v.storage.highWaterMark, v.storage.totalShares;
    PerformanceKeepsBooks(v);
    NetValueNonNegative(v);
    NavIsNetValue(v, |v.storage.ids|);
    NetValueFrame(v, w);
    hide Sound, NetValue, NavUpTo, Value, SharesOf, Gap, MintFee;
    PriceIsFloor(NetValue(v), total);
    hide SharePrice;
    FeeAmountBound(price - mark, total, bps);
    var gains := FloorDiv((price - mark) * total, SCALAR_7);
    var fee := FloorDiv(gains * bps, BPS);
    MulMono2(0, price - mark, 0, total);
    MulMono2(0, gains, 0, bps);
    hide FloorDiv;
    if fee > 0 {
      FeeSharesBound(v, fee, price);
      PartOfTheRise(w.storage.totalShares - total, price, fee, (price - mark) * total * bps);
    } else {
      assert w.storage.totalShares == total;
      assert 0 * price * BPS == 0;
    }
  }

  lemma PartOfTheRise(feeShares: int, price: int, fee: int, bound: int)
    requires feeShares * price <= fee * SCALAR_7 && fee * BPS * SCALAR_7 <= bound
    ensures feeShares * price * BPS <= bound
  {
  }

  /** The share price a performance fee is measured at. */
  function PriceNow(v: State): int {
    if v.storage.totalShares > 0 then FloorDiv(NetValue(v) * SCALAR_7, v.storage.totalShares) else SCALAR_7
  }

  /** After the fee the holders' shares are still worth at least the old mark, when the fee rate times
      the old mark is at most the price; any rate up to 100% is. */
  lemma PerformanceFeeSparesTheMark(v: State)
    requires Sound(v) && v.storage.highWaterMark >= 0
    requires ApplyPerformanceFee(v).Ok? && ApplyPerformanceFee(v).value != v
    requires v.storage.config.performanceFeeBps * v.storage.highWaterMark <= BPS * PriceNow(v)
    ensures var w := ApplyPerformanceFee(v).value;
            NetValue(w) * SCALAR_7 >= v.storage.highWaterMark * w.storage.totalShares
  {
    hide Sound, NetValue, ApplyPerformanceFee;
    PerformanceFeeIsPartOfTheRise(v);
    var w := ApplyPerformanceFee(v).value;
    SparesArithmetic(NetValue(v), v.storage.totalShares, w.storage.totalShares - v.storage.totalShares,
                     w.storage.highWaterMark, v.storage.highWaterMark, v.storage.config.performanceFeeBps);
  }

  lemma FeeAmountAtLeast(rise: int, total: int, bps: int)
    requires rise > 0 && total > 0 && bps >= 0
    ensures var fee := FloorDiv(FloorDiv(rise * total, SCALAR_7) * bps, BPS);
            fee >= 0 && fee * BPS * SCALAR_7 > (rise * total - SCALAR_7) * bps - BPS * SCALAR_7
  {
    var gains := FloorDiv(rise * total, SCALAR_7);
    FeeAmountBound(rise, total, bps);
    MulMono(rise * total - SCALAR_7, gains * SCALAR_7, bps);
    assert gains * SCALAR_7 * bps == gains * bps * SCALAR_7;
  }

  lemma FeeSharesAtLeast(v: State, fee: int, price: int)
    requires fee >= 0 && price > 0 && MintFee(v, fee, price).Ok?
    ensures (MintFee(v, fee, price).value.storage.totalShares - v.storage.totalShares + 1) * price > fee * SCALAR_7
  {
    FloorNonNegative(fee * SCALAR_7, price);
    hide AddShares;
  }

  /** Nor are fewer shares minted than that, but for the three roundings. */
  lemma PerformanceFeeIsMostOfTheRise(v: State)
    requires Sound(v) && v.storage.highWaterMark >= 0
    requires ApplyPerformanceFee(v).Ok? && ApplyPerformanceFee(v).value != v
    ensures var w, price, total := ApplyPerformanceFee(v).value, PriceNow(v), v.storage.totalShares;
            var rise, bps := (price - v.storage.highWaterMark) * total, v.storage.config.performanceFeeBps;
            (w.storage.totalShares - total) * price * BPS > (rise - SCALAR_7) * bps - BPS * SCALAR_7 - price * BPS
  {
    PerformanceFeeIsPartOfTheRise(v);
    var w, bps := ApplyPerformanceFee(v).value, v.storage.config.performanceFeeBps;
    var price, mark, total := PriceNow(v), v.storage.highWaterMark, v.storage.totalShares;
    NetValueNonNegative(v);
    NavIsNetValue(v, |v.storage.ids|);
    hide Sound, NetValue, NavUpTo, Value, SharesOf, Gap, MintFee;
    PriceIsFloor(NetValue(v), total);
    hide SharePrice;
    FeeAmountBound(price - mark, total, bps);
    FeeAmountAtLeast(price - mark, total, bps);
    var gains := FloorDiv((price - mark) * total, SCALAR_7);
    var fee := FloorDiv(gains * bps, BPS);
    MulMono2(0, price - mark, 0, total);
    MulMono2(0, gains, 0, bps);
    hide FloorDiv;
    if fee > 0 {
      FeeSharesAtLeast(v, fee, price);
      MostOfTheRise(w.storage.totalShares - total, price, fee, ((price - mark) * total - SCALAR_7) * bps);
    } else {
      assert w.storage.totalShares == total;
      assert 0 * price * BPS == 0;
    }
  }

  lemma MostOfTheRise(feeShares: int, price: int, fee: int, bound: int)
    requires (feeShares + 1) * price > fee * SCALAR_7 && fee * BPS * SCALAR_7 > bound - BPS * SCALAR_7
    ensures feeShares * price * BPS > bound - BPS * SCALAR_7 - price * BPS
  {
    assert (feeShares + 1) * price == feeShares * price + price;
  }

  /** And the old mark is broken when the fee rate goes far enough beyond: what the fee takes, its
      three roundings in the holders' favour, then outweighs the rise and the rounding of the price. */
  lemma PerformanceFeeBreaksTheMark(v: State)
    requires Sound(v) && v.storage.highWaterMark >= 0
    requires ApplyPerformanceFee(v).Ok? && ApplyPerformanceFee(v).value != v
    requires var price, mark, total := PriceNow(v), v.storage.highWaterMark, v.storage.totalShares;
             var rise, bps := (price - mark) * total, v.storage.config.performanceFeeBps;
             mark * ((rise - SCALAR_7) * bps - BPS * SCALAR_7 - price * BPS) >= (rise + total) * (price * BPS)
    ensures var w := ApplyPerformanceFee(v).value;
            NetValue(w) * SCALAR_7 < v.storage.highWaterMark * w.storage.totalShares
  {
    hide Sound, NetValue, ApplyPerformanceFee;
    PerformanceFeeIsPartOfTheRise(v);
    PerformanceFeeIsMostOfTheRise(v);
    var w, price, mark, total := ApplyPerformanceFee(v).value, PriceNow(v), v.storage.highWaterMark,
      v.storage.totalShares;
    var rise, bps := (price - mark) * total, v.storage.config.performanceFeeBps;
    BreaksArithmetic(NetValue(v), total, w.storage.totalShares - total, price, mark,
                     (rise - SCALAR_7) * bps - BPS * SCALAR_7 - price * BPS);
  }

  lemma BreaksArithmetic(nav: int, total: int, feeShares: int, price: int, mark: int, taken: int)
    requires 0 <= mark < price && total > 0 && nav * SCALAR_7 < (price + 1) * total
    requires feeShares * price * BPS > taken && mark * taken >= ((price - mark) * total + total) * (price * BPS)
    ensures nav * SCALAR_7 < mark * (total + feeShares)
  {
    var full := price * BPS;
    MulMono(taken, feeShares * price * BPS, mark);
    assert feeShares * price * BPS * mark == (mark * feeShares) * full;
    MulCancel((price - mark) * total + total, mark * feeShares, full);
    assert (price - mark) * total + total + mark * total == (price + 1) * total;
    assert mark * (total + feeShares) == mark * total + mark * feeShares;
  }

  lemma SparesArithmetic(nav: int, total: int, feeShares: int, price: int, mark: int, bps: int)
    requires 0 <= mark < price && total > 0 && feeShares >= 0 && 0 <= bps && bps * mark <= BPS * price
    requires price * total <= nav * SCALAR_7
    requires feeShares * price * BPS <= (price - mark) * total * bps
    ensures nav * SCALAR_7 >= mark * (total + feeShares)
  {
    var rise := (price - mark) * total;
    MulMono2(0, price - mark, 0, total);
    CrossRate(feeShares, price, mark, rise, bps);
    assert rise == price * total - mark * total;
    assert mark * (total + feeShares) == mark * total + feeShares * mark;
  }

  lemma CrossRate(feeShares: int, price: int, mark: int, rise: int, bps: int)
    requires price > 0 && mark >= 0 && rise >= 0 && feeShares * price * BPS <= rise * bps && bps * mark <= BPS * price
    ensures feeShares * mark <= rise
  {
    MulMono(feeShares * price * BPS, rise * bps, mark);
    MulMono(bps * mark, BPS * price, rise);
    var full := BPS * price;
    assert feeShares * price * BPS * mark == (feeShares * mark) * full;
    assert rise * bps * mark == bps * mark * rise && full * rise == rise * full;
    MulCancel(feeShares * mark, rise, full);
  }

  /** Initialization accepts a fee of 300%.  At twice the mark it mints half as many shares again as
      the mark allows, and leaves the holders below it. */
  lemma OverfullFeeBreaksTheMark()
    ensures var config := Config(0, 30_000, 0, 0, 0);
            var v := State(Storage(Status.Active, 200, 100, SCALAR_7, 0, [], map[], config, 0), map[9 := 100], map[],
              map[], 200);
            && Sound(v) && ApplyPerformanceFee(v).Ok?
            && var w := ApplyPerformanceFee(v).value;
            && w.storage.totalShares == 250 && NetValue(w) == 200
            && NetValue(w) * SCALAR_7 < v.storage.highWaterMark * w.storage.totalShares
  {
    var config := Config(0, 30_000, 0, 0, 0);
    var v := State(Storage(Status.Active, 200, 100, SCALAR_7, 0, [], map[], config, 0), map[9 := 100], map[], map[],
      200);
    SumAtOne(v);
    assert SharePrice(200, 100) == Ok(20_000_000);
    assert CheckedDiv(300 * SCALAR_7, 20_000_000) == Ok(150);
    assert MintFee(v, 300, 20_000_000).Ok?;
    hide Sums.SumBy;
  }

  /** The management fee is the configured yearly part of `nav`, prorated and rounded down once;
      when the product does not fit it is nothing at all. */
  lemma ManagementFeeIsProrated(nav: int, feeBps: U32, elapsed: nat)
    requires nav >= 0 && elapsed > 0
    ensures var fee, product := ManagementFee(nav, feeBps, elapsed), nav * feeBps * elapsed;
            && fee >= 0
            && (product <= U128_MAX ==>
                  fee * (BPS * SECONDS_PER_YEAR) <= product < (fee + 1) * (BPS * SECONDS_PER_YEAR))
            && (product > U128_MAX ==> fee == 0)
  {
    var rate := nav * feeBps;
    MulMono2(0, nav, 0, feeBps);
    MulMono2(0, rate, 1, elapsed);
    MulMono(1, elapsed, rate);
    if rate <= U128_MAX && rate * elapsed <= U128_MAX {
      NestedFloor(rate * elapsed);
    } else if rate > U128_MAX {
      assert OrZero(rate) == 0;
      assert 0 * elapsed == 0;
    }
  }

  /** Dividing twice rounds down no more than dividing once. */
  lemma NestedFloor(x: int)
    requires x >= 0
    ensures var q := x / BPS / SECONDS_PER_YEAR;
            q >= 0 && q * (BPS * SECONDS_PER_YEAR) <= x < (q + 1) * (BPS * SECONDS_PER_YEAR)
  {
    var p := x / 10_000;
    var q := p / 31_536_000;
    assert q * 31_536_000 <= p < (q + 1) * 31_536_000;
    assert p * 10_000 <= x < (p + 1) * 10_000;
  }

  /** Accruing the management fee restarts its clock and mints shares worth, at the price before it,
      at most the prorated fee; it never moves funds. */
  lemma ManagementFeeBound(v: State, now: nat)
    requires Sound(v) && AccrueManagementFee(v, now).Ok?
    requires now > v.storage.lastFeeAccrual && v.storage.config.managementFeeBps > 0
    ensures var w := AccrueManagementFee(v, now).value;
            var minted := w.storage.totalShares - v.storage.totalShares;
            && w.storage.lastFeeAccrual == now && minted >= 0 && NetValue(w) == NetValue(v)
            && (minted > 0 ==>
                  && v.storage.totalShares > 0
                  && minted * FloorDiv(NetValue(v) * SCALAR_7, v.storage.totalShares)
                       <= ManagementFee(NetValue(v), v.storage.config.managementFeeBps,
                         now - v.storage.lastFeeAccrual) * SCALAR_7)
  {
    var w, total, elapsed := AccrueManagementFee(v, now).value, v.storage.totalShares, now - v.storage.lastFeeAccrual;
    FeeKeepsBooks(v, now);
    NetValueFrame(v, w);
    NetValueNonNegative(v);
    NavIsNetValue(v, |v.storage.ids|);
    var nav := NetValue(v);
    var fee := ManagementFee(nav, v.storage.config.managementFeeBps, elapsed);
    hide Sound, NetValue, NavUpTo, Value, SharesOf, Gap, MintFee, ManagementFee;
    if nav > 0 && fee > 0 && total > 0 {
      var price := SharePrice(nav, total).value;
      PriceIsFloor(nav, total);
      MulMono2(0, nav, 0, SCALAR_7);
      FloorNonNegative(nav * SCALAR_7, total);
      hide SharePrice, FloorDiv;
      FeeIssues(v, fee, price);
      if price > 0 {
        FeeSharesBound(v, fee, price);
      } else {
        ZeroPriceFails(v, fee);
      }
    }
  }

  lemma ZeroPriceFails(v: State, fee: int)
    ensures MintFee(v, fee, 0).Err?
  {
  }

  lemma FloorFromBounds(x: int, d: int, q: int)
    requires d > 0 && q * d <= x < (q + 1) * d
    ensures FloorDiv(x, d) == q
  {
    FloorIsGreatest(x, d, q);
    MulCancelLess(FloorDiv(x, d), q + 1, d);
  }

  /** The year's fee on `nav`, in basis points, for the seconds gone by. */
  function ProratedFee(nav: int, bps: int, elapsed: int): int {
    var product := nav * bps * elapsed;
    if product <= U128_MAX then FloorDiv(product, 10_000 * 31_536_000) else 0
  }

  lemma FeeIsProrated(nav: int, feeBps: U32, elapsed: nat)
    requires nav >= 0 && elapsed > 0
    ensures ManagementFee(nav, feeBps, elapsed) == ProratedFee(nav, feeBps, elapsed) >= 0
  {
    hide ManagementFee, FloorDiv;
    ManagementFeeIsProrated(nav, feeBps, elapsed);
    if nav * feeBps * elapsed <= U128_MAX {
      FloorFromBounds(nav * feeBps * elapsed, BPS * SECONDS_PER_YEAR, ManagementFee(nav, feeBps, elapsed));
    }
  }

  /** A charge mints the floor of the fee at the price, all of it the administrator's. */
  lemma MintFeeIs(v: State, fee: int, price: int)
    requires fee > 0 && price >= 0 && MintFee(v, fee, price).Ok?
    ensures price > 0
    ensures var w, minted := MintFee(v, fee, price).value, FloorDiv(fee * SCALAR_7, price);
            && minted >= 0
            && w == v.(shares := w.shares, storage := v.storage.(totalShares := v.storage.totalShares + minted))
            && forall a: Address :: SharesOf(w, a) == SharesOf(v, a) + if a == v.storage.admin then minted else 0
  {
    if price == 0 {
      ZeroPriceFails(v, fee);
    }
    FloorNonNegative(fee * SCALAR_7, price);
  }

  /** A negative net asset value is read as almost 2^128: the product overflows and the fee is nothing, except
      for one basis point over one second. */
  lemma NegativeValueFee(nav: int, feeBps: U32, elapsed: nat)
    requires I128_MIN <= nav < 0 && feeBps > 0 && elapsed > 0
    ensures ManagementFee(nav, feeBps, elapsed)
         == if feeBps == 1 && elapsed == 1
            then (nav + 340_282_366_920_938_463_463_374_607_431_768_211_456) / 10_000 / 31_536_000 else 0
  {
    var wide := nav + U128_MAX + 1;
    if feeBps > 1 {
      MulMono2(wide, wide, 2, feeBps);
    } else if elapsed > 1 {
      MulMono2(wide, wide, 2, elapsed);
    }
  }

  /** What accruing the management fee mints: nothing when no time has passed or there is no rate, value,
      supply or fee, and otherwise the prorated fee at the price before it, all to the administrator. */
  lemma ManagementFeeMints(v: State, now: nat)
    requires Sound(v) && AccrueManagementFee(v, now).Ok?
    ensures var w, s := AccrueManagementFee(v, now).value, v.storage;
            var fee := if now > s.lastFeeAccrual then ProratedFee(NetValue(v), s.config.managementFeeBps,
                         now - s.lastFeeAccrual) else 0;
            var price := PriceNow(v);
            var minted := if fee > 0 && s.totalShares > 0 && price > 0 then FloorDiv(fee * SCALAR_7, price) else 0;
            && (fee > 0 && s.totalShares > 0 ==> price > 0)
            && w.storage.totalShares == s.totalShares + minted
            && (forall a: Address :: SharesOf(w, a) == SharesOf(v, a) + if a == s.admin then minted else 0)
            && w.storage.lastFeeAccrual
                 == if now > s.lastFeeAccrual && s.config.managementFeeBps > 0 then now else s.lastFeeAccrual
  {
    NetValueNonNegative(v);
    HolderWithinSupply(v, v.storage.admin);
    NavIsNetValue(v, |v.storage.ids|);
    var nav, s := NetValue(v), v.storage;
    hide Sound, NetValue, NavUpTo, Value, SharesOf, MintFee, ManagementFee, ProratedFee, FloorDiv;
    if now > s.lastFeeAccrual {
      FeeIsProrated(nav, s.config.managementFeeBps, now - s.lastFeeAccrual);
      NothingOfNothing(nav, s.config.managementFeeBps, now - s.lastFeeAccrual);
      var fee := ProratedFee(nav, s.config.managementFeeBps, now - s.lastFeeAccrual);
      if s.config.managementFeeBps > 0 && nav > 0 && fee > 0 && s.totalShares > 0 {
        PriceIsFloor(nav, s.totalShares);
        FloorNonNegative(nav * SCALAR_7, s.totalShares);
        hide SharePrice;
        MintFeeIs(v, fee, PriceNow(v));
        SharesFrame(MintFee(v, fee, PriceNow(v)).value, AccrueManagementFee(v, now).value);
      } else {
        SharesFrame(v, v.(storage := s.(lastFeeAccrual := now)));
      }
    }
  }

  lemma NothingOfNothing(nav: int, bps: int, elapsed: int)
    ensures nav == 0 || bps == 0 ==> ProratedFee(nav, bps, elapsed) == 0
  {
    if nav == 0 || bps == 0 {
      assert nav * bps == 0;
      assert nav * bps * elapsed == 0;
      DivZero(10_000 * 31_536_000);
    }
  }

  function Richer(v: State, harvested: int): State {
    v.(storage := v.storage.(reserve := v.storage.reserve + harvested), tokens := v.tokens + harvested)
  }

  lemma Enriched(v: State, harvested: int)
    requires Sound(v) && harvested >= 0 && FitsI128(v.storage.reserve + harvested)
    ensures Sound(Richer(v, harvested)) && NetValue(Richer(v, harvested)) == NetValue(v) + harvested
    ensures forall a: Address :: SharesOf(Richer(v, harvested), a) == SharesOf(v, a)
  {
    SharesFrame(v, Richer(v, harvested));
    NetValueFrame(v, Richer(v, harvested));
    hide NetValue, Issued, SharesOf;
  }

  /** Harvesting raises the reserve by what came in, and charges the fee on net asset value with it. */
  lemma HarvestMints(v: State, now: nat, harvested: int)
    requires Sound(v) && harvested >= 0 && HarvestAll(v, now, harvested).Ok?
    ensures var w, s := HarvestAll(v, now, harvested).value, v.storage;
            var nav := NetValue(v) + harvested;
            var fee := if now > s.lastFeeAccrual then ProratedFee(nav, s.config.managementFeeBps,
                         now - s.lastFeeAccrual) else 0;
            var price := if s.totalShares > 0 then FloorDiv(nav * SCALAR_7, s.totalShares) else 0;
            var minted := if fee > 0 && s.totalShares > 0 && price > 0 then FloorDiv(fee * SCALAR_7, price) else 0;
            && (fee > 0 && s.totalShares > 0 ==> price > 0)
            && w.storage.reserve == s.reserve + harvested && w.storage.totalShares == s.totalShares + minted
            && (forall a: Address :: SharesOf(w, a) == SharesOf(v, a) + if a == s.admin then minted else 0)
  {
    hide Sound, NetValue, AccrueManagementFee, SharesOf, ProratedFee, FloorDiv, BooksKept;
    Enriched(v, harvested);
    HarvestKeepsBooks(v, now, harvested);
    ManagementFeeMints(Richer(v, harvested), now);
  }

  /** The performance fee is charged exactly when there is a rate, a supply, and a price above the mark,
      which then becomes the mark; its shares are all the administrator's. */
  lemma PerformanceFeeIsCharged(v: State)
    requires Sound(v) && ApplyPerformanceFee(v).Ok?
    ensures var w, s := ApplyPerformanceFee(v).value, v.storage;
            && (w == v <==> s.config.performanceFeeBps == 0 || s.totalShares == 0 || PriceNow(v) <= s.highWaterMark)
            && (w != v ==> w.storage.highWaterMark == PriceNow(v))
            && (forall a: Address :: a != s.admin ==> SharesOf(w, a) == SharesOf(v, a))
            && SharesOf(w, s.admin) - SharesOf(v, s.admin) == w.storage.totalShares - s.totalShares
  {
    NetValueNonNegative(v);
    NavIsNetValue(v, |v.storage.ids|);
    var w, s := ApplyPerformanceFee(v).value, v.storage;
    hide Sound, NetValue, NavUpTo, Value, SharesOf, MintFee, FloorDiv, CheckedDiv;
    if s.config.performanceFeeBps != 0 && s.totalShares != 0 {
      PriceIsFloor(NetValue(v), s.totalShares);
      hide SharePrice;
      if PriceNow(v) > s.highWaterMark {
        var gains := CheckedDiv((PriceNow(v) - s.highWaterMark) * s.totalShares, SCALAR_7).value;
        var fee := CheckedDiv(gains * s.config.performanceFeeBps, BPS).value;
        if fee > 0 {
          FeeIssues(v, fee, PriceNow(v));
          SharesFrame(MintFee(v, fee, PriceNow(v)).value, w);
        } else {
          SharesFrame(v, w);
        }
      }
    }
  }

  // ---- What the register does not check ----

  /** Two protocols may stand on one adapter.  Its position then counts twice in net asset value,
      and a withdrawal of every share pays half of what it should and burns them all. */
  function SharedAdapter(): State {
    State(Storage(Status.Active, 0, 100, SCALAR_7, 0, [1, 2],
                  map[1 := Allocation(7, 5_000, true), 2 := Allocation(7, 5_000, true)], Config(0, 0, 0, 0, 0), 0),
          map[9 := 100], map[], map[7 := 100], 0)
  }

  lemma SharedAdapterIsSound()
    ensures Sound(SharedAdapter()) && Registered(SharedAdapter().storage)
      && FitsI128(SharedAdapter().storage.totalShares)
  {
    SumAtOne(SharedAdapter());
    hide Issued;
  }

  lemma SharedAdapterCountsTwice()
    ensures var v := SharedAdapter();
            NetValue(v) == 200 && Reach(v.storage, v.positions, |v.storage.ids|) == 100
  {
    var v := SharedAdapter();
    var s := v.storage;
    assert ActiveAdapter(s, 1) == Some(7) && ActiveAdapter(s, 2) == Some(7);
    assert Value(s, v.positions, 0) == 0 && Value(s, v.positions, 1) == 100;
    assert Uses(s, 7, 1) by {
      assert ActiveAdapter(s, s.ids[0]) == Some(7);
    }
    assert Reach(s, v.positions, 0) == 0 && Reach(s, v.positions, 1) == 100;
    hide ActiveAdapter, Uses;
  }

  lemma SharedAdapterUnderpays()
    ensures var v := SharedAdapter();
            && Sound(v) && Registered(v.storage) && NetValue(v) == 200 && Worth(v, 100) == 200
            && Withdraw(v, 9, 100).Ok? && Withdraw(v, 9, 100).value.1 == 100
            && Withdraw(v, 9, 100).value.0.storage.totalShares == 0
  {
    hide Sound, Registered, NetValue, Reach, Value, Withdraw, DistinctAdapters, Worth, SharesOf, SharedAdapter;
    SharedAdapterIsSound();
    SharedAdapterCountsTwice();
    SharedAdapterNumbers();
    WithdrawSucceedsIff(SharedAdapter(), 9, 100);
    WithdrawPays(SharedAdapter(), 9, 100);
  }

  lemma SharedAdapterNumbers()
    requires NetValue(SharedAdapter()) == 200
    ensures var v := SharedAdapter();
            && Worth(v, 100) == 200 && SharesOf(v, 9) == 100 && v.storage.reserve == 0 && v.storage.totalShares == 100
            && v.storage.status == Status.Active
  {
    hide NetValue;
  }

  lemma SumAtOne(v: State)
    requires v.shares == map[9 := 100]
    ensures Issued(v) == 100
  {
    Sums.SumSplit(v.shares, Held, 9);
    assert v.shares - {9} == map[];
  }
}
