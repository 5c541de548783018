/** Allowances of the share token: what a spend does to one, and what a spender can take from a holder. */
module VaultAllowances {
  import opened Outcomes
  import opened FixedPoint
  import opened VaultRules
  import opened VaultSafety
  import opened VaultRuns

  // ---- One spend ----

  /** A spend changes one allowance, by its amount; it leaves it no higher exactly when the amount is
      not negative. */
  lemma SpendLowersIff(v: State, sequence: nat, from: Address, spender: Address, amount: int)
    requires SpendAllowance(v, sequence, from, spender, amount).Ok?
    ensures var w := SpendAllowance(v, sequence, from, spender, amount).value;
            && AllowanceOf(w, from, spender)
                 == AllowanceOf(v, from, spender).(amount := AllowanceOf(v, from, spender).amount - amount)
            && (AllowanceOf(w, from, spender).amount <= AllowanceOf(v, from, spender).amount <==> amount >= 0)
            && (forall f: Address, s: Address :: f != from || s != spender ==>
                  AllowanceOf(w, f, s) == AllowanceOf(v, f, s))
  {
  }

  /** A spend passes exactly when the allowance is at least the amount, has not expired, and the
      remainder fits: a negative amount passes without any allowance. */
  lemma SpendSucceedsIff(v: State, sequence: nat, from: Address, spender: Address, amount: int)
    ensures var a := AllowanceOf(v, from, spender);
            SpendAllowance(v, sequence, from, spender, amount).Ok? <==>
              a.amount >= amount && (a.liveUntil == 0 || sequence <= a.liveUntil) && FitsI128(a.amount - amount)
  {
  }

  /** A spender the holder never dealt with has an allowance of nothing and can take nothing. */
  lemma UnapprovedTakesNothing(v: State, sequence: nat, from: Address, spender: Address, to: Address, amount: int)
    requires (from, spender) !in v.allowances
    ensures AllowanceOf(v, from, spender) == Allowance(0, 0)
    ensures amount > 0 ==>
              && TransferFrom(v, sequence, spender, from, to, amount) == Err(InsufficientAllowance)
              && BurnFrom(v, sequence, spender, from, amount) == Err(InsufficientAllowance)
  {
    hide Transfer, Burn;
  }

  // ---- What a negative spend grants ----

  lemma FirstGrant(v: State, sequence: nat, from: Address, spender: Address, x: int)
    requires AllowanceOf(v, from, spender) == Allowance(0, 0) && 0 < x <= I128_MAX
    ensures SpendAllowance(v, sequence, from, spender, -x).Ok?
    ensures var w := SpendAllowance(v, sequence, from, spender, -x).value;
            w == v.(allowances := w.allowances) && AllowanceOf(w, from, spender) == Allowance(x, 0)
  {
  }

  /** Burning a negative amount from a holder who approved nothing mints to the holder and creates an
      allowance; spending that allowance then brings the spender exactly what was minted. */
  lemma NegativeBurnFromGrants(v: State, sequence: nat, spender: Address, holder: Address, x: int)
    requires Sound(v) && spender != holder && AllowanceOf(v, holder, spender) == Allowance(0, 0) && 0 < x
    requires SharesOf(v, holder) + x <= I128_MAX && v.storage.totalShares + x <= I128_MAX
    requires SharesOf(v, spender) + x <= I128_MAX
    ensures BurnFrom(v, sequence, spender, holder, -x).Ok?
    ensures var w := BurnFrom(v, sequence, spender, holder, -x).value;
            && AllowanceOf(w, holder, spender) == Allowance(x, 0)
            && SharesOf(w, holder) == SharesOf(v, holder) + x
            && TransferFrom(w, sequence, spender, holder, spender, x).Ok?
            && var u := TransferFrom(w, sequence, spender, holder, spender, x).value;
            && SharesOf(u, spender) == SharesOf(v, spender) + x && SharesOf(u, holder) == SharesOf(v, holder)
            && u.storage.totalShares == v.storage.totalShares + x && AllowanceOf(u, holder, spender) == Allowance(0, 0)
  {
    assert SharesOf(v, spender) >= 0;
    HolderWithinSupply(v, holder);
    FirstGrant(v, sequence, holder, spender, x);
    var spent := SpendAllowance(v, sequence, holder, spender, -x).value;
    SharesFrame(v, spent);
    NegativeBurnOnly(spent, holder, x);
    hide Sound, SpendAllowance, Burn;
    var w := BurnFrom(v, sequence, spender, holder, -x).value;
    SpendAll(w, sequence, holder, spender, x);
    PositiveMove(SpendAllowance(w, sequence, holder, spender, x).value, holder, spender, x);
    hide Transfer, SharesOf;
  }

  lemma NegativeBurnOnly(v: State, holder: Address, x: int)
    requires 0 < x && SharesOf(v, holder) >= 0 && SharesOf(v, holder) + x <= I128_MAX
    requires 0 <= v.storage.totalShares && v.storage.totalShares + x <= I128_MAX
    ensures Burn(v, holder, -x).Ok?
    ensures var w := Burn(v, holder, -x).value;
            && w.allowances == v.allowances && w.storage.totalShares == v.storage.totalShares + x
            && forall a: Address :: SharesOf(w, a) == SharesOf(v, a) + if a == holder then x else 0
  {
  }

  lemma SpendAll(v: State, sequence: nat, from: Address, spender: Address, x: int)
    requires AllowanceOf(v, from, spender) == Allowance(x, 0)
    ensures SpendAllowance(v, sequence, from, spender, x).Ok?
    ensures var w := SpendAllowance(v, sequence, from, spender, x).value;
            w == v.(allowances := w.allowances) && AllowanceOf(w, from, spender) == Allowance(0, 0)
  {
  }

  lemma PositiveMove(v: State, from: Address, to: Address, x: int)
    requires from != to && 0 < x <= SharesOf(v, from) && SharesOf(v, from) <= I128_MAX
    requires 0 <= SharesOf(v, to) && SharesOf(v, to) + x <= I128_MAX
    ensures Transfer(v, from, to, x).Ok?
    ensures var w := Transfer(v, from, to, x).value;
            && w == v.(shares := w.shares)
            && SharesOf(w, from) == SharesOf(v, from) - x && SharesOf(w, to) == SharesOf(v, to) + x
  {
  }

  /** A transfer of a negative amount by a spender without allowance takes from the named recipient, who
      is no party to it, and creates an allowance over the account it is booked on. */
  lemma NegativeTransferFromTakes(v: State, sequence: nat, spender: Address, from: Address, other: Address, x: int)
    requires Sound(v) && from != other && AllowanceOf(v, from, spender) == Allowance(0, 0) && 0 < x
    requires SharesOf(v, from) + x <= I128_MAX && SharesOf(v, other) <= I128_MAX
    ensures TransferFrom(v, sequence, spender, from, other, -x).Ok?
    ensures var w := TransferFrom(v, sequence, spender, from, other, -x).value;
            && SharesOf(w, other) == SharesOf(v, other) - x && SharesOf(w, from) == SharesOf(v, from) + x
            && AllowanceOf(w, from, spender) == Allowance(x, 0)
  {
    assert SharesOf(v, from) >= 0 && SharesOf(v, other) >= 0;
    FirstGrant(v, sequence, from, spender, x);
    var spent := SpendAllowance(v, sequence, from, spender, -x).value;
    SharesFrame(v, spent);
    hide Sound, SpendAllowance;
    NegativeMove(spent, from, other, x);
    hide Transfer, SharesOf;
  }

  lemma NegativeMove(v: State, from: Address, to: Address, x: int)
    requires from != to && 0 < x && 0 <= SharesOf(v, from) && SharesOf(v, from) + x <= I128_MAX
    requires 0 <= SharesOf(v, to) <= I128_MAX
    ensures Transfer(v, from, to, -x).Ok?
    ensures var w := Transfer(v, from, to, -x).value;
            && w == v.(shares := w.shares)
            && SharesOf(w, from) == SharesOf(v, from) + x && SharesOf(w, to) == SharesOf(v, to) - x
  {
  }

  // ---- Runs ----

  /** What `spender` takes from `from` in one event: a transfer or a burn on an allowance that succeeds. */
  function TakenBy(v: State, event: Event, from: Address, spender: Address): int {
    if Outcome(v, event).Err? then 0
    else
      match event.op
      case TransferFromOp(s, f, _, amount) => if s == spender && f == from then amount else 0
      case BurnFromOp(s, f, amount) => if s == spender && f == from then amount else 0
      case _ => 0
  }

  /** The event is an approval of the pair that succeeds. */
  predicate Approves(v: State, event: Event, from: Address, spender: Address) {
    event.op.ApproveOp? && event.op.from == from && event.op.spender == spender && Outcome(v, event).Ok?
  }

  function ApprovedBy(v: State, event: Event, from: Address, spender: Address): int {
    if Approves(v, event, from, spender) then Max(event.op.amount, 0) else 0
  }

  /** What `spender` took from `from` over a run. */
  function Taken(v: State, events: seq<Event>, from: Address, spender: Address): int {
    if events == [] then 0
    else
      var init := events[..|events| - 1];
      Taken(v, init, from, spender) + TakenBy(Run(v, init), events[|events| - 1], from, spender)
  }

  /** What `from` approved for `spender` over a run, on top of what stood at the start. */
  function Approved(v: State, events: seq<Event>, from: Address, spender: Address): int {
    if events == [] then Max(AllowanceOf(v, from, spender).amount, 0)
    else
      var init, last := events[..|events| - 1], events[|events| - 1];
      Approved(v, init, from, spender)
        + ApprovedBy(Run(v, init), last, from, spender)
  }

  /** A spend of a negative amount on the pair. */
  predicate Grants(event: Event, from: Address, spender: Address) {
    match event.op
    case TransferFromOp(s, f, _, amount) => s == spender && f == from && amount < 0
    case BurnFromOp(s, f, amount) => s == spender && f == from && amount < 0
    case _ => false
  }

  /** What neither approves nor spends leaves every allowance as it was. */
  lemma OthersKeepAllowances(v: State, event: Event)
    requires !event.op.ApproveOp? && !event.op.TransferFromOp? && !event.op.BurnFromOp?
    ensures Next(v, event).allowances == v.allowances
  {
    hide Deposit, Withdraw, Transfer, Burn, Rebalance, HarvestAll, ApplyPerformanceFee, EmergencyExits, SharesOf,
      Issued;
    if Outcome(v, event).Err? {
      return;
    }
    match event.op {
      case DepositOp(from, amount) => DepositEffect(v, from, amount);
      case WithdrawOp(from, shares) => WithdrawKeepsAllowances(v, from, shares);
      case TransferOp(from, to, amount) => TransferMoves(v, from, to, amount);
      case BurnOp(from, amount) => BurnRetires(v, from, amount);
      case RebalanceOp => RebalanceKeepsBooks(v);
      case HarvestOp(harvested) => HarvestKeepsBooks(v, event.now, harvested);
      case PerformanceFeeOp => PerformanceKeepsBooks(v);
      case ExitOp => ExitKeepsAllowances(v);
      case _ =>
    }
  }

  lemma WithdrawKeepsAllowances(v: State, from: Address, shares: int)
    requires Withdraw(v, from, shares).Ok?
    ensures Withdraw(v, from, shares).value.0.allowances == v.allowances
  {
    SubtractRetires(v, from, shares);
    var taken := SubtractShares(v, from, shares).value;
    var burned := taken.(storage := v.storage.(totalShares := v.storage.totalShares - shares));
    var amount := FromShares(shares, Nav(v).value, v.storage.totalShares).value;
    FundOnlyFunds(burned, amount);
    hide SubtractShares, SharesOf, Issued, Fund, Nav, FromShares;
  }

  lemma ExitKeepsAllowances(v: State)
    requires EmergencyExits(v).Ok?
    ensures EmergencyExits(v).value.allowances == v.allowances
  {
    ExitOnlyFunds(v, |v.storage.ids|);
  }

  /** One event and one pair: an approval sets the allowance, anything else moves it by what was taken. */
  lemma EventMovesAllowance(v: State, event: Event, from: Address, spender: Address)
    ensures AllowanceOf(Next(v, event), from, spender).amount
         == if Approves(v, event, from, spender) then event.op.amount
            else AllowanceOf(v, from, spender).amount - TakenBy(v, event, from, spender)
  {
    hide Transfer, Burn, SpendAllowance, Deposit, Withdraw, Rebalance, HarvestAll, ApplyPerformanceFee, EmergencyExits;
    match event.op {
      case TransferFromOp(s, f, to, amount) =>
        if Outcome(v, event).Ok? {
          SpendLowersIff(v, event.sequence, f, s, amount);
          TransferMoves(SpendAllowance(v, event.sequence, f, s, amount).value, f, to, amount);
        }
      case BurnFromOp(s, f, amount) =>
        if Outcome(v, event).Ok? {
          SpendLowersIff(v, event.sequence, f, s, amount);
          BurnRetires(SpendAllowance(v, event.sequence, f, s, amount).value, f, amount);
        }
      case ApproveOp(f, s, amount, liveUntil) =>
      case _ => OthersKeepAllowances(v, event);
    }
  }

  /** Over a run without an approval of the pair, the allowance falls by exactly what was taken, for
      amounts of either sign. */
  lemma {:induction false} AllowanceIsConserved(v: State, events: seq<Event>, from: Address, spender: Address)
    requires forall i :: 0 <= i < |events| ==> !Approves(Run(v, events[..i]), events[i], from, spender)
    ensures AllowanceOf(Run(v, events), from, spender).amount
         == AllowanceOf(v, from, spender).amount - Taken(v, events, from, spender)
  {
    hide Next, Outcome, AllowanceOf, Approves, TakenBy;
    if events != [] {
      var init, last := events[..|events| - 1], events[|events| - 1];
      forall i | 0 <= i < |init|
        ensures !Approves(Run(v, init[..i]), init[i], from, spender)
      {
        assert init[..i] == events[..i];
        assert !Approves(Run(v, events[..i]), events[i], from, spender);
      }
      AllowanceIsConserved(v, init, from, spender);
      assert !Approves(Run(v, init), last, from, spender);
      EventMovesAllowance(Run(v, init), last, from, spender);
    }
  }

  lemma StepWithinApproved(before: int, after: int, taken: int, takenBy: int, approved: int, added: int, approves: bool)
    requires Max(before, 0) + taken <= approved && takenBy >= 0 && (takenBy > 0 ==> takenBy <= before)
    requires if approves then takenBy == 0 && added == Max(after, 0) else added == 0 && after == before - takenBy
    ensures Max(after, 0) + (taken + takenBy) <= approved + added
  {
  }

  lemma TakenByWithin(v: State, event: Event, from: Address, spender: Address)
    requires !Grants(event, from, spender)
    ensures TakenBy(v, event, from, spender) >= 0
    ensures TakenBy(v, event, from, spender) > 0 ==>
              TakenBy(v, event, from, spender) <= AllowanceOf(v, from, spender).amount
    ensures Approves(v, event, from, spender) ==>
              && TakenBy(v, event, from, spender) == 0
              && ApprovedBy(v, event, from, spender) == Max(AllowanceOf(Next(v, event), from, spender).amount, 0)
    ensures !Approves(v, event, from, spender) ==> ApprovedBy(v, event, from, spender) == 0
  {
    EventMovesAllowance(v, event, from, spender);
    hide Transfer, Burn, Deposit, Withdraw, Rebalance, HarvestAll, ApplyPerformanceFee, EmergencyExits;
  }

  /** Over every run without a negative spend on the pair, what the spender took from the holder and
      what it may still take are at most what the holder approved. */
  lemma {:induction false} TakenWithinApproved(v: State, events: seq<Event>, from: Address, spender: Address)
    requires forall i :: 0 <= i < |events| ==> !Grants(events[i], from, spender)
    ensures Max(AllowanceOf(Run(v, events), from, spender).amount, 0) + Taken(v, events, from, spender)
         <= Approved(v, events, from, spender)
  {
    hide Next, Outcome, AllowanceOf, Approves, TakenBy, ApprovedBy, Grants;
    if events != [] {
      var init, last := events[..|events| - 1], events[|events| - 1];
      TakenWithinApproved(v, init, from, spender);
      var before := Run(v, init);
      EventMovesAllowance(before, last, from, spender);
      TakenByWithin(before, last, from, spender);
      StepWithinApproved(AllowanceOf(before, from, spender).amount, AllowanceOf(Run(v, events), from, spender).amount,
                         Taken(v, init, from, spender), TakenBy(before, last, from, spender),
                         Approved(v, init, from, spender),
                         ApprovedBy(before, last, from, spender),
                         Approves(before, last, from, spender));
    }
  }
}
