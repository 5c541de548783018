/** The price oracle's pruned history: what is stored is the end of a log of accepted prices. */
module OracleRules {
  import opened Outcomes
  import opened Tables

  type Asset = nat

  const MAX_PRICE_HISTORY: int := 1_000
  const MAX_TIMESTAMP_DRIFT_SECONDS: int := 300

  datatype PriceData = PriceData(price: int, timestamp: int)

  type History = seq<Entry<int>>

  datatype State = State(assets: seq<Asset>, prices: map<Asset, History>, lastTimestamp: int, paused: bool)

  function LastPrice(s: State, asset: Asset): Option<PriceData> {
    if asset !in s.prices || s.prices[asset] == [] then None
    else
      var h := s.prices[asset];
      Some(PriceData(h[|h| - 1].value, h[|h| - 1].key))
  }

  /** The price recorded at exactly `timestamp`. */
  function PriceAt(s: State, asset: Asset, timestamp: int): Option<PriceData> {
    if asset !in s.prices then None
    else
      var price := Get(s.prices[asset], timestamp);
      if price.None? then None else Some(PriceData(price.value, timestamp))
  }

  /** Oldest entries are dropped until there is room for one more. */
  function Pruned(h: History): History {
    if |h| >= MAX_PRICE_HISTORY then Pruned(h[1..]) else h
  }

  function SetAssetPrice(s: State, now: nat, asset: Asset, price: int, timestamp: nat): Result<State> {
    var _ :- Need(!s.paused, Paused);
    var _ :- Need(price > 0, InvalidPrice);
    var _ :- Need(timestamp <= now + MAX_TIMESTAMP_DRIFT_SECONDS, TimestampInFuture);
    var last := LastPrice(s, asset);
    var _ :- Need(last.Some? ==> timestamp > last.value.timestamp, TimestampTooOld);
    var _ :- Need(asset in s.prices, AssetNotFound);
    Ok(s.(prices := s.prices[asset := Set(Pruned(s.prices[asset]), timestamp, price)], lastTimestamp := timestamp))
  }

  /** All assets are registered with an empty history, or none is. */
  function AddAssets(s: State, assets: seq<Asset>): Result<State> {
    var _ :- Need(!s.paused, Paused);
    Registered(s, assets)
  }

  function Registered(s: State, assets: seq<Asset>): Result<State> {
    if assets == [] then Ok(s)
    else
      var before :- Registered(s, assets[..|assets| - 1]);
      var asset := assets[|assets| - 1];
      var _ :- Need(asset !in before.assets, AssetAlreadyExists);
      Ok(before.(assets := before.assets + [asset], prices := before.prices[asset := []]))
  }

  /** The newest `records` entries, newest first. */
  function Newest(h: History, records: nat): seq<PriceData> {
    if h == [] || records == 0 then []
    else [PriceData(h[|h| - 1].value, h[|h| - 1].key)] + Newest(h[..|h| - 1], records - 1)
  }
}

module Oracles {
  import opened Outcomes
  import opened Tables
  import opened OracleRules
  import Rules = OracleRules

  class RWAOracle {
    var assets: seq<Asset>
    var prices: map<Asset, History>
    var lastTimestamp: int
    var paused: bool

    function View(): State
      reads this
    {
      State(assets, prices, lastTimestamp, paused)
    }

    constructor (initial: seq<Asset>)
      ensures View() == State(initial, map a | a in initial :: [], 0, false)
    {
      assets, lastTimestamp, paused := initial, 0, false;
      prices := map a | a in initial :: [];
    }

    method SetAssetPrice(now: nat, asset: Asset, price: int, timestamp: nat) returns (r: Result<()>)
      modifies this
      ensures var outcome := Rules.SetAssetPrice(old(View()), now, asset, price, timestamp);
              if outcome.Ok? then r == Ok(()) && View() == outcome.value
              else r == Err(outcome.error) && View() == old(View())
    {
      if paused {
        return Err(Paused);
      }
      if price <= 0 {
        return Err(InvalidPrice);
      }
      if timestamp > now + MAX_TIMESTAMP_DRIFT_SECONDS {
        return Err(TimestampInFuture);
      }
      var last := LastPrice(View(), asset);
      if last.Some? && timestamp <= last.value.timestamp {
        return Err(TimestampTooOld);
      }
      if asset !in prices {
        return Err(AssetNotFound);
      }
      var history := prices[asset];
      while |history| >= MAX_PRICE_HISTORY
        invariant Pruned(history) == Pruned(old(prices)[asset])
        decreases |history|
      {
        history := history[1..];
      }
      history := Set(history, timestamp, price);
      prices := prices[asset := history];
      lastTimestamp := timestamp;
      return Ok(());
    }

    method AddAssets(added: seq<Asset>) returns (r: Result<()>)
      modifies this
      ensures var outcome := Rules.AddAssets(old(View()), added);
              if outcome.Ok? then r == Ok(()) && View() == outcome.value
              else r == Err(outcome.error) && View() == old(View())
    {
      if paused {
        return Err(Paused);
      }
      var all, stored: map<Asset, History> := assets, prices;
      for i := 0 to |added|
        invariant Registered(old(View()), added[..i]) == Ok(State(all, stored, lastTimestamp, paused))
        invariant View() == old(View())
      {
        assert added[..i + 1][..i] == added[..i];
        if added[i] in all {
          RegisteredFails(View(), added, i + 1);
          return Err(AssetAlreadyExists);
        }
        all := all + [added[i]];
        stored := stored[added[i] := []];
      }
      assert added[..|added|] == added;
      assets, prices := all, stored;
      return Ok(());
    }

    /** The stored keys from the back, at most `records` of them. */
    method Prices(asset: Asset, records: nat) returns (r: Option<seq<PriceData>>)
      ensures r == if asset in prices then Some(Newest(prices[asset], records)) else None
    {
      if asset !in prices {
        return None;
      }
      var history := prices[asset];
      var list: seq<PriceData> := [];
      var i := |history|;
      assert history[..i] == history;
      while i > 0 && |list| < records
        invariant 0 <= i <= |history| && |list| <= records
        invariant list + Newest(history[..i], records - |list|) == Newest(history, records)
      {
        ghost var rest := Newest(history[..i], records - |list|);
        i := i - 1;
        assert history[..i + 1][..i] == history[..i];
        list := list + [PriceData(history[i].value, history[i].key)];
        assert rest == [PriceData(history[i].value, history[i].key)] + Newest(history[..i], records - |list|);
      }
      assert Newest(history[..i], records - |list|) == [];
      assert list + [] == list;
      return Some(list);
    }
  }

  /** A prefix that cannot be registered stops the whole list. */
  lemma {:induction false} RegisteredFails(s: State, assets: seq<Asset>, n: nat)
    requires n <= |assets| && Registered(s, assets[..n]).Err?
    ensures Registered(s, assets) == Registered(s, assets[..n])
  {
    if n == |assets| {
      assert assets[..n] == assets;
    } else {
      var init := assets[..|assets| - 1];
      assert init[..n] == assets[..n];
      RegisteredFails(s, init, n);
    }
  }
}

/** The history over every run. */
module OracleSafety {
  import opened Outcomes
  import opened FixedPoint
  import opened Tables
  import opened OracleRules

  datatype Op =
    | PriceOp(asset: Asset, price: int, timestamp: nat)
    | AddOp(assets: seq<Asset>)
    | PauseOp(paused: bool)

  datatype Event = Event(now: nat, op: Op)

  function Outcome(s: State, event: Event): Result<State> {
    match event.op
    case PriceOp(a, price, timestamp) => SetAssetPrice(s, event.now, a, price, timestamp)
    case AddOp(assets) => AddAssets(s, assets)
    case PauseOp(paused) => Ok(s.(paused := paused))
  }

  function Run(s: State, events: seq<Event>): State {
    if events == [] then s
    else
      var before := Run(s, events[..|events| - 1]);
      var o := Outcome(before, events[|events| - 1]);
      if o.Ok? then o.value else before
  }

  /** Every price ever accepted for `asset`, in order. */
  function Log(s: State, events: seq<Event>, asset: Asset): History {
    if events == [] then []
    else
      var init, last := events[..|events| - 1], events[|events| - 1];
      Log(s, init, asset)
        + if last.op.PriceOp? && last.op.asset == asset && Outcome(Run(s, init), last).Ok?
          then [Entry(last.op.timestamp, last.op.price)] else []
  }

  /** The last `n` elements, or all of them. */
  function Suffix<T>(s: seq<T>, n: nat): seq<T> {
    if |s| <= n then s else s[|s| - n..]
  }

  lemma {:induction false} PrunedIsSuffix(h: History)
    ensures Pruned(h) == Suffix(h, MAX_PRICE_HISTORY - 1)
    decreases |h|
  {
    if |h| >= MAX_PRICE_HISTORY {
      PrunedIsSuffix(h[1..]);
    }
  }

  /** Dropping to 999 and appending one is keeping the last thousand. */
  lemma SuffixAppend<T>(log: seq<T>, x: T)
    ensures Suffix(Suffix(log, MAX_PRICE_HISTORY), MAX_PRICE_HISTORY - 1) + [x] == Suffix(log + [x], MAX_PRICE_HISTORY)
  {
  }

  lemma SuffixSorted(log: History, n: nat)
    requires Sorted(log)
    ensures Sorted(Suffix(log, n))
  {
  }

  /** A freshly constructed oracle. */
  predicate Initial(s: State) {
    s.prices == map a | a in s.assets :: []
  }

  /** The stored history of each registered asset is the end of its log. */
  ghost predicate Refines(s: State, log: History, asset: Asset) {
    && Sorted(log)
    && (asset in s.prices <==> asset in s.assets)
    && (asset in s.prices ==> s.prices[asset] == Suffix(log, MAX_PRICE_HISTORY))
    && (asset !in s.prices ==> log == [])
  }

  /** Pruning and setting a later key is appending to the log and keeping its end. */
  lemma HistoryAppend(h: History, log: History, timestamp: int, price: int)
    requires Sorted(log) && h == Suffix(log, MAX_PRICE_HISTORY) && (h != [] ==> h[|h| - 1].key < timestamp)
    ensures Set(Pruned(h), timestamp, price) == Suffix(log + [Entry(timestamp, price)], MAX_PRICE_HISTORY)
    ensures Sorted(log + [Entry(timestamp, price)])
  {
    PrunedIsSuffix(h);
    SuffixSorted(log, MAX_PRICE_HISTORY);
    SuffixSorted(h, MAX_PRICE_HISTORY - 1);
    SuffixLast(log, MAX_PRICE_HISTORY);
    SuffixLast(h, MAX_PRICE_HISTORY - 1);
    LogGrowsSorted(log, Entry(timestamp, price));
    hide Suffix, Sorted, Pruned, Set;
    SetAppends(Pruned(h), timestamp, price);
    SuffixAppend(log, Entry(timestamp, price));
  }

  lemma SuffixLast<T>(s: seq<T>, n: nat)
    requires n > 0
    ensures Suffix(s, n) == [] <==> s == []
    ensures s != [] ==> Suffix(s, n)[|Suffix(s, n)| - 1] == s[|s| - 1]
  {
  }

  lemma PriceRefines(s: State, now: nat, asset: Asset, price: int, timestamp: nat, log: History)
    requires Refines(s, log, asset) && SetAssetPrice(s, now, asset, price, timestamp).Ok?
    ensures Refines(SetAssetPrice(s, now, asset, price, timestamp).value, log + [Entry(timestamp, price)], asset)
  {
    hide Suffix, Sorted, Pruned, Set;
    HistoryAppend(s.prices[asset], log, timestamp, price);
  }

  lemma LogGrowsSorted(log: History, e: Entry<int>)
    requires Sorted(log) && (log != [] ==> log[|log| - 1].key < e.key)
    ensures Sorted(log + [e])
  {
    if log != [] {
      forall i | 0 <= i < |log|
        ensures log[i].key < e.key
      {
        assert i < |log| - 1 ==> log[i].key < log[|log| - 1].key;
      }
    }
  }

  lemma {:induction false} RegisteredRefines(s: State, assets: seq<Asset>, asset: Asset, log: History)
    requires Refines(s, log, asset) && Registered(s, assets).Ok?
    ensures Refines(Registered(s, assets).value, log, asset)
  {
    if assets != [] {
      RegisteredRefines(s, assets[..|assets| - 1], asset, log);
    }
  }

  /** Over every run the stored prices of each asset are exactly the last 1000 accepted records
      (all of them while there are fewer), strictly increasing in time; nothing else alters them. */
  lemma {:induction false} HistoryRefinesLog(s: State, events: seq<Event>, asset: Asset)
    requires Initial(s)
    ensures Refines(Run(s, events), Log(s, events, asset), asset)
  {
    if events != [] {
      var init, last := events[..|events| - 1], events[|events| - 1];
      HistoryRefinesLog(s, init, asset);
      var before, log := Run(s, init), Log(s, init, asset);
      if Outcome(before, last).Ok? {
        match last.op {
          case PriceOp(a, price, timestamp) =>
            if a == asset {
              PriceRefines(before, last.now, asset, price, timestamp, log);
            }
          case AddOp(assets) => RegisteredRefines(before, assets, asset, log);
          case PauseOp(_) =>
        }
      }
    }
  }

  /** `Newest` read by index: position `i` holds the entry `i` from the end. */
  lemma {:induction false} NewestAt(h: History, records: nat, i: nat)
    requires i < Min(|h|, records)
    ensures |Newest(h, records)| == Min(|h|, records)
    ensures Newest(h, records)[i] == PriceData(h[|h| - 1 - i].value, h[|h| - 1 - i].key)
  {
    NewestLength(h, records);
    if i > 0 {
      NewestAt(h[..|h| - 1], records - 1, i - 1);
    }
  }

  lemma {:induction false} NewestLength(h: History, records: nat)
    ensures |Newest(h, records)| == Min(|h|, records)
  {
    if h != [] && records > 0 {
      NewestLength(h[..|h| - 1], records - 1);
    }
  }

  lemma SuffixAt<T>(s: seq<T>, n: nat, i: nat)
    requires i < Min(|s|, n)
    ensures |Suffix(s, n)| == Min(|s|, n)
    ensures Suffix(s, n)[|Suffix(s, n)| - 1 - i] == s[|s| - 1 - i]
  {
  }

  lemma SuffixLength<T>(s: seq<T>, n: nat)
    ensures |Suffix(s, n)| == Min(|s|, n)
  {
  }

  function Record(log: History, i: nat): PriceData
    requires i < |log|
  {
    PriceData(log[|log| - 1 - i].value, log[|log| - 1 - i].key)
  }

  /** The latest price, after any run, is the newest record of the log. */
  lemma LastPriceIsNewest(s: State, events: seq<Event>, asset: Asset)
    requires Initial(s)
    ensures var log := Log(s, events, asset);
            LastPrice(Run(s, events), asset) == if log == [] then None else Some(Record(log, 0))
  {
    HistoryRefinesLog(s, events, asset);
    SuffixLast(Log(s, events, asset), MAX_PRICE_HISTORY);
    hide Suffix, Sorted;
  }

  /** A list of recent prices, after any run, is the end of the log reversed and cut to size. */
  lemma PricesReadTheLog(s: State, events: seq<Event>, asset: Asset, records: nat, i: nat)
    requires Initial(s) && asset in Run(s, events).prices
    ensures var log := Log(s, events, asset);
            var shown := Newest(Run(s, events).prices[asset], records);
            && |shown| == Min(Min(|log|, MAX_PRICE_HISTORY), records)
            && (i < |shown| ==> shown[i] == Record(log, i))
  {
    hide Run, Log, Initial, Newest, Suffix, Sorted;
    HistoryRefinesLog(s, events, asset);
    var log := Log(s, events, asset);
    var h := Run(s, events).prices[asset];
    SuffixLength(log, MAX_PRICE_HISTORY);
    NewestLength(h, records);
    if i < Min(|h|, records) {
      NewestAt(h, records, i);
      SuffixAt(log, MAX_PRICE_HISTORY, i);
    }
  }

  /** Looking up the timestamp of a retained record, after any run, finds that record. */
  lemma PriceFindsRecord(s: State, events: seq<Event>, asset: Asset, i: nat)
    requires Initial(s) && asset in Run(s, events).prices
    requires i < Min(|Log(s, events, asset)|, MAX_PRICE_HISTORY)
    ensures var log := Log(s, events, asset);
            PriceAt(Run(s, events), asset, Record(log, i).timestamp) == Some(Record(log, i))
  {
    hide Run, Log, Initial, Suffix, Sorted, Get;
    HistoryRefinesLog(s, events, asset);
    var log := Log(s, events, asset);
    var h := Run(s, events).prices[asset];
    SuffixSorted(log, MAX_PRICE_HISTORY);
    SuffixAt(log, MAX_PRICE_HISTORY, i);
    GetAt(h, |h| - 1 - i);
  }

  /** After any run, a price is accepted exactly when the oracle is not paused, the price is positive, its
      time is at most five minutes ahead, the asset is registered, and every record ever accepted for the
      asset, also those dropped since, is older. */
  lemma AcceptedIff(s: State, events: seq<Event>, now: nat, asset: Asset, price: int, timestamp: nat)
    requires Initial(s)
    ensures var before, log := Run(s, events), Log(s, events, asset);
            SetAssetPrice(before, now, asset, price, timestamp).Ok? <==>
              && !before.paused && price > 0 && timestamp <= now + 300 && asset in before.assets
              && forall i :: 0 <= i < |log| ==> log[i].key < timestamp
  {
    hide Run, Log, Suffix, Pruned, Set, LastPrice, Sorted;
    HistoryRefinesLog(s, events, asset);
    LastPriceIsNewest(s, events, asset);
    LaterThanAll(Log(s, events, asset), timestamp);
  }

  lemma LaterThanAll(log: History, timestamp: int)
    requires Sorted(log)
    ensures (forall i :: 0 <= i < |log| ==> log[i].key < timestamp) <==>
              (log != [] ==> Record(log, 0).timestamp < timestamp)
  {
    if log != [] {
      assert forall i :: 0 <= i < |log| - 1 ==> log[i].key < log[|log| - 1].key;
    }
  }

  predicate NoneTwice(assets: seq<Asset>) {
    forall i, j :: 0 <= i < j < |assets| ==> assets[i] != assets[j]
  }

  predicate NoneIn(assets: seq<Asset>, known: seq<Asset>) {
    forall a | a in assets :: a !in known
  }

  lemma OneMore(init: seq<Asset>, last: Asset, known: seq<Asset>)
    ensures NoneTwice(init + [last]) <==> NoneTwice(init) && last !in init
    ensures NoneIn(init + [last], known) <==> NoneIn(init, known) && last !in known
  {
    var assets := init + [last];
    if NoneTwice(assets) {
      forall i, j | 0 <= i < j < |init|
        ensures init[i] != init[j]
      {
        assert assets[i] == init[i] && assets[j] == init[j];
      }
      assert assets[|init|] == last;
      assert forall i | 0 <= i < |init| :: assets[i] == init[i];
    }
    assert last in assets;
    if NoneIn(assets, known) {
      forall a | a in init
        ensures a !in known
      {
        assert a in assets;
      }
    }
  }

  /** Assets are added all or none: exactly when none of them is there yet and none is named twice.
      They start without prices, and no other asset is touched. */
  lemma {:induction false} AddedIff(s: State, assets: seq<Asset>)
    ensures Registered(s, assets).Ok? <==> NoneIn(assets, s.assets) && NoneTwice(assets)
    ensures Registered(s, assets).Ok? ==>
              var t := Registered(s, assets).value;
              && t == s.(assets := s.assets + assets, prices := t.prices)
              && (forall a :: a in t.prices <==> a in s.prices || a in assets)
              && (forall a | a in t.prices :: t.prices[a] == if a in assets then [] else s.prices[a])
  {
    hide NoneIn, NoneTwice;
    if assets == [] {
      NoneOfNothing(s.assets);
    } else {
      var init, last := assets[..|assets| - 1], assets[|assets| - 1];
      assert assets == init + [last];
      AddedIff(s, init);
      OneMore(init, last, s.assets);
      assert s.assets + init + [last] == s.assets + assets;
    }
  }

  /** A paused oracle registers nothing. */
  lemma AddAssetsIff(s: State, assets: seq<Asset>)
    ensures AddAssets(s, assets).Ok? <==> !s.paused && NoneIn(assets, s.assets) && NoneTwice(assets)
    ensures AddAssets(s, assets).Ok? ==> AddAssets(s, assets) == Registered(s, assets)
  {
    AddedIff(s, assets);
    hide Registered, NoneIn, NoneTwice;
  }

  lemma NoneOfNothing(known: seq<Asset>)
    ensures NoneIn([], known) && NoneTwice([])
  {
  }
}
