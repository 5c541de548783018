/** The per-call write-back cache of reserves, and the proof that it refines
    reading and writing persistent storage directly. */
module ReserveCaching {
  import opened PoolTypes

  /** `stored` with the cached value of every key listed in `dirty` written over it. */
  function Overlay(stored: map<Symbol, Reserve>, cached: map<Symbol, Reserve>, dirty: seq<Symbol>): map<Symbol,
      Reserve> {
    if dirty == [] then stored
    else
      var sym := dirty[|dirty| - 1];
      var rest := Overlay(stored, cached, dirty[..|dirty| - 1]);
      if sym in cached then rest[sym := cached[sym]] else rest
  }

  /** Reading the overlay: dirty keys come from the cache, all others from storage. */
  lemma {:induction false} OverlayAt(stored: map<Symbol, Reserve>, cached: map<Symbol, Reserve>, dirty: seq<Symbol>,
      k: Symbol)
    requires forall s :: s in dirty ==> s in cached
    ensures k in Overlay(stored, cached, dirty) <==> k in stored || k in dirty
    ensures k in dirty ==> Overlay(stored, cached, dirty)[k] == cached[k]
    ensures k !in dirty && k in stored ==> Overlay(stored, cached, dirty)[k] == stored[k]
  {
    if dirty != [] {
      var init := dirty[..|dirty| - 1];
      assert dirty == init + [dirty[|dirty| - 1]];
      OverlayAt(stored, cached, init, k);
    }
  }

  /** Caching a clean entry does not change the overlay. */
  lemma {:induction false} OverlayClean(stored: map<Symbol, Reserve>, cached: map<Symbol, Reserve>, dirty: seq<Symbol>,
                                        asset: Symbol, r: Reserve)
    requires asset !in dirty
    ensures Overlay(stored, cached[asset := r], dirty) == Overlay(stored, cached, dirty)
  {
    if dirty != [] {
      OverlayClean(stored, cached, dirty[..|dirty| - 1], asset, r);
    }
  }

  /** Saving through the cache has the effect on the overlay that a direct write has on storage. */
  lemma OverlaySave(stored: map<Symbol, Reserve>, cached: map<Symbol, Reserve>, dirty: seq<Symbol>,
                    asset: Symbol, data: Reserve)
    requires forall s :: s in dirty ==> s in cached
    ensures var dirty' := if asset in dirty then dirty else dirty + [asset];
            Overlay(stored, cached[asset := data], dirty') == Overlay(stored, cached, dirty)[asset := data]
  {
    var dirty' := if asset in dirty then dirty else dirty + [asset];
    var l := Overlay(stored, cached[asset := data], dirty');
    var r := Overlay(stored, cached, dirty)[asset := data];
    forall k: Symbol
      ensures k in l <==> k in r
      ensures k in l && k in r ==> l[k] == r[k]
    {
      OverlayAt(stored, cached[asset := data], dirty', k);
      OverlayAt(stored, cached, dirty, k);
    }
    assert l.Keys == r.Keys;
  }

  class ReserveCache {
    var reserves: map<Symbol, Reserve>
    var dirty: seq<Symbol>

    /** Every dirty key is cached and listed once; every clean cached entry agrees with storage. */
    ghost predicate Valid(stored: map<Symbol, Reserve>, now: nat)
      reads this
    {
      && (forall i, j :: 0 <= i < j < |dirty| ==> dirty[i] != dirty[j])
      && (forall k :: k in dirty ==> k in reserves)
      && (forall k :: k in reserves && k !in dirty ==> reserves[k] == ReadReserve(stored, k, now))
    }

    /** The storage that direct writes would have left by now. */
    ghost function Written(stored: map<Symbol, Reserve>): map<Symbol, Reserve>
      reads this
    {
      Overlay(stored, reserves, dirty)
    }

    constructor ()
      ensures reserves == map[] && dirty == []
    {
      reserves := map[];
      dirty := [];
    }

    method MarkDirty(asset: Symbol)
      modifies this`dirty
      ensures dirty == if asset in old(dirty) then old(dirty) else old(dirty) + [asset]
    {
      var len := |dirty|;
      var i := 0;
      while i < len
        invariant 0 <= i <= len
        invariant asset !in dirty[..i]
        invariant dirty == old(dirty)
      {
        if dirty[i] == asset {
          return;
        }
        i := i + 1;
      }
      dirty := dirty + [asset];
    }

    method GetReserve(stored: map<Symbol, Reserve>, asset: Symbol, now: nat) returns (r: Reserve)
      requires Valid(stored, now)
      modifies this`reserves
      ensures Valid(stored, now)
      ensures r == ReadReserve(old(Written(stored)), asset, now)
      ensures Written(stored) == old(Written(stored))
      ensures asset in reserves && reserves[asset] == r
    {
      OverlayAt(stored, reserves, dirty, asset);
      if asset in reserves {
        return reserves[asset];
      }
      r := ReadReserve(stored, asset, now);
      OverlayClean(stored, reserves, dirty, asset, r);
      reserves := reserves[asset := r];
    }

    method SetReserve(stored: map<Symbol, Reserve>, asset: Symbol, data: Reserve, now: nat)
      requires Valid(stored, now)
      modifies this
      ensures Valid(stored, now)
      ensures Written(stored) == old(Written(stored))[asset := data]
    {
      OverlaySave(stored, reserves, dirty, asset, data);
      reserves := reserves[asset := data];
      MarkDirty(asset);
    }

    method Flush(stored: map<Symbol, Reserve>, now: nat) returns (flushed: map<Symbol, Reserve>)
      requires Valid(stored, now)
      ensures flushed == Written(stored)
    {
      flushed := stored;
      var len := |dirty|;
      var i := 0;
      while i < len
        invariant 0 <= i <= len
        invariant flushed == Overlay(stored, reserves, dirty[..i])
      {
        var sym := dirty[i];
        if sym in reserves {
          flushed := flushed[sym := reserves[sym]];
        }
        i := i + 1;
        assert dirty[..i][..i - 1] == dirty[..i - 1];
      }
      assert dirty[..len] == dirty;
    }
  }

  // ---- Any sequence of loads and saves ----

  datatype Access = Load(asset: Symbol) | Save(asset: Symbol, data: Reserve)

  /** Storage after the accesses, each going straight to persistent storage. */
  function DirectStore(stored: map<Symbol, Reserve>, accesses: seq<Access>): map<Symbol, Reserve> {
    if accesses == [] then stored
    else
      var before := DirectStore(stored, accesses[..|accesses| - 1]);
      match accesses[|accesses| - 1]
      case Load(_) => before
      case Save(asset, data) => before[asset := data]
  }

  /** What the loads among the accesses return, in order, when each goes to persistent storage. */
  function DirectLoads(stored: map<Symbol, Reserve>, accesses: seq<Access>, now: nat): seq<Reserve> {
    if accesses == [] then []
    else
      var init := accesses[..|accesses| - 1];
      var before := DirectLoads(stored, init, now);
      match accesses[|accesses| - 1]
      case Load(asset) => before + [ReadReserve(DirectStore(stored, init), asset, now)]
      case Save(_, _) => before
  }

  /** A call body: an empty cache, any loads and saves through it, one flush at the end.
      Nobody can tell it from direct storage access. */
  method CachedCall(stored: map<Symbol, Reserve>, accesses: seq<Access>, now: nat)
    returns (loads: seq<Reserve>, flushed: map<Symbol, Reserve>)
    ensures loads == DirectLoads(stored, accesses, now)
    ensures flushed == DirectStore(stored, accesses)
  {
    var cache := new ReserveCache();
    loads := [];
    var i := 0;
    while i < |accesses|
      invariant 0 <= i <= |accesses|
      invariant fresh(cache) && cache.Valid(stored, now)
      invariant loads == DirectLoads(stored, accesses[..i], now)
      invariant cache.Written(stored) == DirectStore(stored, accesses[..i])
    {
      assert accesses[..i + 1][..i] == accesses[..i];
      match accesses[i] {
        case Load(asset) =>
          var r := cache.GetReserve(stored, asset, now);
          loads := loads + [r];
        case Save(asset, data) =>
          cache.SetReserve(stored, asset, data, now);
      }
      i := i + 1;
    }
    assert accesses[..i] == accesses;
    flushed := cache.Flush(stored, now);
  }
}
