/** A time-to-live cache cell: one stored value and the clock reading at
    which it was stored. The clock is a parameter of the operations that
    read it. */
module CacheContainer {
  import opened Ints

  /** `CacheContainer<Store, CacheTimerMS>`: `ttl` is the template's
      `CacheTimerMS`. */
  class Container<T> {
    const ttl: uint64
    var lastFetched: uint64
    var stored: T

    /** A new cell was last fetched at time 0; `initial` stands for the
        default-constructed `Store`. */
    constructor (ttl: uint64, initial: T)
      ensures this.ttl == ttl && lastFetched == 0 && stored == initial
    {
      this.ttl := ttl;
      lastFetched := 0;
      stored := initial;
    }

    /** `NeedsFetch`: the unsigned 64-bit time since the last fetch
        exceeds the TTL (strictly). */
    function NeedsFetch(now: uint64): bool
      reads this
    {
      SubU64(now, lastFetched) > ttl
    }

    /** `Cache`: store the value, stamp it with the clock, and hand back
        what is now stored. */
    method Cache(v: T, now: uint64) returns (r: T)
      modifies this
      ensures stored == v && lastFetched == now && r == v
    {
      stored := v;
      lastFetched := now;
      r := stored;
    }

    /** `Get`. */
    function Get(): T
      reads this
    {
      stored
    }

    /** `GetTiming`. */
    function GetTiming(): uint64
      reads this
    {
      lastFetched
    }
  }

  /** A value stored at time `t` is fresh up to and including `t + ttl`, and
      stale after that (for a clock that has not wrapped). */
  lemma FreshWithinTtl<T>(c: Container<T>, now: uint64)
    requires c.lastFetched <= now
    ensures c.NeedsFetch(now) <==> now - c.lastFetched > c.ttl
  {
  }

  /** A clock reading earlier than the stamp wraps around, and the cell
      reports that a fetch is needed (unless the TTL reaches to the end of
      the 64-bit range). */
  lemma EarlierClockIsStale<T>(c: Container<T>, now: uint64)
    requires now < c.lastFetched && c.lastFetched + c.ttl < TWO_64
    ensures c.NeedsFetch(now)
  {
  }
}
