/** The time-to-live rule both caches share, with the clock passed in as `now`
    (milliseconds, as `Date.now()` would give). */
module Expiry {
  import opened Wrappers

  /** The default time to live of both caches: five minutes. */
  const DefaultTtl := 300000

  /** `ttl || defaultTtl`: an omitted or zero time to live falls back to the default. */
  function EffectiveTtl(ttl: Option<int>, defaultTtl: int): int {
    if ttl.Some? && ttl.value != 0 then ttl.value else defaultTtl
  }

  /** `entry.ttl && age > entry.ttl`: a zero time to live never expires, and an entry
      whose age equals its time to live is still live. */
  predicate Expired(timestamp: int, ttl: int, now: int) {
    ttl != 0 && now - timestamp > ttl
  }

  /** A positive time to live keeps an entry live exactly up to and including its
      deadline, and the clock only ever moves an entry from live to expired. */
  lemma ExpiryIsMonotone(timestamp: int, ttl: int, now: int, later: int)
    requires ttl > 0
    ensures !Expired(timestamp, ttl, timestamp + ttl)
    ensures Expired(timestamp, ttl, timestamp + ttl + 1)
    ensures now <= later && Expired(timestamp, ttl, now) ==> Expired(timestamp, ttl, later)
  {
  }
}
