/**
 * The counter pattern that both the OTP limiter (poker/views.py) and the
 * error-mail limiter (poker/logging_handlers.py) run on one cache key:
 * a missing counter is set to 1 and the call passes; a counter at or above
 * the limit blocks the call and stays as it is; otherwise it is incremented
 * and the call passes.
 */
module RateCounter {
  import opened Wrappers
  import opened KeyValueCache

  datatype HitResult = HitResult(limited: bool, entries: map<string, CacheValue>)

  /** One call of the pattern on `key`. */
  function HitSpec(entries: map<string, CacheValue>, key: string, limit: int): HitResult
    requires key in entries ==> entries[key].Num?
  {
    if key !in entries then HitResult(false, entries[key := Num(1)])
    else if entries[key].n >= limit then HitResult(true, entries)
    else HitResult(false, entries[key := Num(entries[key].n + 1)])
  }

  method Hit(cache: Cache, key: string, limit: int) returns (limited: bool)
    requires cache.Valid() && IsCounterKey(key)
    modifies cache
    ensures cache.Valid()
    ensures HitResult(limited, cache.entries) == HitSpec(old(cache.entries), key, limit)
  {
    var count := cache.Get(key);
    if count.None? {
      CounterFits(key, 1);
      cache.Set(key, Num(1));
      return false;
    }
    if count.value.n >= limit {
      return true;
    }
    var _ := cache.Incr(key);
    return false;
  }

  /** How many of `calls` consecutive calls on `key` pass, with no eviction in between. */
  function Passed(entries: map<string, CacheValue>, key: string, limit: int, calls: nat): nat
    requires forall k :: k in entries && k == key ==> entries[k].Num?
    decreases calls
  {
    if calls == 0 then 0
    else
      var h := HitSpec(entries, key, limit);
      (if h.limited then 0 else 1) + Passed(h.entries, key, limit, calls - 1)
  }

  function Min(a: int, b: int): int { if a <= b then a else b }
  function Max(a: int, b: int): int { if a <= b then b else a }

  /** From a counter at `c >= 1`, exactly `limit - c` more calls pass (none if `c >= limit`). */
  lemma {:induction false} PassedFromCount(entries: map<string, CacheValue>, key: string, limit: int, calls: nat, c: int)
    requires key in entries && entries[key] == Num(c) && c >= 1
    ensures Passed(entries, key, limit, calls) == Min(calls, Max(limit - c, 0))
    decreases calls
  {
    if calls > 0 {
      var h := HitSpec(entries, key, limit);
      if c < limit {
        PassedFromCount(h.entries, key, limit, calls - 1, c + 1);
      } else {
        PassedFromCount(h.entries, key, limit, calls - 1, c);
      }
    }
  }

  /**
   * Within one window (no eviction of the counter), of `calls` consecutive
   * calls starting from no counter, exactly `min(calls, limit)` pass.
   */
  lemma WindowAllowsLimit(entries: map<string, CacheValue>, key: string, limit: int, calls: nat)
    requires key !in entries && limit >= 1
    ensures Passed(entries, key, limit, calls) == Min(calls, limit)
  {
    if calls > 0 {
      var h := HitSpec(entries, key, limit);
      PassedFromCount(h.entries, key, limit, calls - 1, 1);
    }
  }

  /** A call on a counter key keeps every cache entry of the kind its key expects. */
  lemma HitKeepsTyped(entries: map<string, CacheValue>, key: string, limit: int)
    requires WellTyped(entries) && IsCounterKey(key)
    ensures WellTyped(HitSpec(entries, key, limit).entries)
  {
    CounterFits(key, 1);
    if key in entries {
      CounterFits(key, entries[key].n + 1);
    }
  }

  /** A call on one key leaves every other key as it was. */
  lemma HitTouchesOnlyItsKey(entries: map<string, CacheValue>, key: string, other: string, limit: int)
    requires key in entries ==> entries[key].Num?
    requires other != key
    ensures other in HitSpec(entries, key, limit).entries <==> other in entries
    ensures other in entries ==> HitSpec(entries, key, limit).entries[other] == entries[other]
  {
  }
}
