/**
 * `RateLimitedAdminEmailHandler.emit` (poker/logging_handlers.py): crash
 * mails are counted per log level in the cache and dropped once a level has
 * reached the configured number within the window.
 */
module ErrorEmails {
  import opened Wrappers
  import opened Strings
  import opened KeyValueCache
  import opened RateCounter

  /** `error-email-rate:{levelname}`. */
  function ErrorRateKey(level: string): (k: string)
    ensures IsCounterKey(k)
  {
    StartsWithConcat(ErrorRatePrefix, level);
    ErrorRatePrefix + level
  }

  lemma ErrorRateKeyInjective(a: string, b: string)
    requires ErrorRateKey(a) == ErrorRateKey(b)
    ensures a == b
  {
    SamePrefixCancel(ErrorRatePrefix, a, b);
  }

  /** One record of `level`: `rateLimit` is `ERROR_EMAIL_MAX_PER_WINDOW`, `None` when unset. */
  function EmitSpec(e: map<string, CacheValue>, level: string, rateLimit: Option<int>): (r: HitResult)
    requires WellTyped(e)
  {
    if rateLimit.None? || rateLimit.value <= 0 then HitResult(false, e)
    else HitSpec(e, ErrorRateKey(level), rateLimit.value)
  }

  /** `emit`: returns whether the record is passed on to the mail handler. */
  method Emit(cache: Cache, level: string, rateLimit: Option<int>) returns (emitted: bool)
    requires cache.Valid()
    modifies cache
    ensures cache.Valid()
    ensures HitResult(!emitted, cache.entries) == EmitSpec(old(cache.entries), level, rateLimit)
  {
    if rateLimit.None? || rateLimit.value <= 0 {
      return true;
    }
    var limited := Hit(cache, ErrorRateKey(level), rateLimit.value);
    return !limited;
  }

  /** How many of `records` consecutive records of one level are mailed, with no eviction in between. */
  function Mailed(e: map<string, CacheValue>, level: string, rateLimit: Option<int>, records: nat): nat
    requires WellTyped(e)
    decreases records
  {
    if records == 0 then 0
    else
      var r := EmitSpec(e, level, rateLimit);
      EmitKeepsTyped(e, level, rateLimit);
      (if r.limited then 0 else 1) + Mailed(r.entries, level, rateLimit, records - 1)
  }

  lemma EmitKeepsTyped(e: map<string, CacheValue>, level: string, rateLimit: Option<int>)
    requires WellTyped(e)
    ensures WellTyped(EmitSpec(e, level, rateLimit).entries)
  {
    CounterFits(ErrorRateKey(level), 1);
    if ErrorRateKey(level) in e {
      CounterFits(ErrorRateKey(level), e[ErrorRateKey(level)].n + 1);
    }
  }

  /** Without a positive limit every record is mailed and the cache is not touched. */
  lemma {:induction false} UnlimitedMailsAll(e: map<string, CacheValue>, level: string, rateLimit: Option<int>, records: nat)
    requires WellTyped(e)
    requires rateLimit.None? || rateLimit.value <= 0
    ensures Mailed(e, level, rateLimit, records) == records
    ensures EmitSpec(e, level, rateLimit).entries == e
    decreases records
  {
    if records > 0 {
      UnlimitedMailsAll(e, level, rateLimit, records - 1);
    }
  }

  /** With a positive limit, mailing follows the shared counter exactly. */
  lemma {:induction false} MailedIsPassed(e: map<string, CacheValue>, level: string, limit: int, records: nat)
    requires WellTyped(e) && limit > 0
    ensures Mailed(e, level, Some(limit), records) == Passed(e, ErrorRateKey(level), limit, records)
    decreases records
  {
    if records > 0 {
      EmitKeepsTyped(e, level, Some(limit));
      MailedIsPassed(EmitSpec(e, level, Some(limit)).entries, level, limit, records - 1);
    }
  }

  /** In one window at most `limit` records of a level are mailed: exactly `min(records, limit)`. */
  lemma AtMostLimitPerWindow(e: map<string, CacheValue>, level: string, limit: int, records: nat)
    requires WellTyped(e) && limit > 0 && ErrorRateKey(level) !in e
    ensures Mailed(e, level, Some(limit), records) == Min(records, limit)
  {
    MailedIsPassed(e, level, limit, records);
    WindowAllowsLimit(e, ErrorRateKey(level), limit, records);
  }

  /** Records of one level never touch the counter of another level. */
  lemma LevelsCountedSeparately(e: map<string, CacheValue>, level: string, other: string, rateLimit: Option<int>)
    requires WellTyped(e) && level != other
    ensures var r := EmitSpec(e, level, rateLimit).entries;
      (ErrorRateKey(other) in r <==> ErrorRateKey(other) in e)
      && (ErrorRateKey(other) in e ==> r[ErrorRateKey(other)] == e[ErrorRateKey(other)])
  {
    if ErrorRateKey(level) == ErrorRateKey(other) {
      ErrorRateKeyInjective(level, other);
    }
    if rateLimit.Some? && rateLimit.value > 0 {
      HitTouchesOnlyItsKey(e, ErrorRateKey(level), ErrorRateKey(other), rateLimit.value);
    }
  }
}
