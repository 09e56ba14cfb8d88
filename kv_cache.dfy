/**
 * Django's cache as the application uses it: one string-keyed store with
 * `get`, `set`, `incr` and `delete`. Expiry is not modelled by timers; an
 * entry that times out is removed by an explicit `Delete` (eviction).
 */
module KeyValueCache {
  import opened Wrappers
  import opened Strings
  import Models

  datatype CacheValue =
    | Num(n: int)
    | SnapshotEntry(snapshot: Models.Snapshot)
    | Fragment(html: string)

  // The key namespaces the application writes, and what each holds.
  const VersionPrefix := "room:version:"
  const SnapshotPrefix := "room:snapshot:"
  const OtpRatePrefix := "otp:rate:"
  const ErrorRatePrefix := "error-email-rate:"

  /** Keys under which integer counters live (room versions and the two rate limiters). */
  predicate IsCounterKey(k: string) {
    StartsWith(k, VersionPrefix) || StartsWith(k, OtpRatePrefix) || StartsWith(k, ErrorRatePrefix)
  }

  /** Keys of cached HTML fragments: "room:" followed by the room id's digits. */
  predicate IsFragmentKey(k: string) {
    StartsWith(k, "room:") && |k| > 5 && IsDigit(k[5])
  }

  /** The kind of value that the only writers of a key's namespace store under it. */
  predicate Fits(k: string, v: CacheValue) {
    && (IsCounterKey(k) ==> v.Num?)
    && (StartsWith(k, SnapshotPrefix) ==> v.SnapshotEntry?)
    && (IsFragmentKey(k) ==> v.Fragment?)
  }

  ghost predicate WellTyped(entries: map<string, CacheValue>) {
    forall k :: k in entries ==> Fits(k, entries[k])
  }

  /** A counter kept under a counter key fits there: the namespaces do not overlap. */
  lemma CounterFits(k: string, n: int)
    requires IsCounterKey(k)
    ensures Fits(k, Num(n))
  {
    if StartsWith(k, VersionPrefix) {
      StartsWithAt(k, VersionPrefix, 5);
      if StartsWith(k, SnapshotPrefix) {
        StartsWithAt(k, SnapshotPrefix, 5);
      }
    } else if StartsWith(k, OtpRatePrefix) {
      StartsWithAt(k, OtpRatePrefix, 0);
      if StartsWith(k, SnapshotPrefix) {
        StartsWithAt(k, SnapshotPrefix, 0);
      }
      if IsFragmentKey(k) {
        StartsWithAt(k, "room:", 0);
      }
    } else {
      StartsWithAt(k, ErrorRatePrefix, 0);
      if StartsWith(k, SnapshotPrefix) {
        StartsWithAt(k, SnapshotPrefix, 0);
      }
      if IsFragmentKey(k) {
        StartsWithAt(k, "room:", 0);
      }
    }
  }

  class Cache {
    var entries: map<string, CacheValue>

    ghost predicate Valid()
      reads this
    {
      WellTyped(entries)
    }

    constructor ()
      ensures Valid() && entries == map[]
    {
      entries := map[];
    }

    /** `cache.get(key)`: `None` on a miss. */
    function Get(key: string): (r: Option<CacheValue>)
      reads this
      ensures r.Some? <==> key in entries
      ensures r.Some? ==> r.value == entries[key]
    {
      if key in entries then Some(entries[key]) else None
    }

    /** `cache.set(key, value, timeout)`; the timeout is not modelled. */
    method Set(key: string, value: CacheValue)
      requires Valid() && Fits(key, value)
      modifies this
      ensures Valid()
      ensures entries == old(entries)[key := value]
    {
      entries := entries[key := value];
    }

    /**
     * `cache.incr(key)`: the stored integer plus one, or `None` where Django
     * raises `ValueError` because the key is missing.
     */
    method Incr(key: string) returns (r: Option<int>)
      requires Valid()
      requires key in entries ==> entries[key].Num?
      modifies this
      ensures Valid()
      ensures key !in old(entries) ==> r.None? && entries == old(entries)
      ensures key in old(entries) ==> r == Some(old(entries)[key].n + 1) && entries == old(entries)[key := Num(r.value)]
    {
      if key in entries {
        var n := entries[key].n + 1;
        entries := entries[key := Num(n)];
        r := Some(n);
      } else {
        r := None;
      }
    }

    /** `cache.delete(key)`, and also the removal of an entry whose timeout ran out. */
    method Delete(key: string)
      requires Valid()
      modifies this
      ensures Valid()
      ensures entries == old(entries) - {key}
    {
      entries := entries - {key};
    }
  }
}
