/**
 * The per-room version counter and the version-keyed snapshot cache of
 * poker/cache_utils.py. A room's cached data is never deleted when the room
 * changes; instead the version is bumped, so the next read looks under a
 * key that has not been written yet.
 */
module RoomCache {
  import opened Wrappers
  import opened Strings
  import opened Seqs
  import opened Models
  import opened EntityStore
  import opened KeyValueCache
  import RateCounter

  // ----- keys ------------------------------------------------------------------

  /** `room:version:{room_id}`: an integer counter, neither a snapshot nor a fragment key. */
  function VersionKey(roomId: nat): (k: string)
    ensures IsCounterKey(k) && !StartsWith(k, SnapshotPrefix) && !IsFragmentKey(k)
  {
    var k := VersionPrefix + IntToString(roomId);
    StartsWithConcat(VersionPrefix, IntToString(roomId));
    NotStartsWithAt(k, SnapshotPrefix, 5);
    k
  }

  /** `room:snapshot:{room_id}:{version}`: a snapshot key, neither a counter nor a fragment key. */
  function SnapshotKey(roomId: nat, version: int): (k: string)
    ensures StartsWith(k, SnapshotPrefix) && !IsCounterKey(k) && !IsFragmentKey(k)
  {
    var k := SnapshotPrefix + (IntToString(roomId) + ":" + IntToString(version));
    StartsWithConcat(SnapshotPrefix, IntToString(roomId) + ":" + IntToString(version));
    NotStartsWithAt(k, VersionPrefix, 5);
    NotStartsWithAt(k, OtpRatePrefix, 0);
    NotStartsWithAt(k, ErrorRatePrefix, 0);
    k
  }

  /** The participant a fragment was rendered for: `participant.id`, or the literal `anon`. */
  datatype Viewer = Anonymous | Member(id: nat)

  function ViewerText(w: Viewer): string {
    match w
    case Anonymous => "anon"
    case Member(id) => IntToString(id)
  }

  /** `room:{room_id}:{fragment}:`, the part of a fragment key fixed by the room and the fragment name. */
  function FragmentPrefix(roomId: nat, fragment: string): (p: string)
    ensures StartsWith(p, "room:") && |p| > 5 && IsDigit(p[5])
  {
    var id := IntToString(roomId);
    var p := "room:" + (id + (":" + fragment + ":"));
    StartsWithConcat("room:", id + (":" + fragment + ":"));
    assert p[5] == id[0];
    p
  }

  /** `room:{room_id}:{fragment}:{version}:{participant_id}`: a fragment key. */
  function FragmentKey(roomId: nat, fragment: string, version: int, viewer: Viewer): (k: string)
    ensures IsFragmentKey(k) && !IsCounterKey(k) && !StartsWith(k, SnapshotPrefix)
  {
    var p := FragmentPrefix(roomId, fragment);
    var k := p + (IntToString(version) + ":" + ViewerText(viewer));
    StartsWithConcat(p, IntToString(version) + ":" + ViewerText(viewer));
    StartsWithTrans(k, p, "room:");
    assert k[5] == p[5];
    NotStartsWithAt(k, VersionPrefix, 5);
    NotStartsWithAt(k, SnapshotPrefix, 5);
    StartsWithAt(k, "room:", 0);
    NotStartsWithAt(k, OtpRatePrefix, 0);
    NotStartsWithAt(k, ErrorRatePrefix, 0);
    k
  }

  /** The key of the cached room list on the home page. */
  const RoomListKey := "room:list:latest"

  lemma RoomListKeyKind()
    ensures !IsCounterKey(RoomListKey) && !StartsWith(RoomListKey, SnapshotPrefix) && !IsFragmentKey(RoomListKey)
  {
    NotStartsWithAt(RoomListKey, VersionPrefix, 5);
    NotStartsWithAt(RoomListKey, SnapshotPrefix, 5);
    NotStartsWithAt(RoomListKey, OtpRatePrefix, 0);
    NotStartsWithAt(RoomListKey, ErrorRatePrefix, 0);
  }

  lemma VersionKeyInjective(a: nat, b: nat)
    requires VersionKey(a) == VersionKey(b)
    ensures a == b
  {
    SamePrefixCancel(VersionPrefix, IntToString(a), IntToString(b));
    IntToStringInjective(a, b);
  }

  /** Distinct (room, version) pairs never share a snapshot entry. */
  lemma SnapshotKeyInjective(r1: nat, v1: int, r2: nat, v2: int)
    requires SnapshotKey(r1, v1) == SnapshotKey(r2, v2)
    ensures r1 == r2 && v1 == v2
  {
    SamePrefixCancel(SnapshotPrefix, IntToString(r1) + ":" + IntToString(v1), IntToString(r2) + ":" + IntToString(v2));
    SplitAtColon(IntToString(r1), IntToString(v1), IntToString(r2), IntToString(v2));
    IntToStringInjective(r1, r2);
    IntToStringInjective(v1, v2);
  }

  lemma ViewerTextInjective(a: Viewer, b: Viewer)
    requires ViewerText(a) == ViewerText(b)
    ensures a == b
  {
    var ta, tb := ViewerText(a), ViewerText(b);
    assert IsDigit(ta[0]) == a.Member?;
    assert IsDigit(tb[0]) == b.Member?;
    if a.Member? && b.Member? {
      IntToStringInjective(a.id, b.id);
    }
  }

  /**
   * For a fixed room and fragment, the fragment key tells the version and
   * the viewer apart: a new version or another participant never reads a
   * fragment rendered for someone or something else.
   */
  lemma FragmentKeyInjective(roomId: nat, fragment: string, v1: int, w1: Viewer, v2: int, w2: Viewer)
    requires FragmentKey(roomId, fragment, v1, w1) == FragmentKey(roomId, fragment, v2, w2)
    ensures v1 == v2 && w1 == w2
  {
    var p := FragmentPrefix(roomId, fragment);
    SamePrefixCancel(p, IntToString(v1) + ":" + ViewerText(w1), IntToString(v2) + ":" + ViewerText(w2));
    SplitAtColon(IntToString(v1), ViewerText(w1), IntToString(v2), ViewerText(w2));
    IntToStringInjective(v1, v2);
    ViewerTextInjective(w1, w2);
  }

  // ----- the version counter -------------------------------------------------------

  /** The version `_ensure_room_version` reports: the stored counter, or 1 when there is none. */
  function CurrentVersion(e: map<string, CacheValue>, roomId: nat): int
    requires WellTyped(e)
  {
    var k := VersionKey(roomId);
    if k in e then e[k].n else 1
  }

  /** The cache after `_ensure_room_version`: a missing counter is seeded with 1. */
  function EnsuredEntries(e: map<string, CacheValue>, roomId: nat): map<string, CacheValue>
    requires WellTyped(e)
  {
    var k := VersionKey(roomId);
    if k in e then e else e[k := Num(1)]
  }

  /** The version `_bump_room_version` returns: one more than the stored counter, or 2 when `incr` fails. */
  function BumpedVersion(e: map<string, CacheValue>, roomId: nat): int
    requires WellTyped(e)
  {
    var k := VersionKey(roomId);
    if k in e then e[k].n + 1 else 2
  }

  function Bumped(e: map<string, CacheValue>, roomId: nat): map<string, CacheValue>
    requires WellTyped(e)
  {
    e[VersionKey(roomId) := Num(BumpedVersion(e, roomId))]
  }

  method EnsureRoomVersion(cache: Cache, roomId: nat) returns (version: int)
    requires cache.Valid()
    modifies cache
    ensures cache.Valid()
    ensures version == CurrentVersion(old(cache.entries), roomId)
    ensures cache.entries == EnsuredEntries(old(cache.entries), roomId)
  {
    var key := VersionKey(roomId);
    var stored := cache.Get(key);
    if stored.None? {
      version := 1;
      cache.Set(key, Num(version));
    } else {
      version := stored.value.n;
    }
  }

  method BumpRoomVersion(cache: Cache, roomId: nat) returns (version: int)
    requires cache.Valid()
    modifies cache
    ensures cache.Valid()
    ensures version == BumpedVersion(old(cache.entries), roomId)
    ensures cache.entries == Bumped(old(cache.entries), roomId)
  {
    var key := VersionKey(roomId);
    var r := cache.Incr(key);
    if r.None? {
      cache.Set(key, Num(2));
      version := 2;
    } else {
      version := r.value;
    }
  }

  /** `invalidate_room_cache`: bump the version and nothing else. */
  method InvalidateRoomCache(cache: Cache, roomId: nat)
    requires cache.Valid()
    modifies cache
    ensures cache.Valid()
    ensures cache.entries == Bumped(old(cache.entries), roomId)
  {
    var _ := BumpRoomVersion(cache, roomId);
  }

  /** `invalidate_room_list`: drop the cached room list. */
  method InvalidateRoomList(cache: Cache)
    requires cache.Valid()
    modifies cache
    ensures cache.Valid()
    ensures cache.entries == old(cache.entries) - {RoomListKey}
  {
    cache.Delete(RoomListKey);
  }

  /**
   * Seeding is idempotent, keeps the reported version, and touches no key but
   * the room's counter; an existing counter is returned unchanged.
   */
  lemma EnsureRoomVersionFacts(e: map<string, CacheValue>, roomId: nat)
    requires WellTyped(e)
    ensures WellTyped(EnsuredEntries(e, roomId))
    ensures CurrentVersion(EnsuredEntries(e, roomId), roomId) == CurrentVersion(e, roomId)
    ensures EnsuredEntries(EnsuredEntries(e, roomId), roomId) == EnsuredEntries(e, roomId)
    ensures VersionKey(roomId) in e ==> EnsuredEntries(e, roomId) == e
    ensures forall k :: k != VersionKey(roomId) ==> (k in EnsuredEntries(e, roomId) <==> k in e)
    ensures forall k :: k != VersionKey(roomId) && k in e ==> EnsuredEntries(e, roomId)[k] == e[k]
  {
    CounterFits(VersionKey(roomId), 1);
  }

  /**
   * A bump reports a version strictly above the one seeding would have
   * reported, makes it the current version, and deletes nothing: every other
   * key keeps its value.
   */
  lemma {:induction false} BumpRaisesVersion(e: map<string, CacheValue>, roomId: nat)
    requires WellTyped(e)
    ensures WellTyped(Bumped(e, roomId))
    ensures BumpedVersion(e, roomId) > CurrentVersion(e, roomId)
    ensures CurrentVersion(Bumped(e, roomId), roomId) == BumpedVersion(e, roomId)
    ensures e.Keys <= Bumped(e, roomId).Keys
    ensures forall k :: k in e && k != VersionKey(roomId) ==> Bumped(e, roomId)[k] == e[k]
  {
    CounterFits(VersionKey(roomId), BumpedVersion(e, roomId));
  }

  // ----- snapshots -----------------------------------------------------------------

  /**
   * The stories `get_room_snapshot` leaves out: Epics (compared ignoring
   * case, without trimming), and, in a room linked to a Jira project,
   * imported issues whose notes name another project.
   */
  predicate ExcludedFromSnapshot(room: Room, s: Story): (r: bool)
    ensures IEquals(s.jiraIssueType, "Epic") ==> r
    ensures room.jiraProjectKey == "" || !StartsWith(s.notes, "Issue: ") ==> (r <==> IEquals(s.jiraIssueType, "Epic"))
  {
    || IEquals(s.jiraIssueType, "Epic")
    || (room.jiraProjectKey != "" && StartsWith(s.notes, "Issue: ") && !StartsWith(s.notes, "Issue: " + room.jiraProjectKey + "-"))
  }

  /** The snapshot rebuilt on a miss: the room's kept stories with their votes, its participants, its deck. */
  function ComputeSnapshot(room: Room, stories: seq<Story>, participants: seq<Participant>, votes: seq<Vote>): (r: Snapshot)
    ensures forall s :: s in r.stories <==> s in stories && s.room == room.id && !ExcludedFromSnapshot(room, s)
    ensures forall p :: p in r.participants <==> p in participants && p.room == room.id
    ensures forall v :: v in r.votes <==> v in votes && v.story in Keys(r.stories, StoryId)
    ensures r.cards == CardsFor(room.cardSet)
  {
    var kept := Filter(stories, (s: Story) => s.room == room.id && !ExcludedFromSnapshot(room, s));
    Snapshot(
      kept,
      Filter(participants, (p: Participant) => p.room == room.id),
      CardsFor(room.cardSet),
      Filter(votes, (v: Vote) => v.story in Keys(kept, StoryId)))
  }

  datatype SnapshotReadResult = SnapshotReadResult(data: Snapshot, version: int, entries: map<string, CacheValue>)

  /**
   * `get_room_snapshot`: seed the version, then return what is cached under
   * (room, version), or store and return `computed` on a miss.
   */
  function SnapshotRead(e: map<string, CacheValue>, roomId: nat, computed: Snapshot): SnapshotReadResult
    requires WellTyped(e)
  {
    var version := CurrentVersion(e, roomId);
    var e1 := EnsuredEntries(e, roomId);
    var k := SnapshotKey(roomId, version);
    EnsureRoomVersionFacts(e, roomId);
    if k in e1 then SnapshotReadResult(e1[k].snapshot, version, e1)
    else SnapshotReadResult(computed, version, e1[k := SnapshotEntry(computed)])
  }

  method GetRoomSnapshot(cache: Cache, store: Store, room: Room) returns (data: Snapshot, version: int)
    requires cache.Valid()
    modifies cache
    ensures cache.Valid()
    ensures SnapshotReadResult(data, version, cache.entries)
         == SnapshotRead(old(cache.entries), room.id, ComputeSnapshot(room, store.stories, store.participants, store.votes))
  {
    ghost var e := cache.entries;
    EnsureRoomVersionFacts(e, room.id);
    version := EnsureRoomVersion(cache, room.id);
    var key := SnapshotKey(room.id, version);
    var cached := cache.Get(key);
    if cached.Some? {
      data := cached.value.snapshot;
    } else {
      data := ComputeSnapshot(room, store.stories, store.participants, store.votes);
      cache.Set(key, SnapshotEntry(data));
    }
  }

  /**
   * What a read returns: the room's current version, and the data that the
   * cache now holds under (room, version); on a hit that is the cached data
   * and nothing is stored.
   */
  lemma SnapshotReadFacts(e: map<string, CacheValue>, roomId: nat, computed: Snapshot)
    requires WellTyped(e)
    ensures WellTyped(SnapshotRead(e, roomId, computed).entries)
    ensures SnapshotRead(e, roomId, computed).version == CurrentVersion(e, roomId)
    ensures CurrentVersion(SnapshotRead(e, roomId, computed).entries, roomId) == CurrentVersion(e, roomId)
    ensures SnapshotKey(roomId, CurrentVersion(e, roomId)) in SnapshotRead(e, roomId, computed).entries
    ensures SnapshotRead(e, roomId, computed).entries[SnapshotKey(roomId, CurrentVersion(e, roomId))]
         == SnapshotEntry(SnapshotRead(e, roomId, computed).data)
    ensures SnapshotKey(roomId, CurrentVersion(e, roomId)) in e ==>
              SnapshotRead(e, roomId, computed).data == e[SnapshotKey(roomId, CurrentVersion(e, roomId))].snapshot
              && SnapshotRead(e, roomId, computed).entries == EnsuredEntries(e, roomId)
    ensures SnapshotKey(roomId, CurrentVersion(e, roomId)) !in e ==> SnapshotRead(e, roomId, computed).data == computed
  {
    EnsureRoomVersionFacts(e, roomId);
    var k := SnapshotKey(roomId, CurrentVersion(e, roomId));
    assert k != VersionKey(roomId);
  }

  /**
   * Two reads with no bump and no eviction in between return the same data
   * and version, and the second one stores nothing, whatever the database
   * holds by then.
   */
  lemma ReadTwiceSame(e: map<string, CacheValue>, roomId: nat, computed1: Snapshot, computed2: Snapshot)
    requires WellTyped(e)
    ensures WellTyped(SnapshotRead(e, roomId, computed1).entries)
    ensures SnapshotRead(SnapshotRead(e, roomId, computed1).entries, roomId, computed2) == SnapshotRead(e, roomId, computed1)
  {
    SnapshotReadFacts(e, roomId, computed1);
    var r1 := SnapshotRead(e, roomId, computed1);
    EnsureRoomVersionFacts(r1.entries, roomId);
  }

  /** No snapshot of the room is stored under a version beyond its current one. */
  ghost predicate NoFutureSnapshots(e: map<string, CacheValue>, roomId: nat)
    requires WellTyped(e)
  {
    forall v :: SnapshotKey(roomId, v) in e ==> v <= CurrentVersion(e, roomId)
  }

  /**
   * When no snapshot is stored beyond the current version, the read right
   * after a bump misses and returns the freshly computed data under the new
   * version: a change is visible on the next read.
   */
  lemma BumpForcesRecompute(e: map<string, CacheValue>, roomId: nat, computed: Snapshot)
    requires WellTyped(e) && NoFutureSnapshots(e, roomId)
    ensures WellTyped(Bumped(e, roomId))
    ensures SnapshotRead(Bumped(e, roomId), roomId, computed).data == computed
    ensures SnapshotRead(Bumped(e, roomId), roomId, computed).version == BumpedVersion(e, roomId)
  {
    BumpRaisesVersion(e, roomId);
    var b := Bumped(e, roomId);
    var v := BumpedVersion(e, roomId);
    assert SnapshotKey(roomId, v) !in e;
    assert SnapshotKey(roomId, v) != VersionKey(roomId);
    SnapshotReadFacts(b, roomId, computed);
  }

  /** A bump of any room keeps the invariant. */
  lemma BumpKeepsNoFutureSnapshots(e: map<string, CacheValue>, roomId: nat, other: nat)
    requires WellTyped(e) && NoFutureSnapshots(e, roomId)
    ensures WellTyped(Bumped(e, other)) && NoFutureSnapshots(Bumped(e, other), roomId)
  {
    BumpRaisesVersion(e, other);
    var b := Bumped(e, other);
    if other != roomId {
      assert VersionKey(roomId) != VersionKey(other) by {
        if VersionKey(roomId) == VersionKey(other) {
          VersionKeyInjective(roomId, other);
        }
      }
      assert CurrentVersion(b, roomId) == CurrentVersion(e, roomId);
    }
  }

  /** A read of any room keeps the invariant. */
  lemma ReadKeepsNoFutureSnapshots(e: map<string, CacheValue>, roomId: nat, other: nat, computed: Snapshot)
    requires WellTyped(e) && NoFutureSnapshots(e, roomId)
    ensures WellTyped(SnapshotRead(e, other, computed).entries)
    ensures NoFutureSnapshots(SnapshotRead(e, other, computed).entries, roomId)
  {
    SnapshotReadFacts(e, other, computed);
    EnsureRoomVersionFacts(e, other);
    var r := SnapshotRead(e, other, computed).entries;
    var k := SnapshotKey(other, CurrentVersion(e, other));
    assert CurrentVersion(r, roomId) == CurrentVersion(e, roomId) by {
      if other != roomId && VersionKey(roomId) == VersionKey(other) {
        VersionKeyInjective(roomId, other);
      }
    }
    forall v | SnapshotKey(roomId, v) in r ensures v <= CurrentVersion(r, roomId) {
      if SnapshotKey(roomId, v) == k {
        SnapshotKeyInjective(roomId, v, other, CurrentVersion(e, other));
      }
    }
  }

  /** Evicting any entry but the room's own counter keeps the invariant. */
  lemma EvictionKeepsNoFutureSnapshots(e: map<string, CacheValue>, roomId: nat, evicted: string)
    requires WellTyped(e) && NoFutureSnapshots(e, roomId)
    requires evicted != VersionKey(roomId)
    ensures WellTyped(e - {evicted}) && NoFutureSnapshots(e - {evicted}, roomId)
  {
    assert CurrentVersion(e - {evicted}, roomId) == CurrentVersion(e, roomId);
  }

  /**
   * Storing under a key that is neither a snapshot key nor the room's own
   * counter keeps the invariant: a cached fragment, or any other room's
   * counter.
   */
  lemma SetKeepsNoFutureSnapshots(e: map<string, CacheValue>, roomId: nat, k: string, v: CacheValue)
    requires WellTyped(e) && NoFutureSnapshots(e, roomId)
    requires Fits(k, v) && !StartsWith(k, SnapshotPrefix) && k != VersionKey(roomId)
    ensures WellTyped(e[k := v]) && NoFutureSnapshots(e[k := v], roomId)
  {
    assert CurrentVersion(e[k := v], roomId) == CurrentVersion(e, roomId);
    forall w | SnapshotKey(roomId, w) in e[k := v] ensures w <= CurrentVersion(e, roomId) {
      assert SnapshotKey(roomId, w) != k;
    }
  }

  /** Caching a rendered fragment keeps the invariant. */
  lemma FragmentSetKeepsNoFutureSnapshots(e: map<string, CacheValue>, roomId: nat, other: nat, fragment: string,
                                          version: int, viewer: Viewer, html: string)
    requires WellTyped(e) && NoFutureSnapshots(e, roomId)
    ensures var k := FragmentKey(other, fragment, version, viewer);
            WellTyped(e[k := Fragment(html)]) && NoFutureSnapshots(e[k := Fragment(html)], roomId)
  {
    var k := FragmentKey(other, fragment, version, viewer);
    assert k != VersionKey(roomId);
    SetKeepsNoFutureSnapshots(e, roomId, k, Fragment(html));
  }

  /** A hit on a rate counter (the OTP or the error-mail limiter) keeps the invariant. */
  lemma RateHitKeepsNoFutureSnapshots(e: map<string, CacheValue>, roomId: nat, key: string, limit: int)
    requires WellTyped(e) && NoFutureSnapshots(e, roomId)
    requires IsCounterKey(key) && !StartsWith(key, VersionPrefix)
    ensures WellTyped(RateCounter.HitSpec(e, key, limit).entries)
    ensures NoFutureSnapshots(RateCounter.HitSpec(e, key, limit).entries, roomId)
  {
    StartsWithConcat(VersionPrefix, IntToString(roomId));
    assert VersionKey(roomId) == VersionPrefix + IntToString(roomId);
    CounterFits(key, 1);
    if key in e {
      CounterFits(key, e[key].n + 1);
      SetKeepsNoFutureSnapshots(e, roomId, key, Num(e[key].n + 1));
    } else {
      SetKeepsNoFutureSnapshots(e, roomId, key, Num(1));
    }
  }

  /**
   * When the counter alone is evicted while a snapshot for version 1 is
   * still cached, the version restarts at 1 and the old snapshot is served
   * even though the room changed: read (stores data `a` at version 1), bump
   * to version 2, evict the counter, read again with the database now
   * giving `b`.
   */
  lemma EvictedVersionServesStale(roomId: nat, a: Snapshot, b: Snapshot)
    ensures
      var r1 := SnapshotRead(map[], roomId, a);
      WellTyped(r1.entries) &&
      var bumped := Bumped(r1.entries, roomId);
      WellTyped(bumped) && BumpedVersion(r1.entries, roomId) == 2 &&
      SnapshotRead(bumped - {VersionKey(roomId)}, roomId, b) == SnapshotReadResult(a, 1, bumped - {VersionKey(roomId)} + map[VersionKey(roomId) := Num(1)])
  {
    var r1 := SnapshotRead(map[], roomId, a);
    SnapshotReadFacts(map[], roomId, a);
    BumpRaisesVersion(r1.entries, roomId);
    var bumped := Bumped(r1.entries, roomId);
    var evicted := bumped - {VersionKey(roomId)};
    assert SnapshotKey(roomId, 1) != VersionKey(roomId);
    assert SnapshotKey(roomId, 1) in evicted && evicted[SnapshotKey(roomId, 1)] == SnapshotEntry(a);
  }
}
