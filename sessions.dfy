/**
 * The per-browser session dictionary that poker/views.py reads and writes:
 * the pending one-time-code record, the signed-in organisation email, and
 * one "p_{room code}" entry per joined room holding the participant id.
 */
module Sessions {
  import opened Wrappers
  import opened Strings

  /** The dict stored under `org_pending_token`; `expiresAt` is a Unix time in whole seconds. */
  datatype PendingToken = PendingToken(email: string, token: string, expiresAt: int)

  datatype SessionValue = Text(text: string) | Pid(id: int) | Pending(record: PendingToken)

  const TokenSessionKey := "org_pending_token"
  const OrgEmailKey := "org_email"
  const ParticipantPrefix := "p_"

  function ParticipantKey(code: string): (k: string)
    ensures StartsWith(k, ParticipantPrefix) && k != TokenSessionKey && k != OrgEmailKey
  {
    StartsWithConcat(ParticipantPrefix, code);
    var k := ParticipantPrefix + code;
    assert k[0] == 'p';
    k
  }

  /** The kind of value the views store under each key. */
  predicate Fits(k: string, v: SessionValue) {
    && (k == TokenSessionKey ==> v.Pending?)
    && (k == OrgEmailKey ==> v.Text?)
    && (StartsWith(k, ParticipantPrefix) ==> v.Pid?)
  }

  ghost predicate WellTyped(d: map<string, SessionValue>) {
    forall k :: k in d ==> Fits(k, d[k])
  }

  lemma NamedKeysAreNotParticipantKeys()
    ensures !StartsWith(TokenSessionKey, ParticipantPrefix) && !StartsWith(OrgEmailKey, ParticipantPrefix)
  {
    NotStartsWithAt(TokenSessionKey, ParticipantPrefix, 0);
    NotStartsWithAt(OrgEmailKey, ParticipantPrefix, 0);
  }

  /** `session.get("org_email")` is truthy: a non-empty email is stored. */
  predicate SignedIn(d: map<string, SessionValue>) {
    OrgEmailKey in d && d[OrgEmailKey].Text? && d[OrgEmailKey].text != ""
  }

  /** The session after `_set_pending_token`: the record is replaced, expiring `ttl` seconds after `now`. */
  function WithPendingToken(d: map<string, SessionValue>, email: string, token: string, now: int, ttl: int): map<string, SessionValue> {
    d[TokenSessionKey := Pending(PendingToken(email, token, now + ttl))]
  }

  datatype PendingRead = PendingRead(pending: Option<PendingToken>, data: map<string, SessionValue>)

  /** `_get_pending_token`: an expired record is dropped on read and reported as absent. */
  function PendingAfterRead(d: map<string, SessionValue>, now: int): PendingRead
    requires WellTyped(d)
  {
    if TokenSessionKey !in d then PendingRead(None, d)
    else
      var record := d[TokenSessionKey].record;
      if now > record.expiresAt then PendingRead(None, d - {TokenSessionKey})
      else PendingRead(Some(record), d)
  }

  /** `org_logout`: every participant entry, the email and the pending record are gone; nothing else changes. */
  function LoggedOut(d: map<string, SessionValue>): map<string, SessionValue> {
    map k | k in d && !StartsWith(k, ParticipantPrefix) && k != OrgEmailKey && k != TokenSessionKey :: d[k]
  }

  /**
   * A read returns the record unchanged, and leaves the session as it was,
   * exactly when it has not expired; an expired record is removed and
   * nothing else is.
   */
  lemma PendingExpiry(d: map<string, SessionValue>, now: int)
    requires WellTyped(d) && TokenSessionKey in d
    ensures WellTyped(PendingAfterRead(d, now).data)
    ensures PendingAfterRead(d, now).pending.None? <==> now > d[TokenSessionKey].record.expiresAt
    ensures PendingAfterRead(d, now).pending.Some? ==>
              PendingAfterRead(d, now).pending.value == d[TokenSessionKey].record && PendingAfterRead(d, now).data == d
    ensures PendingAfterRead(d, now).pending.None? ==> PendingAfterRead(d, now).data == d - {TokenSessionKey}
  {
  }

  /**
   * A record set at `now` reads back, field for field, until `now + ttl`
   * inclusive, and not after; a later set replaces an earlier one.
   */
  lemma SetThenRead(d: map<string, SessionValue>, email: string, token: string, now: int, ttl: int, later: int)
    requires WellTyped(d)
    ensures WellTyped(WithPendingToken(d, email, token, now, ttl))
    ensures PendingAfterRead(WithPendingToken(d, email, token, now, ttl), later).pending
         == if later > now + ttl then None else Some(PendingToken(email, token, now + ttl))
  {
    NamedKeysAreNotParticipantKeys();
  }

  /** Logging out signs the session out and leaves no pending code to verify. */
  lemma LoggedOutFacts(d: map<string, SessionValue>, now: int)
    requires WellTyped(d)
    ensures WellTyped(LoggedOut(d)) && !SignedIn(LoggedOut(d))
    ensures PendingAfterRead(LoggedOut(d), now).pending == None
    ensures forall code :: ParticipantKey(code) !in LoggedOut(d)
    ensures forall k :: k in d && !StartsWith(k, ParticipantPrefix) && k != OrgEmailKey && k != TokenSessionKey ==> k in LoggedOut(d)
  {
  }

  class Session {
    var data: map<string, SessionValue>

    ghost predicate Valid()
      reads this
    {
      WellTyped(data)
    }

    constructor ()
      ensures Valid() && data == map[]
    {
      data := map[];
    }

    /** `session.get(key)`. */
    function Get(key: string): (r: Option<SessionValue>)
      reads this
      ensures r.Some? <==> key in data
      ensures r.Some? ==> r.value == data[key]
    {
      if key in data then Some(data[key]) else None
    }

    /** `session[key] = value`. */
    method Set(key: string, value: SessionValue)
      requires Valid() && Fits(key, value)
      modifies this
      ensures Valid()
      ensures data == old(data)[key := value]
    {
      data := data[key := value];
    }

    /** `session.pop(key, None)`. */
    method Pop(key: string)
      requires Valid()
      modifies this
      ensures Valid()
      ensures data == old(data) - {key}
    {
      data := data - {key};
    }

    /** `_set_pending_token`. */
    method SetPendingToken(email: string, token: string, now: int, ttl: int)
      requires Valid()
      modifies this
      ensures Valid()
      ensures data == WithPendingToken(old(data), email, token, now, ttl)
    {
      NamedKeysAreNotParticipantKeys();
      Set(TokenSessionKey, Pending(PendingToken(email, token, now + ttl)));
    }

    /** `_get_pending_token`. */
    method GetPendingToken(now: int) returns (pending: Option<PendingToken>)
      requires Valid()
      modifies this
      ensures Valid()
      ensures PendingRead(pending, data) == PendingAfterRead(old(data), now)
    {
      var stored := Get(TokenSessionKey);
      if stored.None? {
        return None;
      }
      var record := stored.value.record;
      if now > record.expiresAt {
        Pop(TokenSessionKey);
        return None;
      }
      return Some(record);
    }

    /** `_clear_pending_token`. */
    method ClearPendingToken()
      requires Valid()
      modifies this
      ensures Valid()
      ensures data == old(data) - {TokenSessionKey}
    {
      Pop(TokenSessionKey);
    }

    /** `org_logout`: pop every "p_" key found in a snapshot of the keys, then the email and the pending record. */
    method Logout()
      requires Valid()
      modifies this
      ensures Valid()
      ensures data == LoggedOut(old(data))
    {
      var keys := data.Keys;
      ghost var done: set<string> := {};
      while keys != {}
        invariant keys !! done && keys + done == old(data).Keys
        invariant Valid()
        invariant data == map k | k in old(data) && !(k in done && StartsWith(k, ParticipantPrefix)) :: old(data)[k]
        decreases keys
      {
        var key :| key in keys;
        if StartsWith(key, ParticipantPrefix) {
          Pop(key);
        }
        keys := keys - {key};
        done := done + {key};
      }
      Pop(OrgEmailKey);
      ClearPendingToken();
    }
  }
}
