/**
 * The organisation sign-in flow of poker/views.py: one-time codes kept as a
 * pending record in the session, a per-email request limiter in the cache,
 * and the `org_login` / `org_logout` transitions. The clock, the random
 * code, DEBUG, the settings TTL, the Turnstile check, form validation and
 * whether the email went out are inputs.
 */
module OrgLogin {
  import opened Wrappers
  import opened Strings
  import opened KeyValueCache
  import opened RateCounter
  import opened Sessions

  const OtpRateLimit := 3
  const CodeDigits := 6

  /** `_generate_access_token` for the random draw `n`: six decimal digits, zero-padded. */
  function GenerateAccessToken(n: nat): (token: string)
    requires n <= 999999
    ensures |token| == CodeDigits && AllDigits(token)
    ensures DecimalValue(token) == n
  {
    PadDigits(n, CodeDigits)
  }

  /** Distinct draws give distinct codes. */
  lemma GenerateAccessTokenInjective(a: nat, b: nat)
    requires a <= 999999 && b <= 999999
    requires GenerateAccessToken(a) == GenerateAccessToken(b)
    ensures a == b
  {
  }

  /** `otp:rate:{email.lower()}`. */
  function OtpRateKey(email: string): (k: string)
    ensures IsCounterKey(k)
  {
    StartsWithConcat(OtpRatePrefix, Lower(email));
    OtpRatePrefix + Lower(email)
  }

  /** Emails that differ only in ASCII letter case share one counter. */
  lemma OtpRateKeyIgnoresCase(a: string, b: string)
    requires IEquals(a, b)
    ensures OtpRateKey(a) == OtpRateKey(b)
  {
  }

  /** `_otp_rate_limited`: the shared counter pattern with a limit of 3. */
  method OtpRateLimited(cache: Cache, email: string) returns (limited: bool)
    requires cache.Valid()
    modifies cache
    ensures cache.Valid()
    ensures HitResult(limited, cache.entries) == HitSpec(old(cache.entries), OtpRateKey(email), OtpRateLimit)
  {
    limited := Hit(cache, OtpRateKey(email), OtpRateLimit);
  }

  /**
   * Within one window, the first three requests for an email pass and the
   * fourth is refused; a refused request leaves the counter as it was.
   */
  lemma FourthRequestLimited(e: map<string, CacheValue>, email: string)
    requires OtpRateKey(email) !in e
    ensures
      var k := OtpRateKey(email);
      var h1 := HitSpec(e, k, OtpRateLimit);
      var h2 := HitSpec(h1.entries, k, OtpRateLimit);
      var h3 := HitSpec(h2.entries, k, OtpRateLimit);
      var h4 := HitSpec(h3.entries, k, OtpRateLimit);
      !h1.limited && !h2.limited && !h3.limited && h4.limited && h4.entries == h3.entries
      && h1.entries[k] == Num(1) && h3.entries[k] == Num(3)
  {
  }

  // ----- org_login -------------------------------------------------------------------

  /** What the submitted form holds once it validates; `None` stands for an unbound or invalid form. */
  datatype LoginForm = LoginForm(email: string, token: string)

  datatype LoginRequest = LoginRequest(
    isPost: bool,
    /** `?reset_token=1` was given. */
    resetToken: bool,
    /** The POSTed `action` is "resend". */
    resend: bool,
    turnstileOk: bool,
    form: Option<LoginForm>)

  /** The clock, the settings and the oracles one request sees. */
  datatype LoginEnv = LoginEnv(now: int, ttl: int, debug: bool, code: nat, sent: bool)

  datatype LoginOutcome =
    | AlreadySignedIn
    | ResendLimited
    | CodeResent
    | ResendFailed
    | EmailMismatch
    | WrongToken
    | Granted
    | RequestLimited
    | CodeSent
    | DeliveryFailed
    | FormShown

  datatype LoginResult = LoginResult(outcome: LoginOutcome, session: map<string, SessionValue>, cache: map<string, CacheValue>)

  /** The session after the optional reset and the expiry check, and the pending record that survives both. */
  function PendingAtLogin(d: map<string, SessionValue>, req: LoginRequest, now: int): PendingRead
    requires Sessions.WellTyped(d)
  {
    PendingAfterRead(if req.resetToken then d - {TokenSessionKey} else d, now)
  }

  /** One request to `org_login`. */
  function Login(d: map<string, SessionValue>, e: map<string, CacheValue>, req: LoginRequest, env: LoginEnv): (r: LoginResult)
    requires Sessions.WellTyped(d) && KeyValueCache.WellTyped(e) && env.code <= 999999
    ensures Sessions.WellTyped(r.session) && KeyValueCache.WellTyped(r.cache)
    ensures r.outcome == AlreadySignedIn <==> SignedIn(d)
    ensures SignedIn(r.session) ==> r.outcome in {AlreadySignedIn, Granted}
    ensures r.outcome in {AlreadySignedIn, EmailMismatch, WrongToken, Granted, FormShown} ==> r.cache == e
  {
    if SignedIn(d) then LoginResult(AlreadySignedIn, d, e)
    else
      var d1 := if req.resetToken then d - {TokenSessionKey} else d;
      var read := PendingAtLogin(d, req, env.now);
      PendingExpiryOrAbsent(d1, env.now);
      NamedKeysAreNotParticipantKeys();
      assert !SignedIn(read.data) by {
        assert OrgEmailKey in read.data ==> read.data[OrgEmailKey] == d[OrgEmailKey];
      }
      var d2 := read.data;
      var pending := read.pending;
      var token := GenerateAccessToken(env.code);
      if !req.isPost then LoginResult(FormShown, d2, e)
      else if req.turnstileOk && req.resend && pending.Some? then
        var email := pending.value.email;
        HitKeepsTyped(e, OtpRateKey(email), OtpRateLimit);
        var h := HitSpec(e, OtpRateKey(email), OtpRateLimit);
        if h.limited then LoginResult(ResendLimited, d2, h.entries)
        else if env.sent || env.debug then LoginResult(CodeResent, WithPendingToken(d2, email, token, env.now, env.ttl), h.entries)
        else LoginResult(ResendFailed, d2, h.entries)
      else if req.turnstileOk && req.form.Some? then
        var form := req.form.value;
        if pending.Some? then
          if form.email != pending.value.email then LoginResult(EmailMismatch, d2, e)
          else if form.token != pending.value.token then LoginResult(WrongToken, d2, e)
          else LoginResult(Granted, (d2 - {TokenSessionKey})[OrgEmailKey := Text(pending.value.email)], e)
        else
          var h := HitSpec(e, OtpRateKey(form.email), OtpRateLimit);
          HitKeepsTyped(e, OtpRateKey(form.email), OtpRateLimit);
          if h.limited then LoginResult(RequestLimited, d2, h.entries)
          else if env.sent || env.debug then LoginResult(CodeSent, WithPendingToken(d2, form.email, token, env.now, env.ttl), h.entries)
          else LoginResult(DeliveryFailed, d2, h.entries)
      else LoginResult(FormShown, d2, e)
  }

  method OrgLogin(session: Session, cache: Cache, req: LoginRequest, env: LoginEnv) returns (outcome: LoginOutcome)
    requires session.Valid() && cache.Valid() && env.code <= 999999
    modifies session, cache
    ensures session.Valid() && cache.Valid()
    ensures LoginResult(outcome, session.data, cache.entries) == Login(old(session.data), old(cache.entries), req, env)
  {
    var email := session.Get(OrgEmailKey);
    if email.Some? && email.value.text != "" {
      return AlreadySignedIn;
    }
    if req.resetToken {
      session.ClearPendingToken();
    }
    var pending := session.GetPendingToken(env.now);
    if req.isPost {
      if req.turnstileOk && req.resend && pending.Some? {
        var limited := OtpRateLimited(cache, pending.value.email);
        if limited {
          return ResendLimited;
        }
        var token := GenerateAccessToken(env.code);
        if env.sent || env.debug {
          session.SetPendingToken(pending.value.email, token, env.now, env.ttl);
          return CodeResent;
        }
        return ResendFailed;
      }
      if req.turnstileOk && req.form.Some? {
        var form := req.form.value;
        if pending.Some? {
          if form.email != pending.value.email {
            return EmailMismatch;
          } else if form.token != pending.value.token {
            return WrongToken;
          }
          session.ClearPendingToken();
          NamedKeysAreNotParticipantKeys();
          session.Set(OrgEmailKey, Text(pending.value.email));
          return Granted;
        }
        var limited := OtpRateLimited(cache, form.email);
        if limited {
          return RequestLimited;
        }
        var token := GenerateAccessToken(env.code);
        if env.sent || env.debug {
          session.SetPendingToken(form.email, token, env.now, env.ttl);
          return CodeSent;
        }
        return DeliveryFailed;
      }
    }
    return FormShown;
  }

  /**
   * Access is granted exactly for a POST from a signed-out session that
   * passed Turnstile, is not a resend, and whose form carries the email and
   * the code of a pending record that is neither reset nor expired.
   */
  lemma GrantedIff(d: map<string, SessionValue>, e: map<string, CacheValue>, req: LoginRequest, env: LoginEnv)
    requires Sessions.WellTyped(d) && KeyValueCache.WellTyped(e) && env.code <= 999999
    ensures Login(d, e, req, env).outcome == Granted <==>
      && !SignedIn(d) && req.isPost && req.turnstileOk && !req.resend && req.form.Some?
      && PendingAtLogin(d, req, env.now).pending.Some?
      && req.form.value.email == PendingAtLogin(d, req, env.now).pending.value.email
      && req.form.value.token == PendingAtLogin(d, req, env.now).pending.value.token
  {
  }

  /**
   * A grant consumes the code and signs the session in with the pending
   * email; the next visit to the page redirects straight away.
   */
  lemma GrantConsumesToken(d: map<string, SessionValue>, e: map<string, CacheValue>, req: LoginRequest, env: LoginEnv,
                           req2: LoginRequest, env2: LoginEnv)
    requires Sessions.WellTyped(d) && KeyValueCache.WellTyped(e) && env.code <= 999999 && env2.code <= 999999
    requires Login(d, e, req, env).outcome == Granted
    requires PendingAtLogin(d, req, env.now).pending.value.email != ""
    ensures var r := Login(d, e, req, env);
      && TokenSessionKey !in r.session
      && r.session[OrgEmailKey] == Text(PendingAtLogin(d, req, env.now).pending.value.email)
      && r.cache == e
      && Sessions.WellTyped(r.session)
      && Login(r.session, r.cache, req2, env2) == LoginResult(AlreadySignedIn, r.session, r.cache)
  {
    var read := PendingAtLogin(d, req, env.now);
    PendingExpiryOrAbsent(if req.resetToken then d - {TokenSessionKey} else d, env.now);
    NamedKeysAreNotParticipantKeys();
  }

  /** The session after the expiry check is still well typed. */
  lemma PendingExpiryOrAbsent(d: map<string, SessionValue>, now: int)
    requires Sessions.WellTyped(d)
    ensures Sessions.WellTyped(PendingAfterRead(d, now).data)
    ensures PendingAfterRead(d, now).data.Keys <= d.Keys
  {
  }

  /**
   * A wrong email or a wrong code keeps the pending record exactly as it was
   * and does not sign the session in.
   */
  lemma MismatchKeepsToken(d: map<string, SessionValue>, e: map<string, CacheValue>, req: LoginRequest, env: LoginEnv)
    requires Sessions.WellTyped(d) && KeyValueCache.WellTyped(e) && env.code <= 999999
    requires Login(d, e, req, env).outcome in {EmailMismatch, WrongToken}
    ensures var r := Login(d, e, req, env);
      && TokenSessionKey in d && TokenSessionKey in r.session && r.session[TokenSessionKey] == d[TokenSessionKey]
      && !SignedIn(r.session) && r.session == d && r.cache == e
  {
  }

  /**
   * A new code is stored only when the email went out or DEBUG is on: without
   * either, the pending record afterwards, if any, is the one the request
   * started with.
   */
  lemma CodeStoredOnlyIfSent(d: map<string, SessionValue>, e: map<string, CacheValue>, req: LoginRequest, env: LoginEnv)
    requires Sessions.WellTyped(d) && KeyValueCache.WellTyped(e) && env.code <= 999999
    requires !env.sent && !env.debug
    ensures var r := Login(d, e, req, env);
      TokenSessionKey in r.session ==> TokenSessionKey in d && r.session[TokenSessionKey] == d[TokenSessionKey]
  {
  }

  /**
   * A stored code is the six-digit rendering of the draw, for the email it
   * was sent to, expiring `ttl` seconds from now.
   */
  lemma StoredCodeShape(d: map<string, SessionValue>, e: map<string, CacheValue>, req: LoginRequest, env: LoginEnv)
    requires Sessions.WellTyped(d) && KeyValueCache.WellTyped(e) && env.code <= 999999
    requires Login(d, e, req, env).outcome in {CodeSent, CodeResent}
    ensures var r := Login(d, e, req, env);
      && (env.sent || env.debug)
      && TokenSessionKey in r.session
      && r.session[TokenSessionKey].Pending?
      && var p := r.session[TokenSessionKey].record;
      && p.token == GenerateAccessToken(env.code) && |p.token| == 6 && AllDigits(p.token)
      && p.expiresAt == env.now + env.ttl
      && (r.outcome == CodeResent ==> p.email == PendingAtLogin(d, req, env.now).pending.value.email)
      && (r.outcome == CodeSent ==> p.email == req.form.value.email)
  {
  }

  /** A refused resend leaves the pending record and the counter untouched. */
  lemma ResendLimitedKeepsToken(d: map<string, SessionValue>, e: map<string, CacheValue>, req: LoginRequest, env: LoginEnv)
    requires Sessions.WellTyped(d) && KeyValueCache.WellTyped(e) && env.code <= 999999
    requires Login(d, e, req, env).outcome == ResendLimited
    ensures var r := Login(d, e, req, env);
      r.session == PendingAtLogin(d, req, env.now).data && r.cache == e
      && TokenSessionKey in r.session && PendingAtLogin(d, req, env.now).pending == Some(r.session[TokenSessionKey].record)
  {
  }

  /** A code read after its expiry time can never be used to sign in. */
  lemma ExpiredTokenNeverGrants(d: map<string, SessionValue>, e: map<string, CacheValue>, req: LoginRequest, env: LoginEnv)
    requires Sessions.WellTyped(d) && KeyValueCache.WellTyped(e) && env.code <= 999999
    requires TokenSessionKey in d && env.now > d[TokenSessionKey].record.expiresAt
    ensures Login(d, e, req, env).outcome != Granted
  {
    GrantedIff(d, e, req, env);
  }

  datatype LogoutOutcome = LogoutNotAllowed | SignedOut

  /** `org_logout` behind `@require_POST`: any other method gets 405 and the session is left alone. */
  method OrgLogout(session: Session, isPost: bool) returns (outcome: LogoutOutcome)
    requires session.Valid()
    modifies session
    ensures session.Valid()
    ensures outcome == SignedOut <==> isPost
    ensures session.data == if isPost then LoggedOut(old(session.data)) else old(session.data)
  {
    if !isPost {
      return LogoutNotAllowed;
    }
    session.Logout();
    return SignedOut;
  }

  /** After `org_logout` the session is signed out and no earlier code can sign it in again. */
  lemma LogoutRevokesAccess(d: map<string, SessionValue>, e: map<string, CacheValue>, req: LoginRequest, env: LoginEnv)
    requires Sessions.WellTyped(d) && KeyValueCache.WellTyped(e) && env.code <= 999999
    ensures Sessions.WellTyped(LoggedOut(d))
    ensures Login(LoggedOut(d), e, req, env).outcome !in {Granted, AlreadySignedIn}
  {
    LoggedOutFacts(d, env.now);
    GrantedIff(LoggedOut(d), e, req, env);
  }
}
