/** Logout and the token blacklist. Time is counted in whole milliseconds, verification of a
    token at one moment and its lookup in Redis happen at the same time, and Redis commands
    succeed. */
module Revocation {
  import opened Redis

  const DAY := 86_400_000

  datatype Claims = Claims(role: string, exp: Option<int>)

  /** What the handlers depend on: which strings are tokens signed with the current key, or
      with any registered key, and what they claim; the hash behind tokenKey; and whether
      the blacklist has a Redis client. */
  datatype Env = Env(
    current: map<string, Claims>, registered: map<string, Claims>, hash: string -> string, hasRedis: bool)

  const BEARER := "Bearer "
  const PREFIX := "blacklist:token:"

  /** The contract of the environment. The current key is registered, a header with its
      "Bearer " is no token, and hashes do not collide. */
  ghost predicate Sound(env: Env) {
    && (forall t :: t in env.current ==> t in env.registered && env.registered[t] == env.current[t])
    && (forall t :: t in env.registered ==> !(BEARER <= t) && t != "")
    && (forall t, u :: env.hash(t) == env.hash(u) ==> t == u)
  }

  type Blacklist = Store<string, string>

  function TokenKey(env: Env, token: string): string {
    PREFIX + env.hash(token)
  }

  /** The library accepts a signed token until its `exp` (section 4.1.4 of RFC 7519). */
  function Parse(tokens: map<string, Claims>, token: string, now: int): Option<Claims> {
    if token in tokens && (tokens[token].exp.Some? ==> now < tokens[token].exp.value) then Some(tokens[token])
    else None
  }

  function AddToken(env: Env, s: Blacklist, now: int, token: string, expiresAt: int): Blacklist {
    if !env.hasRedis || expiresAt - now <= 0 then s
    else Set(s, TokenKey(env, token), "1", expiresAt - now, now)
  }

  predicate Blacklisted(env: Env, s: Blacklist, now: int, token: string) {
    env.hasRedis && Get(s, TokenKey(env, token), now) == Some("1")
  }

  function Strip(header: string): string {
    if BEARER <= header then header[|BEARER|..] else header
  }

  function ExpiresAt(claims: Claims, now: int): int {
    if claims.exp.Some? then claims.exp.value else now + DAY
  }

  datatype Reply = Unauthorized | LoggedOut

  function Logout(env: Env, s: Blacklist, now: int, header: string): (Blacklist, Reply) {
    if header == "" then (s, Unauthorized)
    else
      var token := Strip(header);
      match Parse(env.current, token, now)
      case None => (s, Unauthorized)
      case Some(claims) => (AddToken(env, s, now, token, ExpiresAt(claims, now)), LoggedOut)
  }

  /** JWTMiddleware, JWTAdminVerification and JWTUserVerification. */
  datatype Guard = AnyRole | AdminOnly | UserOrAdmin

  /** The middlewares take the header as it stands. */
  predicate Accepts(env: Env, s: Blacklist, now: int, header: string, guard: Guard) {
    var claims := Parse(if guard.AnyRole? then env.registered else env.current, header, now);
    && header != ""
    && claims.Some?
    && (guard.AdminOnly? ==> claims.value.role == "admin")
    && (guard.UserOrAdmin? ==> claims.value.role == "user" || claims.value.role == "admin")
    && !Blacklisted(env, s, now, header)
  }

  // ---------------------------------------------------------------- the handlers

  class TokenBlacklist {
    const env: Env
    var redis: Blacklist

    constructor (env: Env)
      ensures this.env == env && redis == map[]
    {
      this.env := env;
      redis := map[];
    }

    method AddTokenToBlacklist(now: int, token: string, expiresAt: int)
      modifies this
      ensures redis == AddToken(env, old(redis), now, token, expiresAt)
    {
      if !env.hasRedis {
        return;
      }
      var ttl := expiresAt - now;
      if ttl <= 0 {
        return;
      }
      redis := Set(redis, TokenKey(env, token), "1", ttl, now);
    }

    method IsTokenBlacklisted(now: int, token: string) returns (r: bool)
      ensures r == Blacklisted(env, redis, now, token)
    {
      if !env.hasRedis {
        return false;
      }
      var found := Get(redis, TokenKey(env, token), now);
      if found.None? {
        return false;
      }
      return found.value == "1";
    }

    method LogoutHandler(now: int, header: string) returns (reply: Reply)
      modifies this
      ensures (redis, reply) == Logout(env, old(redis), now, header)
    {
      var tokenString := header;
      if tokenString == "" {
        return Unauthorized;
      }
      if BEARER <= tokenString {
        tokenString := tokenString[|BEARER|..];
      }
      var claims := Parse(env.current, tokenString, now);
      if claims.None? {
        return Unauthorized;
      }
      var expiresAt := now + DAY;
      if claims.value.exp.Some? {
        expiresAt := claims.value.exp.value;
      }
      AddTokenToBlacklist(now, tokenString, expiresAt);
      return LoggedOut;
    }
  }

  // ---------------------------------------------------------------- runs of logouts

  datatype Event = Event(at: int, header: string)

  function After(env: Env, events: seq<Event>): Blacklist {
    if events == [] then map[]
    else
      var e := events[|events| - 1];
      Logout(env, After(env, events[..|events| - 1]), e.at, e.header).0
  }

  predicate IsRun(events: seq<Event>) {
    forall i, j :: 0 <= i < j < |events| ==> events[i].at <= events[j].at
  }

  predicate Unexpired(claims: Claims, now: int) {
    claims.exp.Some? ==> now < claims.exp.value
  }

  /** The header asks to log out this token: a logout takes it with or without its scheme. */
  predicate Names(header: string, token: string) {
    header == token || header == "Bearer " + token
  }

  /** The last event is a logout of the token, which is then one of the current key and has not
      expired. */
  predicate LogsOut(env: Env, events: seq<Event>, token: string) {
    events != []
    && (var e := events[|events| - 1];
        Names(e.header, token) && token in env.current && Unexpired(env.current[token], e.at))
  }

  /** No middleware accepts the token at any later moment, whoever logs out in between, with or
      without its "Bearer ". */
  ghost predicate NeverAccepted(env: Env, events: seq<Event>, token: string)
    requires events != []
  {
    forall more: seq<Event>, now: int, guard: Guard, header: string ::
      IsRun(events + more) && (events + more)[|events + more| - 1].at <= now && Names(header, token) ==>
        !Accepts(env, After(env, events + more), now, header, guard)
  }

  lemma NamesStripped(env: Env, header: string, token: string)
    requires Sound(env) && token in env.registered
    ensures Names(header, token) <==> Strip(header) == token
  {
    if BEARER <= header {
      assert header == BEARER + header[|BEARER|..];
    }
    assert ("Bearer " + token)[|BEARER|..] == token;
  }

  /** Whatever is stored and whenever, a header is answered with a logout if and only if it is an
      unexpired token of the current key, with or without "Bearer " before it. */
  lemma LogoutIff(env: Env, s: Blacklist, now: int, header: string)
    requires Sound(env)
    ensures Logout(env, s, now, header).1.LoggedOut? <==>
            exists token :: token in env.current && Names(header, token) && Unexpired(env.current[token], now)
    ensures !Logout(env, s, now, header).1.LoggedOut? ==> Logout(env, s, now, header).0 == s
  {
    if Logout(env, s, now, header).1.LoggedOut? {
      NamesStripped(env, header, Strip(header));
    }
    forall token | token in env.current && Names(header, token) ensures Strip(header) == token {
      NamesStripped(env, header, token);
    }
  }

  lemma OtherKey(env: Env, t: string, u: string)
    requires Sound(env) && TokenKey(env, t) == TokenKey(env, u)
    ensures t == u
  {
    assert env.hash(t) == TokenKey(env, t)[|PREFIX|..] == TokenKey(env, u)[|PREFIX|..] == env.hash(u);
  }

  /** Event i logs out the token. */
  predicate LogsOutAt(env: Env, events: seq<Event>, token: string, i: int) {
    0 <= i < |events| && LogsOut(env, events[..i + 1], token)
  }

  /** The token has been logged out. */
  ghost predicate LoggedOutOnce(env: Env, events: seq<Event>, token: string) {
    exists i :: LogsOutAt(env, events, token, i)
  }

  /** How long a logout lasts: until the token expires, or 24 hours. */
  function Until(claims: Claims, at: int): int {
    match claims.exp
    case Some(exp) => exp
    case None => at + 86_400_000
  }

  /** The token has been logged out, and that lasts. */
  ghost predicate Revoked(env: Env, events: seq<Event>, token: string, now: int) {
    exists i :: LogsOutAt(env, events, token, i) && now < Until(env.current[token], events[i].at)
  }

  lemma RevokedBy(env: Env, events: seq<Event>, token: string, now: int)
    requires events != []
    ensures var past, e := events[..|events| - 1], events[|events| - 1];
            Revoked(env, events, token, now) <==>
              Revoked(env, past, token, now)
              || (LogsOut(env, events, token) && now < Until(env.current[token], e.at))
  {
    var past := events[..|events| - 1];
    assert events[..|events|] == events;
    assert forall i :: 0 <= i < |past| ==> past[i] == events[i] && past[..i + 1] == events[..i + 1];
    assert forall i :: 0 <= i < |past| ==> (LogsOutAt(env, events, token, i) <==> LogsOutAt(env, past, token, i));
    assert LogsOutAt(env, events, token, |past|) <==> LogsOut(env, events, token);
  }

  lemma {:induction false} BlacklistedIffRevoked(env: Env, events: seq<Event>, token: string, now: int)
    requires Sound(env) && env.hasRedis && IsRun(events)
    ensures Blacklisted(env, After(env, events), now, token) <==> Revoked(env, events, token, now)
  {
    if events != [] {
      var past, e := events[..|events| - 1], events[|events| - 1];
      BlacklistedIffRevoked(env, past, token, now);
      RevokedBy(env, events, token, now);
      if TokenKey(env, Strip(e.header)) == TokenKey(env, token) {
        OtherKey(env, Strip(e.header), token);
      }
      if token in env.current {
        NamesStripped(env, e.header, token);
      }
    }
  }

  /** The keys whose tokens a guard accepts: JWTMiddleware those of every registered key, the
      other two those of the current key alone. */
  predicate Trusts(env: Env, guard: Guard, header: string) {
    match guard
    case AnyRole => header in env.registered
    case AdminOnly => header in env.current
    case UserOrAdmin => header in env.current
  }

  /** The roles that a guard admits. */
  predicate Admits(guard: Guard, role: string) {
    match guard
    case AnyRole => true
    case AdminOnly => role == "admin"
    case UserOrAdmin => role == "user" || role == "admin"
  }

  /** After any run of logouts a middleware accepts a header if and only if it is a token of a key
      that it trusts, has not expired, has a role that it admits, and that very string is not
      revoked. */
  lemma AcceptedIff(env: Env, events: seq<Event>, header: string, now: int, guard: Guard)
    requires Sound(env) && IsRun(events)
    ensures Accepts(env, After(env, events), now, header, guard) <==>
            && Trusts(env, guard, header)
            && Unexpired(env.registered[header], now) && Admits(guard, env.registered[header].role)
            && !(env.hasRedis && Revoked(env, events, header, now))
  {
    if env.hasRedis {
      BlacklistedIffRevoked(env, events, header, now);
    }
  }

  lemma NeverAcceptedWhenLoggedOut(env: Env, events: seq<Event>, token: string)
    requires Sound(env) && env.hasRedis && events != [] && LoggedOutOnce(env, events, token)
    requires token in env.registered && env.registered[token].exp.Some?
    ensures NeverAccepted(env, events, token)
  {
    forall more: seq<Event>, now: int, guard: Guard, header: string |
      IsRun(events + more) && (events + more)[|events + more| - 1].at <= now && Names(header, token)
      ensures !Accepts(env, After(env, events + more), now, header, guard)
    {
      AcceptedIff(env, events + more, header, now, guard);
      if header == token && Unexpired(env.registered[token], now) {
        var i :| LogsOutAt(env, events, token, i);
        assert (events + more)[..i + 1] == events[..i + 1];
        assert LogsOutAt(env, events + more, token, i);
        assert Revoked(env, events + more, token, now);
      }
    }
  }

  /** After any run of logouts a token that has not expired is never accepted again, whoever logs
      out later, if and only if the blacklist has a Redis client, the token has an expiry, and
      that very string has been logged out. */
  lemma RevokedForGoodIff(env: Env, events: seq<Event>, token: string)
    requires Sound(env) && IsRun(events) && events != []
    requires token in env.registered && Unexpired(env.registered[token], events[|events| - 1].at)
    ensures NeverAccepted(env, events, token) <==>
            env.hasRedis && env.registered[token].exp.Some? && LoggedOutOnce(env, events, token)
  {
    var at := events[|events| - 1].at;
    if env.hasRedis && env.registered[token].exp.Some? && LoggedOutOnce(env, events, token) {
      NeverAcceptedWhenLoggedOut(env, events, token);
    } else {
      var now := if env.registered[token].exp.None? then at + DAY else at;
      AcceptedIff(env, events, token, now, AnyRole);
      assert events + [] == events && Strip(token) == token;
      assert Accepts(env, After(env, events + []), now, token, AnyRole);
    }
  }

  /** A logout revokes its token for good if and only if the blacklist has a Redis client and
      the token has an expiry. */
  lemma NeverAcceptedIff(env: Env, events: seq<Event>, token: string)
    requires Sound(env) && IsRun(events) && LogsOut(env, events, token)
    ensures NeverAccepted(env, events, token) <==> env.hasRedis && env.current[token].exp.Some?
  {
    assert events[..|events|] == events;
    assert LogsOutAt(env, events, token, |events| - 1);
    assert token in env.registered;
    RevokedForGoodIff(env, events, token);
  }

  /** The token was logged out less than 24 hours before. */
  ghost predicate RecentlyLoggedOut(env: Env, events: seq<Event>, token: string, now: int) {
    exists i :: LogsOutAt(env, events, token, i) && now < events[i].at + 86_400_000
  }

  /** A token without an expiry is accepted after any run of logouts if and only if none of them
      logged it out in the last 24 hours. */
  lemma NoExpiryAcceptedIff(env: Env, events: seq<Event>, token: string, now: int)
    requires Sound(env) && env.hasRedis && IsRun(events)
    requires token in env.current && env.current[token].exp.None?
    ensures Accepts(env, After(env, events), now, token, AnyRole) <==> !RecentlyLoggedOut(env, events, token, now)
  {
    AcceptedIff(env, events, token, now, AnyRole);
    assert token in env.registered;
  }

  /** JWTMiddleware accepts the tokens of every registered key, but only those of the current
      key can be logged out: any other is accepted until it expires, after every run of
      logouts. */
  lemma OldKeyAcceptedIff(env: Env, events: seq<Event>, token: string, now: int)
    requires Sound(env) && IsRun(events) && token in env.registered && token !in env.current
    ensures Accepts(env, After(env, events), now, token, AnyRole) <==> Unexpired(env.registered[token], now)
  {
    AcceptedIff(env, events, token, now, AnyRole);
  }

  /** A string that carries the claims of a token, such as another spelling of it, is accepted
      like the token before any logout, as long as it has not been logged out itself. */
  lemma OtherSpellingAccepted(
    env: Env, events: seq<Event>, token: string, other: string, now: int, guard: Guard)
    requires Sound(env) && IsRun(events) && token in env.current && other in env.current
    requires env.current[other] == env.current[token] && !LoggedOutOnce(env, events, other)
    ensures Accepts(env, After(env, events), now, other, guard) <==>
            Unexpired(env.current[token], now) && Admits(guard, env.current[token].role)
  {
    AcceptedIff(env, events, other, now, guard);
    assert token in env.registered && other in env.registered;
  }
}
