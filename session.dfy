/**
 * Sessions as the handlers use the cache: a token `t` is live while the
 * key `auth_<t>` holds a user id. The token check that opens every
 * token-authenticated handler is defined here once.
 */
module Session {
  import opened Wrappers
  import opened JsValues
  import opened Http
  import opened Redis

  /** Sign-in stores sessions for 24 hours. */
  const TokenTtl: nat := 86400

  /** `auth_${token}` */
  function SessionKey(token: string): (key: string)
    ensures |key| == 5 + |token| && key[..5] == "auth_" && key[5..] == token
  {
    "auth_" + token
  }

  /** Different tokens have different keys. */
  lemma SessionKeyInjective(a: string, b: string)
    requires SessionKey(a) == SessionKey(b)
    ensures a == b
  {
    assert a == SessionKey(a)[5..];
    assert b == SessionKey(b)[5..];
  }

  /**
   * `x-token` must be present and non-empty, then `get('auth_<token>')`
   * must give a non-empty user id; otherwise the reply is 401. A failing
   * `get` reads as null.
   */
  function Authenticate(entries: map<string, Entry>, token: Option<string>, now: int, getFailed: bool): (r: Result<string, Response>)
    ensures r.Err? ==> r.error == Unauthorized
    ensures r.Ok? <==> Present(token) && !getFailed && Present(Lookup(entries, SessionKey(token.value), now))
    ensures r.Ok? ==> r.value == entries[SessionKey(token.value)].value && r.value != ""
  {
    if !Present(token) then Err(Unauthorized)
    else
      var userId := if getFailed then None else Lookup(entries, SessionKey(token.value), now);
      if !Present(userId) then Err(Unauthorized) else Ok(userId.value)
  }

  /** A session stored at `now` authenticates its token until the TTL has elapsed. */
  lemma StoredSessionAuthenticates(entries: map<string, Entry>, token: string, userId: string, now: int, t: int)
    requires token != "" && userId != ""
    requires now <= t < now + TokenTtl
    ensures Authenticate(entries[SessionKey(token) := Entry(userId, now + TokenTtl)], Some(token), t, false) == Ok(userId)
  {
    StoredIsReadable(entries, SessionKey(token), userId, now, TokenTtl, t);
  }

  /** From the moment the TTL has elapsed the token no longer authenticates. */
  lemma StoredSessionExpires(entries: map<string, Entry>, token: string, userId: string, now: int, t: int, getFailed: bool)
    requires t >= now + TokenTtl
    ensures Authenticate(entries[SessionKey(token) := Entry(userId, now + TokenTtl)], Some(token), t, getFailed) == Err(Unauthorized)
  {
    StoredExpires(entries, SessionKey(token), userId, now, TokenTtl, t);
  }

  /** A deleted session never authenticates again. */
  lemma RevokedSessionFails(entries: map<string, Entry>, token: string, t: int, getFailed: bool)
    ensures Authenticate(entries - {SessionKey(token)}, Some(token), t, getFailed) == Err(Unauthorized)
  {
  }

  /** Storing or deleting the session of one token leaves every other token as it was. */
  lemma OtherTokensUnaffected(entries: map<string, Entry>, token: string, e: Entry, other: Option<string>, t: int, getFailed: bool)
    requires other != Some(token)
    ensures Authenticate(entries[SessionKey(token) := e], other, t, getFailed) == Authenticate(entries, other, t, getFailed)
    ensures Authenticate(entries - {SessionKey(token)}, other, t, getFailed) == Authenticate(entries, other, t, getFailed)
  {
    if other.Some? {
      OtherKeysUnchanged(entries, SessionKey(token), e, SessionKey(other.value), t);
    }
  }
}
