/**
 * controllers/AuthController.js: sign-in with HTTP Basic credentials
 * (getConnect) and sign-out (getDisconnect) over the session cache.
 */
module AuthController {
  import opened Wrappers
  import opened JsValues
  import opened Text
  import opened Foreign
  import opened Http
  import opened Redis
  import opened Db
  import opened Session

  datatype Credentials = Credentials(email: string, password: string)

  /**
   * `authHeader.split(' ')[1]` for a header that starts with `Basic `:
   * the longest space-free text that follows `Basic `.
   */
  function EncodedCredentials(header: string): (field: string)
    requires StartsWith(header, "Basic ")
    ensures ' ' !in field
    ensures 6 + |field| <= |header| && header[6..6 + |field|] == field
    ensures 6 + |field| == |header| || header[6 + |field|] == ' '
  {
    assert header == "Basic" + [' '] + header[6..];
    SplitAtFirst("Basic", ' ', header[6..]);
    SplitHead(header[6..], ' ');
    assert header[6..][..|Split(header[6..], ' ')[0]|] == header[6..6 + |Split(header[6..], ' ')[0]|];
    Split(header, ' ')[1]
  }

  /**
   * Lines 11-27: the header must be present and start with `Basic `; the
   * decoded credentials are split on `:` into the email (first piece) and
   * the password (second piece), and both must be non-empty.
   */
  function ParseAuthorization(header: Option<string>, base64ToText: string -> string): (r: Option<Credentials>)
    ensures r.Some? ==> header.Some? && StartsWith(header.value, "Basic ")
    ensures r.Some? ==> r.value.email != "" && r.value.password != ""
    ensures r.Some? ==> ':' !in r.value.email && ':' !in r.value.password
  {
    if !Present(header) || !StartsWith(header.value, "Basic ") then None
    else
      var pieces := Split(base64ToText(EncodedCredentials(header.value)), ':');
      var email := pieces[0];
      var password := if |pieces| >= 2 then Some(pieces[1]) else None;
      if email == "" || !Present(password) then None
      else Some(Credentials(email, password.value))
  }

  /**
   * What was accepted is the decoded text up to its first `:` as email, and
   * the text between the first and the second `:` (or the end) as password.
   */
  lemma ParsedCredentialsLayout(header: Option<string>, base64ToText: string -> string)
    requires ParseAuthorization(header, base64ToText).Some?
    ensures var c := ParseAuthorization(header, base64ToText).value;
            var text := base64ToText(EncodedCredentials(header.value));
            var n := |c.email| + 1 + |c.password|;
            && n <= |text| && text[..n] == c.email + [':'] + c.password
            && (n == |text| || text[n] == ':')
  {
    var c := ParseAuthorization(header, base64ToText).value;
    var text := base64ToText(EncodedCredentials(header.value));
    var m := |c.email|;
    SplitHead(text, ':');
    var after := text[m + 1..];
    SplitHead(after, ':');
    var n := m + 1 + |c.password|;
    assert text[..n] == text[..m] + [text[m]] + after[..|c.password|];
    if n < |text| {
      assert text[n] == after[|c.password|];
    }
  }

  /**
   * Conversely, decoded text of the form `email:password` or
   * `email:password:...`, with both parts non-empty and free of `:`, is
   * accepted as exactly those credentials.
   */
  lemma CredentialsAccepted(header: string, base64ToText: string -> string, email: string, password: string, rest: string)
    requires StartsWith(header, "Basic ")
    requires base64ToText(EncodedCredentials(header)) == email + [':'] + password + rest
    requires email != "" && password != "" && ':' !in email && ':' !in password
    requires rest == [] || rest[0] == ':'
    ensures ParseAuthorization(Some(header), base64ToText) == Some(Credentials(email, password))
  {
    var text := base64ToText(EncodedCredentials(header));
    assert text == email + [':'] + (password + rest);
    SplitAtFirst(email, ':', password + rest);
    if rest == [] {
      assert password + rest == password;
      SplitWithoutSeparator(password, ':');
    } else {
      assert password + rest == password + [':'] + rest[1..];
      SplitAtFirst(password, ':', rest[1..]);
    }
  }

  /**
   * Lines 11-39: parse the header, then the user with that email must
   * exist and hold the SHA-1 digest of the password; any failure is 401.
   */
  function CheckCredentials(users: seq<User>, header: Option<string>, lib: Library): (r: Result<User, Response>)
    ensures r.Err? ==> r.error == Unauthorized
    ensures r.Ok? ==>
              && ParseAuthorization(header, lib.base64ToText).Some?
              && r.value in users
              && r.value.email == JStr(ParseAuthorization(header, lib.base64ToText).value.email)
              && r.value.password == lib.sha1Hex(ParseAuthorization(header, lib.base64ToText).value.password)
    ensures var p := ParseAuthorization(header, lib.base64ToText);
            p.Some? && FindUserByEmail(users, JStr(p.value.email)).Some? &&
            FindUserByEmail(users, JStr(p.value.email)).value.password == lib.sha1Hex(p.value.password)
            ==> r == Ok(FindUserByEmail(users, JStr(p.value.email)).value)
  {
    match ParseAuthorization(header, lib.base64ToText)
    case None => Err(Unauthorized)
    case Some(c) =>
      var hashed := lib.sha1Hex(c.password);
      var user := FindUserByEmail(users, JStr(c.email));
      FindUserByEmailSpec(users, JStr(c.email));
      if user.None? || user.value.password != hashed then Err(Unauthorized) else Ok(user.value)
  }

  /**
   * When emails are unique, the user registered under the parsed email is
   * signed in exactly when its stored digest is that of the password.
   */
  lemma {:induction false} SignInDecidedByDigest(users: seq<User>, header: Option<string>, lib: Library, u: User)
    requires forall i, j :: 0 <= i < j < |users| ==> users[i].email != users[j].email
    requires u in users
    requires ParseAuthorization(header, lib.base64ToText).Some?
    requires u.email == JStr(ParseAuthorization(header, lib.base64ToText).value.email)
    ensures CheckCredentials(users, header, lib) ==
            if u.password == lib.sha1Hex(ParseAuthorization(header, lib.base64ToText).value.password)
            then Ok(u) else Err(Unauthorized)
  {
    var found := FindUserByEmail(users, u.email);
    FindUserByEmailSpec(users, u.email);
    var k :| 0 <= k < |users| && users[k] == u;
    var i :| 0 <= i < |users| && users[i] == found.value;
    assert i == k;
  }

  /** Sign-in fails for an email no user has. */
  lemma UnknownEmailRejected(users: seq<User>, header: Option<string>, lib: Library)
    requires ParseAuthorization(header, lib.base64ToText).Some?
    requires forall i :: 0 <= i < |users| ==> users[i].email != JStr(ParseAuthorization(header, lib.base64ToText).value.email)
    ensures CheckCredentials(users, header, lib) == Err(Unauthorized)
  {
  }

  /**
   * Only the text between the first and the second `:` is hashed, so a user
   * whose stored digest is that of a password containing `:` cannot sign in
   * with that password (unless the two digests collide).
   */
  lemma ColonPasswordRejected(users: seq<User>, header: string, lib: Library, u: User,
                              email: string, p: string, q: string)
    requires forall i, j :: 0 <= i < j < |users| ==> users[i].email != users[j].email
    requires u in users && u.email == JStr(email)
    requires StartsWith(header, "Basic ")
    requires lib.base64ToText(EncodedCredentials(header)) == email + [':'] + p + [':'] + q
    requires email != "" && p != "" && ':' !in email && ':' !in p
    requires u.password == lib.sha1Hex(p + [':'] + q) && lib.sha1Hex(p + [':'] + q) != lib.sha1Hex(p)
    ensures CheckCredentials(users, Some(header), lib) == Err(Unauthorized)
  {
    assert email + [':'] + p + [':'] + q == email + [':'] + p + ([':'] + q);
    CredentialsAccepted(header, lib.base64ToText, email, p, [':'] + q);
    SignInDecidedByDigest(users, Some(header), lib, u);
  }

  /**
   * getConnect: on accepted credentials a session `auth_<token>` with the
   * user's id and a 24-hour TTL is stored and the token returned; otherwise
   * 401 and the cache is untouched. A failing `set` is swallowed. The
   * token is a fresh UUID: no session is stored under it yet.
   */
  method GetConnect(redis: RedisClient, db: DbClient, header: Option<string>, token: string,
                    now: int, setFailed: bool, lib: Library) returns (resp: Response)
    requires SessionKey(token) !in redis.entries
    modifies redis
    ensures var c := CheckCredentials(db.users, header, lib);
            && (c.Err? ==> resp == Unauthorized && redis.entries == old(redis.entries))
            && (c.Ok? ==> resp == Response(200, Token(token)))
            && (c.Ok? ==> redis.entries == if setFailed then old(redis.entries)
                                           else old(redis.entries)[SessionKey(token) := Entry(c.value.id, now + TokenTtl)])
  {
    var credentials := ParseAuthorization(header, lib.base64ToText);
    if credentials.None? {
      return Unauthorized;
    }
    var hashedPassword := lib.sha1Hex(credentials.value.password);
    var user := db.GetUserByEmail(JStr(credentials.value.email));
    if user.None? || user.value.password != hashedPassword {
      return Unauthorized;
    }
    redis.Set(SessionKey(token), user.value.id, TokenTtl, now, setFailed);
    return Response(200, Token(token));
  }

  /**
   * getDisconnect: a token that authenticates has its session deleted and
   * the reply is 204; otherwise 401 and the cache is untouched. A failing
   * `del` is swallowed.
   */
  method GetDisconnect(redis: RedisClient, token: Option<string>, now: int, getFailed: bool, delFailed: bool)
    returns (resp: Response)
    modifies redis
    ensures var a := Authenticate(old(redis.entries), token, now, getFailed);
            && (a.Err? ==> resp == Unauthorized && redis.entries == old(redis.entries))
            && (a.Ok? ==> resp == Response(204, NoContent))
            && (a.Ok? ==> redis.entries == if delFailed then old(redis.entries)
                                           else old(redis.entries) - {SessionKey(token.value)})
  {
    if !Present(token) {
      return Unauthorized;
    }
    var userId := redis.Get(SessionKey(token.value), now, getFailed);
    if !Present(userId) {
      return Unauthorized;
    }
    redis.Del(SessionKey(token.value), delFailed);
    return Response(204, NoContent);
  }
}
