/**
 * controllers/UsersController.js: sign-up (postNew) and the signed-in
 * user's profile (getMe).
 */
module UsersController {
  import opened Wrappers
  import opened JsValues
  import opened Guards
  import opened Foreign
  import opened Http
  import opened Redis
  import opened Db
  import opened Session

  /**
   * Lines 17-29: a missing email, then a missing password, then an email
   * some user already has, each stop sign-up with a 400. On success the
   * email is new to the table.
   */
  function CheckNewUser(users: seq<User>, email: Field, password: Field): (r: Result<(Json, Json), Response>)
    ensures r.Ok? ==> Truthy(email) && Truthy(password) && r.value == (email.value, password.value)
    ensures r.Ok? ==> forall i :: 0 <= i < |users| ==> users[i].email != r.value.0
    ensures r.Err? ==> r.error.status == 400
  {
    if !Truthy(email) then Err(BadRequest("Missing email"))
    else if !Truthy(password) then Err(BadRequest("Missing password"))
    else if FindUserByEmail(users, email.value).Some? then Err(BadRequest("Already exist"))
    else
      FindUserByEmailSpec(users, email.value);
      Ok((email.value, password.value))
  }

  /** The sign-up checks, in the order the handler makes them. */
  function NewUserGuards(users: seq<User>, email: Field, password: Field): seq<Guard<Response>>
  {
    [ Guard(Truthy(email), BadRequest("Missing email")),
      Guard(Truthy(password), BadRequest("Missing password")),
      Guard(email.Some? ==> FindUserByEmail(users, email.value).None?, BadRequest("Already exist")) ]
  }

  /** Sign-up is rejected exactly by the first of its checks that fails. */
  lemma NewUserChecksInOrder(users: seq<User>, email: Field, password: Field)
    ensures CheckNewUser(users, email, password).Err? <==> FirstFailure(NewUserGuards(users, email, password)).Some?
    ensures CheckNewUser(users, email, password).Err? ==>
              FirstFailure(NewUserGuards(users, email, password)) == Some(CheckNewUser(users, email, password).error)
  {
    var gs := NewUserGuards(users, email, password);
    NoFailure(gs);
    if !gs[0].holds {
      FirstFailureAt(gs, 0);
    } else if !gs[1].holds {
      FirstFailureAt(gs, 1);
    } else if !gs[2].holds {
      FirstFailureAt(gs, 2);
    }
  }

  /** The digest stored for a password field; `update` throws on anything but a string. */
  function HashedPassword(password: Json, lib: Library): (r: Option<string>)
    ensures r.None? <==> !password.JStr?
    ensures r.Some? ==> r.value == lib.sha1Hex(password.s)
  {
    if password.JStr? then Some(lib.sha1Hex(password.s)) else None
  }

  /**
   * postNew: after the checks pass, exactly one user `{email, sha1(password)}`
   * is appended under the id the store assigns and `{id, email}` is
   * returned; a rejected request leaves the table untouched.
   */
  method PostNew(db: DbClient, email: Field, password: Field, newId: ObjectId, lib: Library) returns (resp: Response)
    requires FindUserById(db.users, newId).None?
    modifies db
    ensures db.files == old(db.files)
    ensures var c := CheckNewUser(old(db.users), email, password);
            && (c.Err? ==> resp == c.error && db.users == old(db.users))
            && (c.Ok? && HashedPassword(c.value.1, lib).None? ==>
                  resp == InternalServerError && db.users == old(db.users))
            && (c.Ok? && HashedPassword(c.value.1, lib).Some? ==>
                  && resp == Response(201, UserView(newId, c.value.0))
                  && db.users == old(db.users) + [User(newId, c.value.0, HashedPassword(c.value.1, lib).value)])
  {
    if !Truthy(email) {
      return BadRequest("Missing email");
    }
    if !Truthy(password) {
      return BadRequest("Missing password");
    }
    var existingUser := db.GetUserByEmail(email.value);
    if existingUser.Some? {
      return BadRequest("Already exist");
    }
    var hashedPassword := HashedPassword(password.value, lib);
    if hashedPassword.None? {
      return InternalServerError;
    }
    var savedUser := db.CreateUser(email.value, hashedPassword.value, newId);
    return Response(201, UserView(savedUser.id, savedUser.email));
  }

  /**
   * Lines 61-76: the token must authenticate and the user id it resolves
   * to must belong to a user; each failure is 401.
   */
  function CheckMe(entries: map<string, Entry>, users: seq<User>, token: Option<string>, now: int, getFailed: bool): (r: Result<User, Response>)
    ensures r.Err? ==> r.error == Unauthorized
    ensures r.Ok? ==> r.value in users && Authenticate(entries, token, now, getFailed) == Ok(r.value.id)
    ensures Authenticate(entries, token, now, getFailed).Err? ==> r.Err?
    ensures var a := Authenticate(entries, token, now, getFailed);
            a.Ok? && FindUserById(users, a.value).Some? ==> r == Ok(FindUserById(users, a.value).value)
  {
    match Authenticate(entries, token, now, getFailed)
    case Err(e) => Err(e)
    case Ok(userId) =>
      var user := FindUserById(users, userId);
      FindUserByIdSpec(users, userId);
      if user.None? then Err(Unauthorized) else Ok(user.value)
  }

  /** getMe: the signed-in user's `{id, email}`, or 401. */
  method GetMe(redis: RedisClient, db: DbClient, token: Option<string>, now: int, getFailed: bool) returns (resp: Response)
    ensures CheckMe(redis.entries, db.users, token, now, getFailed).Err? ==> resp == Unauthorized
    ensures CheckMe(redis.entries, db.users, token, now, getFailed).Ok? ==>
              var u := CheckMe(redis.entries, db.users, token, now, getFailed).value;
              resp == Response(200, UserView(u.id, u.email))
  {
    if !Present(token) {
      return Unauthorized;
    }
    var userId := redis.Get(SessionKey(token.value), now, getFailed);
    if !Present(userId) {
      return Unauthorized;
    }
    var user := db.GetUserById(userId.value);
    if user.None? {
      return Unauthorized;
    }
    return Response(200, UserView(user.value.id, user.value.email));
  }
}
