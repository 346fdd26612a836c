/**
 * The invariants the handlers keep over all four stores together, and one
 * lemma per state-changing outcome showing it is kept:
 *  - user ids and emails are unique;
 *  - every session holds the id of an existing user;
 *  - every file record has the root or an existing folder as parent, a
 *    `localPath` exactly when it is not a folder, a blob at that path, and
 *    an existing owner;
 *  - no two file records share a blob.
 */
module Consistency {
  import opened Wrappers
  import opened JsValues
  import opened Foreign
  import opened Redis
  import opened Db
  import opened Session
  import opened AuthController
  import opened UsersController
  import opened FilesController
  import opened Http
  import opened Blobs

  datatype State = State(
    sessions: map<string, Entry>,
    users: seq<User>,
    files: map<ObjectId, FileRecord>,
    blobs: map<string, seq<Byte>>)

  ghost predicate UsersOk(users: seq<User>)
  {
    forall i, j :: 0 <= i < j < |users| ==> users[i].id != users[j].id && users[i].email != users[j].email
  }

  ghost predicate SessionsOk(s: State)
  {
    forall k :: k in s.sessions ==> FindUserById(s.users, s.sessions[k].value).Some?
  }

  ghost predicate RecordOk(s: State, r: FileRecord)
  {
    && ParentOk(s.files, r.parentId)
    && (r.localPath.Some? <==> r.kind != Folder)
    && (r.localPath.Some? ==> r.localPath.value in s.blobs)
    && FindUserById(s.users, r.userId).Some?
  }

  /** No two file records share a blob. */
  ghost predicate BlobsOwned(files: map<ObjectId, FileRecord>)
  {
    forall a, b :: a in files && b in files && a != b && files[a].localPath.Some? ==>
      files[a].localPath != files[b].localPath
  }

  ghost predicate FilesOk(s: State)
  {
    (forall id :: id in s.files ==> RecordOk(s, s.files[id])) && BlobsOwned(s.files)
  }

  ghost predicate Consistent(s: State)
  {
    UsersOk(s.users) && SessionsOk(s) && FilesOk(s)
  }

  /** The empty stores are consistent. */
  lemma EmptyIsConsistent()
    ensures Consistent(State(map[], [], map[], map[]))
  {
  }

  /** A parent that was valid stays valid when a document under a new id is added. */
  lemma ParentOkAfterInsert(files: map<ObjectId, FileRecord>, newId: ObjectId, r: FileRecord, parentId: Json)
    requires newId !in files && ParentOk(files, parentId)
    ensures ParentOk(files[newId := r], parentId)
  {
    if parentId != JNum(0) {
      assert FileKey(parentId).value in files;
    }
  }

  /** A record added under a fresh id, whose blob (if any) is new, shares no blob. */
  lemma BlobsOwnedAfterInsert(s: State, newId: ObjectId, r: FileRecord)
    requires FilesOk(s) && newId !in s.files
    requires r.localPath.Some? ==> r.localPath.value !in s.blobs
    ensures BlobsOwned(s.files[newId := r])
  {
    var files := s.files[newId := r];
    forall a, b | a in files && b in files && a != b && files[a].localPath.Some?
      ensures files[a].localPath != files[b].localPath
    {
      if a == newId {
        assert RecordOk(s, s.files[b]);
      } else if b == newId {
        assert RecordOk(s, s.files[a]);
      }
    }
  }

  /** Storing the session of an accepted sign-in keeps the stores consistent. */
  lemma SignInKeepsConsistent(s: State, header: Option<string>, token: string, now: int, lib: Library)
    requires Consistent(s)
    requires CheckCredentials(s.users, header, lib).Ok?
    ensures var u := CheckCredentials(s.users, header, lib).value;
            Consistent(s.(sessions := s.sessions[SessionKey(token) := Entry(u.id, now + TokenTtl)]))
  {
    var u := CheckCredentials(s.users, header, lib).value;
    var s' := s.(sessions := s.sessions[SessionKey(token) := Entry(u.id, now + TokenTtl)]);
    FindUserByIdSpec(s.users, u.id);
    assert forall id :: id in s'.files ==> RecordOk(s', s'.files[id]) == RecordOk(s, s.files[id]);
  }

  /** Deleting a session keeps the stores consistent. */
  lemma SignOutKeepsConsistent(s: State, token: string)
    requires Consistent(s)
    ensures Consistent(s.(sessions := s.sessions - {SessionKey(token)}))
  {
    var s' := s.(sessions := s.sessions - {SessionKey(token)});
    assert forall id :: id in s'.files ==> RecordOk(s', s'.files[id]) == RecordOk(s, s.files[id]);
  }

  /**
   * Appending the user of an accepted sign-up under a new id keeps the
   * stores consistent; in particular emails stay unique.
   */
  lemma SignUpKeepsConsistent(s: State, email: Field, password: Field, newId: ObjectId, hash: string)
    requires Consistent(s)
    requires CheckNewUser(s.users, email, password).Ok?
    requires FindUserById(s.users, newId).None?
    ensures var u := User(newId, CheckNewUser(s.users, email, password).value.0, hash);
            Consistent(s.(users := s.users + [u]))
  {
    var u := User(newId, CheckNewUser(s.users, email, password).value.0, hash);
    var s' := s.(users := s.users + [u]);
    FindUserByIdSpec(s.users, newId);
    forall i, j | 0 <= i < j < |s'.users|
      ensures s'.users[i].id != s'.users[j].id && s'.users[i].email != s'.users[j].email
    {
      if j == |s.users| {
        assert s'.users[j] == u && s'.users[i] == s.users[i];
      }
    }
    forall k | k in s'.sessions ensures FindUserById(s'.users, s'.sessions[k].value).Some? {
      FindUserByIdAfterAppend(s.users, u, s.sessions[k].value);
    }
    forall id | id in s'.files ensures RecordOk(s', s'.files[id]) {
      FindUserByIdAfterAppend(s.users, u, s.files[id].userId);
    }
  }

  /** The owner of an accepted upload is an existing user. */
  lemma UploaderExists(s: State, token: Option<string>, body: UploadBody, now: int, getFailed: bool)
    requires SessionsOk(s)
    requires CheckUpload(s.sessions, s.files, token, body, now, getFailed).Ok?
    ensures FindUserById(s.users, CheckUpload(s.sessions, s.files, token, body, now, getFailed).value.userId).Some?
  {
    assert SessionKey(token.value) in s.sessions;
  }

  /** Storing the record of an accepted folder upload keeps the stores consistent. */
  lemma FolderUploadKeepsConsistent(s: State, token: Option<string>, body: UploadBody, now: int, getFailed: bool,
                                    newId: ObjectId)
    requires Consistent(s) && newId !in s.files
    requires CheckUpload(s.sessions, s.files, token, body, now, getFailed).Ok?
    requires CheckUpload(s.sessions, s.files, token, body, now, getFailed).value.kind == Folder
    ensures var u := CheckUpload(s.sessions, s.files, token, body, now, getFailed).value;
            Consistent(s.(files := s.files[newId := Record(u, None)]))
  {
    var u := CheckUpload(s.sessions, s.files, token, body, now, getFailed).value;
    var r := Record(u, None);
    var s' := s.(files := s.files[newId := r]);
    UploaderExists(s, token, body, now, getFailed);
    ParentOkAfterInsert(s.files, newId, r, u.parentId);
    forall id | id in s'.files ensures RecordOk(s', s'.files[id]) {
      if id != newId {
        ParentOkAfterInsert(s.files, newId, r, s.files[id].parentId);
      }
    }
    BlobsOwnedAfterInsert(s, newId, r);
  }

  /**
   * Storing the blob and record of an accepted file or image upload at a
   * fresh path keeps the stores consistent.
   */
  lemma FileUploadKeepsConsistent(s: State, token: Option<string>, body: UploadBody, now: int, getFailed: bool,
                                  newId: ObjectId, path: string, content: seq<Byte>)
    requires Consistent(s) && newId !in s.files
    requires CheckUpload(s.sessions, s.files, token, body, now, getFailed).Ok?
    requires CheckUpload(s.sessions, s.files, token, body, now, getFailed).value.kind != Folder
    requires path !in s.blobs
    ensures var u := CheckUpload(s.sessions, s.files, token, body, now, getFailed).value;
            Consistent(s.(files := s.files[newId := Record(u, Some(path))], blobs := s.blobs[path := content]))
  {
    var u := CheckUpload(s.sessions, s.files, token, body, now, getFailed).value;
    var r := Record(u, Some(path));
    var s' := s.(files := s.files[newId := r], blobs := s.blobs[path := content]);
    UploaderExists(s, token, body, now, getFailed);
    ParentOkAfterInsert(s.files, newId, r, u.parentId);
    forall id | id in s'.files ensures RecordOk(s', s'.files[id]) {
      if id != newId {
        ParentOkAfterInsert(s.files, newId, r, s.files[id].parentId);
      }
    }
    BlobsOwnedAfterInsert(s, newId, r);
  }

  /**
   * In consistent stores a token that authenticates always finds its user:
   * getMe's third 401 (lines 74-75) cannot happen.
   */
  lemma MeFailsOnlyForToken(s: State, token: Option<string>, now: int, getFailed: bool)
    requires SessionsOk(s)
    ensures CheckMe(s.sessions, s.users, token, now, getFailed).Err? <==>
            Authenticate(s.sessions, token, now, getFailed).Err?
  {
    if Authenticate(s.sessions, token, now, getFailed).Ok? {
      assert SessionKey(token.value) in s.sessions;
    }
  }

  /**
   * Right after an accepted sign-in, and until the TTL elapses, getMe with
   * the new token finds exactly the user who signed in.
   */
  lemma SignedInUserIsMe(s: State, header: Option<string>, token: string, now: int, t: int, lib: Library)
    requires UsersOk(s.users)
    requires CheckCredentials(s.users, header, lib).Ok?
    requires token != "" && now <= t < now + TokenTtl
    ensures var u := CheckCredentials(s.users, header, lib).value;
            CheckMe(s.sessions[SessionKey(token) := Entry(u.id, now + TokenTtl)], s.users, Some(token), t, false) == Ok(u)
  {
    var u := CheckCredentials(s.users, header, lib).value;
    StoredSessionAuthenticates(s.sessions, token, u.id, now, t);
    FindUserByIdSpec(s.users, u.id);
    var found := FindUserById(s.users, u.id).value;
    var i :| 0 <= i < |s.users| && s.users[i] == found;
    var k :| 0 <= k < |s.users| && s.users[k] == u;
    assert i == k;
  }

  /** The four stores as one value. */
  function Snapshot(redis: RedisClient, db: DbClient, disk: Disk): State
    reads redis, db, disk
  {
    State(redis.entries, db.users, db.files, disk.blobs)
  }

  /** getConnect, with a fresh token, keeps the stores consistent. */
  method ConnectKeepsConsistent(redis: RedisClient, db: DbClient, disk: Disk, header: Option<string>, token: string,
                                now: int, setFailed: bool, lib: Library) returns (resp: Response)
    requires Consistent(Snapshot(redis, db, disk))
    requires SessionKey(token) !in redis.entries
    modifies redis
    ensures Consistent(Snapshot(redis, db, disk))
  {
    ghost var s := Snapshot(redis, db, disk);
    resp := GetConnect(redis, db, header, token, now, setFailed, lib);
    if CheckCredentials(db.users, header, lib).Ok? && !setFailed {
      SignInKeepsConsistent(s, header, token, now, lib);
    }
  }

  /** getDisconnect keeps the stores consistent. */
  method DisconnectKeepsConsistent(redis: RedisClient, db: DbClient, disk: Disk, token: Option<string>,
                                   now: int, getFailed: bool, delFailed: bool) returns (resp: Response)
    requires Consistent(Snapshot(redis, db, disk))
    modifies redis
    ensures Consistent(Snapshot(redis, db, disk))
  {
    ghost var s := Snapshot(redis, db, disk);
    resp := GetDisconnect(redis, token, now, getFailed, delFailed);
    if Authenticate(s.sessions, token, now, getFailed).Ok? && !delFailed {
      SignOutKeepsConsistent(s, token.value);
    }
  }

  /** postNew, with a fresh id, keeps the stores consistent. */
  method PostNewKeepsConsistent(redis: RedisClient, db: DbClient, disk: Disk, email: Field, password: Field,
                                newId: ObjectId, lib: Library) returns (resp: Response)
    requires Consistent(Snapshot(redis, db, disk))
    requires FindUserById(db.users, newId).None?
    modifies db
    ensures Consistent(Snapshot(redis, db, disk))
  {
    ghost var s := Snapshot(redis, db, disk);
    resp := PostNew(db, email, password, newId, lib);
    ghost var c := CheckNewUser(s.users, email, password);
    if c.Ok? && HashedPassword(c.value.1, lib).Some? {
      SignUpKeepsConsistent(s, email, password, newId, HashedPassword(c.value.1, lib).value);
    }
  }

  /** postUpload, with a fresh id and UUID, keeps the stores consistent. */
  method PostUploadKeepsConsistent(redis: RedisClient, db: DbClient, disk: Disk, token: Option<string>, body: UploadBody,
                                   now: int, getFailed: bool, folderPath: string, fileUuid: string, newId: ObjectId,
                                   lib: Library) returns (resp: Response)
    requires Consistent(Snapshot(redis, db, disk))
    requires newId !in db.files && BlobPath(folderPath, fileUuid) !in disk.blobs
    modifies db, disk
    ensures Consistent(Snapshot(redis, db, disk))
  {
    ghost var s := Snapshot(redis, db, disk);
    resp := PostUpload(redis, db, disk, token, body, now, getFailed, folderPath, fileUuid, newId, lib);
    ghost var c := CheckUpload(s.sessions, s.files, token, body, now, getFailed);
    if c.Ok? && c.value.kind == Folder {
      FolderUploadKeepsConsistent(s, token, body, now, getFailed, newId);
    } else if c.Ok? && c.value.data.value.JStr? {
      FileUploadKeepsConsistent(s, token, body, now, getFailed, newId, BlobPath(folderPath, fileUuid),
                                lib.base64ToBytes(c.value.data.value.s));
    }
  }
}
