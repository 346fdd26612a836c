/**
 * Clients of the handlers, on fresh stores: what a caller can conclude
 * from the handlers' contracts alone.
 */
module Scenario {
  import opened Wrappers
  import opened JsValues
  import opened Foreign
  import opened Http
  import opened Redis
  import opened Db
  import opened Blobs
  import opened Session
  import opened AuthController
  import opened UsersController
  import opened FilesController

  /** A `Basic` header whose encoded part has no space carries exactly that part. */
  lemma BasicHeaderField(encoded: string)
    requires ' ' !in encoded
    ensures EncodedCredentials("Basic " + encoded) == encoded
  {
    var header := "Basic " + encoded;
    var field := EncodedCredentials(header);
    assert header[6..] == encoded;
  }

  /** The user of the scenarios, as sign-up stores it. */
  function Bob(lib: Library): User
  {
    User("u1", JStr("bob@dylan.com"), lib.sha1Hex("toto1234!"))
  }

  /** Bob's `Basic` header signs Bob in. */
  lemma BobSignsIn(lib: Library, encoded: string)
    requires ' ' !in encoded && lib.base64ToText(encoded) == "bob@dylan.com:toto1234!"
    ensures CheckCredentials([Bob(lib)], Some("Basic " + encoded), lib) == Ok(Bob(lib))
  {
    BasicHeaderField(encoded);
    CredentialsAccepted("Basic " + encoded, lib.base64ToText, "bob@dylan.com", "toto1234!", "");
    SignInDecidedByDigest([Bob(lib)], Some("Basic " + encoded), lib, Bob(lib));
  }

  /** Signing Bob up in an empty table answers 201 with his id and email and stores exactly Bob. */
  method SignUpBob(db: DbClient, lib: Library) returns (signUp: Response)
    requires db.users == []
    modifies db
    ensures signUp == Response(201, UserView("u1", JStr("bob@dylan.com")))
    ensures db.users == [Bob(lib)] && db.files == old(db.files)
  {
    signUp := PostNew(db, Some(JStr("bob@dylan.com")), Some(JStr("toto1234!")), "u1", lib);
  }

  /** A root folder upload by the holder of a live token is accepted with the defaults. */
  lemma DocsAccepted(entries: map<string, Entry>, files: map<ObjectId, FileRecord>, now: int)
    requires Authenticate(entries, Some("tok"), now, false) == Ok("u1")
    ensures CheckUpload(entries, files, Some("tok"), UploadBody(Some(JStr("docs")), Some(JStr("folder")), None, None, None), now, false)
            == Ok(Upload("u1", JStr("docs"), Folder, JNum(0), JBool(false), None))
  {
  }

  /** A file upload into an existing folder is accepted with that folder as parent. */
  lemma TextAccepted(entries: map<string, Entry>, files: map<ObjectId, FileRecord>, now: int, payload: string)
    requires Authenticate(entries, Some("tok"), now, false) == Ok("u1")
    requires "f1" in files && files["f1"].kind == Folder && payload != ""
    ensures CheckUpload(entries, files, Some("tok"),
                        UploadBody(Some(JStr("a.txt")), Some(JStr("file")), Some(JStr("f1")), None, Some(JStr(payload))), now, false)
            == Ok(Upload("u1", JStr("a.txt"), File, JStr("f1"), JBool(false), Some(JStr(payload))))
  {
    assert FindFile(files, JStr("f1")) == Some(files["f1"]);
  }

  /** Bob signs in at time 0 and receives the session `tok`. */
  method SignInBob(redis: RedisClient, db: DbClient, lib: Library, encoded: string) returns (signIn: Response)
    requires ' ' !in encoded && lib.base64ToText(encoded) == "bob@dylan.com:toto1234!"
    requires redis.entries == map[] && db.users == [Bob(lib)]
    modifies redis
    ensures signIn == Response(200, Token("tok"))
    ensures redis.entries == map[SessionKey("tok") := Entry("u1", TokenTtl)]
  {
    BobSignsIn(lib, encoded);
    signIn := GetConnect(redis, db, Some("Basic " + encoded), "tok", 0, false, lib);
  }

  /** With Bob's session live, a folder `docs` at the root and a file `a.txt` inside it. */
  method UploadDocsAndText(redis: RedisClient, db: DbClient, disk: Disk, lib: Library, payload: string)
    returns (folder: Response, file: Response, stored: seq<Byte>)
    requires redis.entries == map[SessionKey("tok") := Entry("u1", TokenTtl)]
    requires db.files == map[] && disk.blobs == map[] && payload != ""
    modifies db, disk
    ensures folder == Response(201, FileView("f1", "u1", JStr("docs"), "folder", JBool(false), JNum(0), None))
    ensures file == Response(201, FileView("f2", "u1", JStr("a.txt"), "file", JBool(false), JStr("f1"),
                                           Some("/tmp/files_manager/uuid1")))
    ensures stored == lib.base64ToBytes(payload)
  {
    var docs := UploadBody(Some(JStr("docs")), Some(JStr("folder")), None, None, None);
    StoredSessionAuthenticates(map[], "tok", "u1", 0, 2);
    DocsAccepted(redis.entries, db.files, 2);
    folder := PostUpload(redis, db, disk, Some("tok"), docs, 2, false, FolderPath(None), "uuid0", "f1", lib);
    var text := UploadBody(Some(JStr("a.txt")), Some(JStr("file")), Some(JStr("f1")), None, Some(JStr(payload)));
    StoredSessionAuthenticates(map[], "tok", "u1", 0, 3);
    TextAccepted(redis.entries, db.files, 3, payload);
    assert BlobPath(FolderPath(None), "uuid1") == "/tmp/files_manager/uuid1";
    file := PostUpload(redis, db, disk, Some("tok"), text, 3, false, FolderPath(None), "uuid1", "f2", lib);
    stored := disk.blobs[BlobPath(FolderPath(None), "uuid1")];
  }

  /**
   * Sign up, sign in, read the profile, upload a folder at the root, upload
   * a file into it, sign out, read the profile again.
   */
  method SignInUploadSignOut(lib: Library, encoded: string, payload: string)
    returns (signUp: Response, signIn: Response, me: Response, folder: Response, file: Response, stored: seq<Byte>,
             signOut: Response, afterSignOut: Response)
    requires ' ' !in encoded && lib.base64ToText(encoded) == "bob@dylan.com:toto1234!"
    requires payload != ""
    ensures signUp == Response(201, UserView("u1", JStr("bob@dylan.com")))
    ensures signIn == Response(200, Token("tok"))
    ensures me == Response(200, UserView("u1", JStr("bob@dylan.com")))
    ensures folder == Response(201, FileView("f1", "u1", JStr("docs"), "folder", JBool(false), JNum(0), None))
    ensures file == Response(201, FileView("f2", "u1", JStr("a.txt"), "file", JBool(false), JStr("f1"),
                                           Some("/tmp/files_manager/uuid1")))
    ensures stored == lib.base64ToBytes(payload)
    ensures signOut == Response(204, NoContent)
    ensures afterSignOut == Unauthorized
  {
    var redis := new RedisClient();
    var db := new DbClient();
    var disk := new Disk();
    signUp := SignUpBob(db, lib);
    signIn := SignInBob(redis, db, lib, encoded);
    StoredSessionAuthenticates(map[], "tok", "u1", 0, 1);
    me := GetMe(redis, db, Some("tok"), 1, false);
    folder, file, stored := UploadDocsAndText(redis, db, disk, lib, payload);
    StoredSessionAuthenticates(map[], "tok", "u1", 0, 4);
    signOut := GetDisconnect(redis, Some("tok"), 4, false, false);
    afterSignOut := GetMe(redis, db, Some("tok"), 5, false);
  }

  /**
   * The cache wrapper swallows a failing `set`: sign-in still answers 200
   * with a token, and that token never authenticates.
   */
  method SignInWithFailingCache(lib: Library, encoded: string)
    returns (signIn: Response, me: Response)
    requires ' ' !in encoded && lib.base64ToText(encoded) == "bob@dylan.com:toto1234!"
    ensures signIn == Response(200, Token("tok"))
    ensures me == Unauthorized
  {
    var redis := new RedisClient();
    var db := new DbClient();
    var signUp := SignUpBob(db, lib);
    BobSignsIn(lib, encoded);
    signIn := GetConnect(redis, db, Some("Basic " + encoded), "tok", 0, true, lib);
    me := GetMe(redis, db, Some("tok"), 1, false);
  }
}
