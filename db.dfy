/**
 * The document store behind `dbClient`: the users collection in insertion
 * order and the files collection keyed by id. The record helpers the
 * handlers call (getUserByEmail, getUserById, createUser, getFileById,
 * createFile) are modelled as lookups and inserts on these values.
 */
module Db {
  import opened Wrappers
  import opened JsValues

  /** A store-assigned document id, as a string; never empty. */
  type ObjectId = s: string | s != "" witness "0"

  /** A user document: the password field holds the SHA-1 hex digest. */
  datatype User = User(id: ObjectId, email: Json, password: string)

  datatype Kind = Folder | File | Image

  /** The `type` string stored for each kind. */
  function KindName(k: Kind): string
  {
    match k
    case Folder => "folder"
    case File => "file"
    case Image => "image"
  }

  /** The kind a `type` string names, if any: the inverse of `KindName`. */
  function KindNamed(s: string): Option<Kind>
  {
    if s == "folder" then Some(Folder)
    else if s == "file" then Some(File)
    else if s == "image" then Some(Image)
    else None
  }

  /** `KindNamed` and `KindName` are inverse to each other. */
  lemma KindNameRoundTrip(s: string, k: Kind)
    ensures KindNamed(s) == Some(k) <==> KindName(k) == s
  {
  }

  /** A file document; `localPath` is set for files and images only. */
  datatype FileRecord = FileRecord(
    userId: string,
    name: Json,
    kind: Kind,
    isPublic: Json,
    parentId: Json,
    localPath: Option<string>)

  /** The position of the first element that matches, as `findOne` returns it. */
  function FirstMatch<T>(s: seq<T>, matches: T -> bool): (r: Option<nat>)
    ensures r.None? <==> forall i :: 0 <= i < |s| ==> !matches(s[i])
    ensures r.Some? ==> r.value < |s| && matches(s[r.value])
    ensures r.Some? ==> forall j :: 0 <= j < r.value ==> !matches(s[j])
    decreases |s|
  {
    if |s| == 0 then None
    else if matches(s[0]) then Some(0)
    else
      var rest := FirstMatch(s[1..], matches);
      if rest.None? then None else Some(rest.value + 1)
  }

  function At<T>(s: seq<T>, i: Option<nat>): Option<T>
  {
    if i.Some? && i.value < |s| then Some(s[i.value]) else None
  }

  /** `getUserByEmail(email)` */
  function FindUserByEmail(users: seq<User>, email: Json): Option<User>
  {
    At(users, FirstMatch(users, (u: User) => u.email == email))
  }

  /** `getUserById(id)` */
  function FindUserById(users: seq<User>, id: string): Option<User>
  {
    At(users, FirstMatch(users, (u: User) => u.id == id))
  }

  /** The email lookup finds a user exactly when one has that email, and then the first such user. */
  lemma FindUserByEmailSpec(users: seq<User>, email: Json)
    ensures FindUserByEmail(users, email).None? <==> forall i :: 0 <= i < |users| ==> users[i].email != email
    ensures FindUserByEmail(users, email).Some? ==>
              FindUserByEmail(users, email).value in users && FindUserByEmail(users, email).value.email == email
    ensures FindUserByEmail(users, email).Some? ==>
              exists i :: 0 <= i < |users| && users[i] == FindUserByEmail(users, email).value &&
                          forall j :: 0 <= j < i ==> users[j].email != email
  {
    var r := FirstMatch(users, (u: User) => u.email == email);
    if r.None? {
      forall i | 0 <= i < |users| ensures users[i].email != email {
        assert !(((u: User) => u.email == email)(users[i]));
      }
    }
  }

  /** The id lookup finds a user exactly when one has that id, and then the first such user. */
  lemma FindUserByIdSpec(users: seq<User>, id: string)
    ensures FindUserById(users, id).None? <==> forall i :: 0 <= i < |users| ==> users[i].id != id
    ensures FindUserById(users, id).Some? ==>
              FindUserById(users, id).value in users && FindUserById(users, id).value.id == id
    ensures FindUserById(users, id).Some? ==>
              exists i :: 0 <= i < |users| && users[i] == FindUserById(users, id).value &&
                          forall j :: 0 <= j < i ==> users[j].id != id
  {
    var r := FirstMatch(users, (u: User) => u.id == id);
    if r.None? {
      forall i | 0 <= i < |users| ensures users[i].id != id {
        assert !(((u: User) => u.id == id)(users[i]));
      }
    }
  }

  /** Appending a user with a new id leaves every earlier id lookup as it was. */
  lemma {:induction false} FindUserByIdAfterAppend(users: seq<User>, u: User, id: string)
    requires FindUserById(users, u.id).None?
    ensures FindUserById(users + [u], id) == if id == u.id then Some(u) else FindUserById(users, id)
  {
    var m := (x: User) => x.id == id;
    var s := users + [u];
    FindUserByIdSpec(users, u.id);
    FindUserByIdSpec(users, id);
    var r := FirstMatch(users, m);
    var r' := FirstMatch(s, m);
    if r.Some? {
      assert s[r.value] == users[r.value];
      assert forall j :: 0 <= j < r.value ==> s[j] == users[j];
      FirstMatchUnique(s, m, r'.value, r.value);
    } else {
      assert forall i :: 0 <= i < |users| ==> !m(s[i]);
      if id == u.id {
        assert m(s[|users|]);
        FirstMatchUnique(s, m, r'.value, |users|);
      } else {
        assert forall i :: 0 <= i < |s| ==> !m(s[i]);
      }
    }
  }

  /** Two positions that are both "first match" are the same. */
  lemma FirstMatchUnique<T>(s: seq<T>, matches: T -> bool, i: nat, k: nat)
    requires FirstMatch(s, matches) == Some(i)
    requires k < |s| && matches(s[k]) && forall j :: 0 <= j < k ==> !matches(s[j])
    ensures i == k
  {
  }

  /** `getFileById(v)`: only a non-empty string can name a document; anything else is absent. */
  function FileKey(v: Json): Option<ObjectId>
  {
    match v
    case JStr(s) => if s != "" then Some(s) else None
    case _ => None
  }

  function FindFile(files: map<ObjectId, FileRecord>, v: Json): Option<FileRecord>
  {
    var key := FileKey(v);
    if key.Some? && key.value in files then Some(files[key.value]) else None
  }

  /** The connected database client. */
  class DbClient {
    var users: seq<User>
    var files: map<ObjectId, FileRecord>

    constructor ()
      ensures users == [] && files == map[]
    {
      users := [];
      files := map[];
    }

    method GetUserByEmail(email: Json) returns (u: Option<User>)
      ensures u == FindUserByEmail(users, email)
    {
      u := FindUserByEmail(users, email);
    }

    method GetUserById(id: string) returns (u: Option<User>)
      ensures u == FindUserById(users, id)
    {
      u := FindUserById(users, id);
    }

    /** `createUser(doc)`: the store assigns `newId`, an id no user has. */
    method CreateUser(email: Json, password: string, newId: ObjectId) returns (saved: User)
      requires FindUserById(users, newId).None?
      modifies this
      ensures saved == User(newId, email, password)
      ensures users == old(users) + [saved] && files == old(files)
    {
      saved := User(newId, email, password);
      users := users + [saved];
    }

    method GetFileById(v: Json) returns (f: Option<FileRecord>)
      ensures f == FindFile(files, v)
    {
      f := FindFile(files, v);
    }

    /** `createFile(doc)`: the store assigns `newId`, an id no file has. */
    method CreateFile(doc: FileRecord, newId: ObjectId) returns (id: ObjectId)
      requires newId !in files
      modifies this
      ensures id == newId
      ensures files == old(files)[newId := doc] && users == old(users)
    {
      id := newId;
      files := files[newId := doc];
    }
  }
}
