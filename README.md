# files_manager request handlers in Dafny

This project models the core of a small file-hosting REST API written for
Node.js with Express. It keeps users in MongoDB, sessions in Redis and file
contents on local disk. The model covers five request handlers:

- **sign-up**: `UsersController.postNew`;
- **who am I**: `UsersController.getMe`;
- **sign-in with HTTP Basic credentials**: `AuthController.getConnect`;
- **sign-out**: `AuthController.getDisconnect`;
- **file or folder upload**: `FilesController.postUpload`.

It also covers the `get`/`set`/`del` wrapper of the Redis client they use.

## Structure

- **The three stores are classes whose fields the handlers change:**
  - `Redis.RedisClient`: a map from key to value and absolute expiry time;
  - `Db.DbClient`: users in insertion order, and files by id;
  - `Blobs.Disk`: a map from path to bytes.
- **Each handler has two parts:**
  - A pure guard-chain function. It returns `Ok` with what was validated, or `Err` with the HTTP response. The functions are `AuthController.CheckCredentials`, `UsersController.CheckNewUser`, `UsersController.CheckMe` and `FilesController.CheckUpload`, with `Session.Authenticate` shared by the token-protected handlers.
  - A method that does what the JavaScript handler does, step by step. Its postcondition ties the response and the exact new state of every store to that function.
- **Guard order.** `UsersController.CheckNewUser` and `FilesController.CheckUpload` answer different errors for different guards. Each is tied by a lemma (`NewUserChecksInOrder`, `UploadChecksInOrder`) to an ordered list of `Guards.Guard`s. The lemma shows the function reports the *first* guard that fails, with that guard's response, in source order. It also shows the function succeeds exactly when every guard holds. Every failure of `AuthController.CheckCredentials`, `UsersController.CheckMe` and `Session.Authenticate` is the same 401, so their order cannot be observed. Their contracts state instead when they succeed, in both directions.
- **Store invariant.** `Consistency` states the invariant the handlers keep across all stores:
  - user ids and emails are unique;
  - every session names an existing user;
  - every file record has the root or an existing folder as parent, an existing owner, and a stored blob exactly when it is not a folder;
  - no two file records share a blob.

  There is one lemma for each way a handler changes state. There is also one method per state-changing handler: it calls the handler and proves the invariant holds afterwards.
- **Walk-through.** `Scenario` walks through a client session: sign up, sign in, who am I, upload a folder, upload a text file into it, and sign out. It proves every response and the stored bytes.

**Environment.**
- **Parameters:**
  - the current time (`now`, in seconds);
  - whether a Redis call fails;
  - the token and file UUIDs;
  - the database-assigned ids;
  - the folder path.
- **Abstract functions** in `Foreign.Library`: SHA-1 (hex), base64 decoding to UTF-8 text, and base64 decoding to bytes.
- **Cache expiry.** A cache entry is live while `now` is before its expiry time.

**Request values** are modelled with JavaScript truthiness:
- a body field is `None` when it is `undefined`, and otherwise a `Json` value;
- a header is `None` when it is not sent.

**DB helpers.** `utils/db.js` does not define the helpers the controllers call: `getUserByEmail`, `getUserById`, `createUser`, `getFileById` and `createFile`. `Db.DbClient` models them from their call sites:
- a lookup returns the first matching document;
- `getFileById` finds nothing for a malformed id;
- `createUser` adds one user under a fresh id and returns the saved document, whose `_id` and `email` the reply uses;
- `createFile` adds one file record under a fresh id and returns that id.

**Behaviour of the code that the model keeps as written, though a client may not expect it:**
- **`localPath` is exposed.** A file's location on the server's disk is internal to the server, yet the file/image branch of `postUpload` (`controllers/FilesController.js:92-106`) returns the stored document, `localPath` included. `FilesController.View` includes it.
- **Cache errors are swallowed.** The handlers answer 500 for failures they catch. The Redis wrapper instead turns a failing `get` into `null` and makes a failing `set`/`del` a no-op (`utils/redis.js:50-75`). As a result:
  - a sign-in whose `set` fails still answers 200, with a token that never authenticates (`Scenario.SignInWithFailingCache`);
  - a sign-out whose `del` fails still answers 204, and the session stays.
- **Only two errors answer 500.** The catch-all 500 paths are modelled only where the code throws for a reason visible in it:
  - a number or boolean `data` in `Buffer.from`: a 500 with nothing stored (object and array `data` are modelled the same way; see `FilesController.PostUpload` under "## Left out");
  - a non-string password in the SHA-1 update of `postNew`: a 500 with no user created.
- **Colons in passwords.** `getConnect` keeps only the text between the first and second `:` as the password (`controllers/AuthController.js:22`). A user who signed up with a password containing `:` can therefore never sign in with it (`AuthController.ColonPasswordRejected`). The model keeps this behaviour.

## Model

| member | source | states |
|---|---|---|
| Redis.RedisClient.Get | utils/redis.js:50-57 | yields the live value stored under the key; yields null when the key is missing, expired, or the call fails |
| Redis.RedisClient.Set | utils/redis.js:60-66 | stores the value under the key, expiring `duration` seconds from now; a failing call, or a zero duration (Redis refuses `EX 0` and the error is swallowed), changes nothing |
| Redis.RedisClient.Del | utils/redis.js:69-75 | removes the key and nothing else; a failing call changes nothing |
| Redis.StoredIsReadable | utils/redis.js:60-66 | a value set with a TTL can be read back until the TTL elapses |
| Redis.StoredExpires | utils/redis.js:60-66 | once the TTL has elapsed, the key reads as missing |
| Redis.OtherKeysUnchanged | utils/redis.js:60-75 | setting or deleting one key leaves every other key's lookup unchanged |
| Db.FirstMatch | controllers/UsersController.js:26 | a find-one lookup: none exactly when no document matches; otherwise the first matching position |
| Db.FindUserByEmailSpec | controllers/AuthController.js:36 | `getUserByEmail` finds nothing iff no user has that email; otherwise it finds the first user that does |
| Db.FindUserByIdSpec | controllers/UsersController.js:73 | `getUserById` finds nothing iff no user has that id; otherwise it finds the first user that does |
| Db.FindUserByIdAfterAppend | controllers/UsersController.js:44 | after inserting a user under a fresh id, the new id finds the new user and every other id finds what it found before |
| Db.FirstMatchUnique | controllers/UsersController.js:26 | the first match is unique: any match with no earlier match is that position |
| Db.KindNameRoundTrip | controllers/FilesController.js:40-41 | a type string is accepted as a kind exactly when it is that kind's name (`folder`, `file`, `image`) |
| Db.DbClient.GetUserByEmail | controllers/AuthController.js:36 | returns the first user with the given email, or none |
| Db.DbClient.GetUserById | controllers/UsersController.js:73 | returns the first user with the given id, or none |
| Db.DbClient.CreateUser | controllers/UsersController.js:44 | appends exactly one user (new id, the email, the stored password) and leaves files alone |
| Db.DbClient.GetFileById | controllers/FilesController.js:53 | returns the file stored under a well-formed id, or none |
| Db.DbClient.CreateFile | controllers/FilesController.js:74 | adds exactly one file record under a fresh id, returns that id, and leaves users alone |
| Blobs.Disk.WriteFile | controllers/FilesController.js:88-89 | the file at the path holds exactly the given bytes; no other file changes |
| Text.Split | controllers/AuthController.js:17 | `String.split` on one character: at least one piece, and no piece contains the separator |
| Text.JoinSplit | controllers/AuthController.js:22 | joining the pieces of a split with the separator gives the original text back |
| Text.SplitJoin | controllers/AuthController.js:22 | splitting a join of separator-free pieces gives the same pieces back |
| Text.SplitHead | controllers/AuthController.js:17-22 | the first piece is the longest separator-free prefix; the other pieces are the split of what follows it |
| Text.SplitWithoutSeparator | controllers/AuthController.js:22 | text without the separator splits into itself alone |
| Text.SplitAtFirst | controllers/AuthController.js:22 | splitting `p + sep + rest`, with p free of the separator, gives p followed by the pieces of rest |
| Guards.FirstFailureAt | controllers/FilesController.js:14-62 | if guard i fails and all before it hold, the chain answers with guard i's response |
| Guards.NoFailure | controllers/FilesController.js:14-62 | the chain finds no failure exactly when every guard holds |
| Session.SessionKeyInjective | controllers/AuthController.js:45 | distinct tokens have distinct `auth_<token>` keys |
| Session.Authenticate | controllers/UsersController.js:61-70 | a token authenticates iff it is sent and non-empty, the cache read succeeds, and `auth_<token>` holds a live non-empty user id; the result is that id; otherwise 401 Unauthorized |
| Session.StoredSessionAuthenticates | controllers/AuthController.js:42-45 | a session stored at sign-in authenticates its token as that user for the next 86400 seconds |
| Session.StoredSessionExpires | controllers/AuthController.js:45 | after 86400 seconds the session no longer authenticates |
| Session.RevokedSessionFails | controllers/AuthController.js:71 | after sign-out deletes the session, the token no longer authenticates |
| Session.OtherTokensUnaffected | controllers/AuthController.js:45-71 | storing or deleting one token's session leaves how every other token authenticates unchanged |
| AuthController.EncodedCredentials | controllers/AuthController.js:17 | the field after `Basic ` is the longest space-free text after the prefix, followed by the end or a space |
| AuthController.ParseAuthorization | controllers/AuthController.js:11-27 | credentials are found only in a header that starts with `Basic `; email and password are non-empty and contain no `:` |
| AuthController.ParsedCredentialsLayout | controllers/AuthController.js:17-27 | accepted credentials are the decoded text up to the first `:` (email) and from there to the second `:` or the end (password) |
| AuthController.CredentialsAccepted | controllers/AuthController.js:17-27 | conversely, decoded text `email:password` or `email:password:...` with non-empty, colon-free parts yields exactly those credentials |
| AuthController.CheckCredentials | controllers/AuthController.js:11-39 | sign-in succeeds only for a stored user whose email is the parsed email and whose stored password is the SHA-1 of the parsed password; conversely, when the first user with the parsed email holds that digest, sign-in yields that user; every failure is 401 |
| AuthController.SignInDecidedByDigest | controllers/AuthController.js:30-39 | with unique emails, the user registered under the parsed email signs in iff its digest matches; otherwise 401 |
| AuthController.UnknownEmailRejected | controllers/AuthController.js:36-39 | credentials whose email no user has are refused with 401 |
| AuthController.ColonPasswordRejected | controllers/AuthController.js:22-39 | a user whose password contains `:` is refused when signing in with that password, unless the digests collide |
| AuthController.GetConnect | controllers/AuthController.js:8-53 | for a fresh token, accepted credentials store `auth_<token>` with the user's id for 86400 s and answer 200 with the token; any failure: 401 with the cache untouched |
| AuthController.GetDisconnect | controllers/AuthController.js:56-78 | a token that authenticates has its session deleted, with reply 204; otherwise 401 with the cache untouched |
| UsersController.CheckNewUser | controllers/UsersController.js:17-29 | accepted only when email and password are truthy and no stored user has the email; every rejection is 400 |
| UsersController.NewUserChecksInOrder | controllers/UsersController.js:17-29 | sign-up reports the first failing check in order: `Missing email`, `Missing password`, `Already exist` |
| JsValues.FalsyValues | controllers/FilesController.js:35-48 | the `!x` guards: a field is falsy exactly when it is undefined, `null`, `false`, `0` or `""` |
| JsValues.DefaultOnlyWhenUndefined | controllers/FilesController.js:26-32 | a destructuring default replaces only an undefined field; a falsy value that was sent is kept |
| Text.StartsWithConcat | controllers/AuthController.js:12 | `startsWith(p)` holds of exactly the strings that are `p` followed by something |
| Session.SessionKey | controllers/AuthController.js:45 | defined as `auth_` followed by the token; the property callers use is `Session.SessionKeyInjective` |
| Blobs.FolderPath | controllers/FilesController.js:7 | defined as `FOLDER_PATH` when set and non-empty, otherwise `/tmp/files_manager`; its contract adds that the path is never empty |
| Blobs.BlobPath | controllers/FilesController.js:80 | defined as the folder, a `/`, then the UUID; the property callers use is `Blobs.BlobPathInjective` |
| Blobs.BlobPathInjective | controllers/FilesController.js:79-80 | within one folder, different UUIDs give different paths |
| FilesController.AcceptedType | controllers/FilesController.js:40-41 | a type is accepted as kind k exactly when it is the string naming k; non-strings are never accepted |
| FilesController.ViewShowsRecord | controllers/FilesController.js:66-106 | `Record`: the stored document keeps the validated upload fields, without `data`; `View`: the 201 reply shows the id and the document, `localPath` included, so the document can be read back from it |
| UsersController.HashedPassword | controllers/UsersController.js:32-35 | defined as the SHA-1 digest of a string password, and nothing (the thrown error, hence 500) for any other value |
| UsersController.PostNew | controllers/UsersController.js:11-56 | a rejection changes nothing; a non-string password answers 500 and changes nothing; otherwise exactly one user {new id, email, SHA-1 of password} is appended and 201 {id, email} returned |
| UsersController.CheckMe | controllers/UsersController.js:61-76 | answers a stored user whose id the token authenticates to; conversely, when the token authenticates and a user has that id, it answers the first such user; a token that does not authenticate gives 401 |
| UsersController.GetMe | controllers/UsersController.js:58-84 | 200 {id, email} of the authenticated user, otherwise 401; nothing changes |
| FilesController.CheckUpload | controllers/FilesController.js:14-62 | an accepted upload comes from the authenticated user, has a truthy name, a type among folder/file/image, data unless a folder, `parentId` 0 (default) or an existing folder, and `isPublic` defaulting to false; rejections are 401 or 400 |
| FilesController.UploadChecksInOrder | controllers/FilesController.js:14-62 | the upload reports the first failing check in order: no token, unknown session, `Missing name`, `Missing type`, `Missing data`, `Parent not found`, `Parent is not a folder` |
| FilesController.PostUpload | controllers/FilesController.js:11-111 | with a fresh id and UUID: a rejection changes nothing; a folder adds exactly one record without a blob; a file or image writes the decoded bytes to `<folder>/<uuid>` and adds one record with that `localPath`; non-string data answers 500 and changes nothing; users are never touched |
| Consistency.EmptyIsConsistent | utils/db.js:20-43 | the empty stores satisfy the invariant |
| Consistency.ParentOkAfterInsert | controllers/FilesController.js:52-62 | a parent that was valid stays valid after a file is added under a fresh id |
| Consistency.SignInKeepsConsistent | controllers/AuthController.js:42-45 | storing the session of an accepted sign-in keeps the invariant |
| Consistency.SignOutKeepsConsistent | controllers/AuthController.js:71 | deleting a session keeps the invariant |
| Consistency.SignUpKeepsConsistent | controllers/UsersController.js:26-44 | adding the user of an accepted sign-up keeps the invariant; in particular, emails stay unique |
| Consistency.UploaderExists | controllers/FilesController.js:20-23 | when sessions name existing users, the owner of an accepted upload exists |
| Consistency.FolderUploadKeepsConsistent | controllers/FilesController.js:65-76 | adding an accepted folder record keeps the invariant |
| Consistency.FileUploadKeepsConsistent | controllers/FilesController.js:79-106 | writing the blob at a fresh path and adding an accepted file or image record keeps the invariant, including that no two records share a blob |
| Consistency.MeFailsOnlyForToken | controllers/UsersController.js:61-76 | when sessions name existing users, getMe fails exactly when the token does not authenticate (the missing-user 401 cannot occur) |
| Consistency.SignedInUserIsMe | controllers/UsersController.js:67-79 | until the TTL elapses, getMe with a fresh sign-in token finds exactly the user who signed in |
| Consistency.BlobsOwnedAfterInsert | controllers/FilesController.js:79-101 | a record added under a fresh id with a new blob path shares no blob with any earlier record |
| Consistency.ConnectKeepsConsistent | controllers/AuthController.js:8-53 | getConnect with a fresh token leaves consistent stores consistent, whether or not the cache write fails |
| Consistency.DisconnectKeepsConsistent | controllers/AuthController.js:56-78 | getDisconnect leaves consistent stores consistent in every outcome |
| Consistency.PostNewKeepsConsistent | controllers/UsersController.js:11-56 | postNew with a fresh id leaves consistent stores consistent in every outcome |
| Consistency.PostUploadKeepsConsistent | controllers/FilesController.js:11-111 | postUpload with a fresh id and UUID leaves consistent stores consistent in every outcome |
| Scenario.BasicHeaderField | controllers/AuthController.js:17 | the field of `Basic <encoded>` is the encoded text when it has no space |
| Scenario.BobSignsIn | controllers/AuthController.js:11-39 | Bob's header is accepted as Bob |
| Scenario.SignUpBob | controllers/UsersController.js:11-56 | signing Bob up on an empty store answers 201 with his id and email and stores exactly Bob |
| Scenario.DocsAccepted | controllers/FilesController.js:14-62 | the folder upload `docs` is accepted into the root, not public |
| Scenario.TextAccepted | controllers/FilesController.js:14-62 | the text upload into folder `f1` is accepted |
| Scenario.SignInBob | controllers/AuthController.js:8-53 | Bob's sign-in answers 200 with the token and stores exactly his session |
| Scenario.UploadDocsAndText | controllers/FilesController.js:11-111 | the folder and file uploads answer the expected 201 views; the blob holds the decoded data |
| Scenario.SignInUploadSignOut | controllers/FilesController.js:11-111 | the whole client session: sign-up 201, sign-in 200 with the token, getMe Bob, folder and file 201 views, stored bytes, sign-out 204, then 401 |
| Scenario.SignInWithFailingCache | utils/redis.js:60-66 | a failing `set` still gives sign-in 200 with a token, but getMe with that token answers 401 |

## Left out

- Database and disk exceptions (lost connection, full disk, `mkdirSync`), which the handlers catch and answer with 500: not modelled apart from the two type errors named above, because they come from outside the code.
- The `mkdirSync` call that creates the storage folder: writes are modelled as always succeeding.
- `FOLDER_PATH`: the environment is not modelled. The folder path is a parameter of `postUpload`. `Blobs.FolderPath` is the choice at `controllers/FilesController.js:7`, and the scenario passes `FolderPath(None)`, the unset case.
- `path.join` normalisation: the path is the folder, a `/` and the UUID, which is what `path.join` produces for an absolute folder without a trailing slash.
- `FilesController.PostUpload`: for array-like `data` (an array, an object with a `length`, or `{type: "Buffer", data: [...]}`), `Buffer.from` ignores `'base64'` and takes the elements as bytes, so the handler stores them and answers 201. A plain object without these throws, which is a 500. The single opaque `JComposite` cannot tell these apart, so the model answers 500 and writes nothing for every object or array `data`.
- File contents: malformed base64 is ignored by `Buffer.from`; that is part of the abstract decoder.
- MongoDB query-operator objects passed as an email: emails are compared as JSON values.
- JSON values: numbers are integers, and all objects and arrays are one opaque value. So two different object emails compare equal, and non-integer numbers (truthy unless zero) are not represented.
- Concurrency: the handlers are modelled one at a time, so the race between two sign-ups with the same email is not modelled. Redis expiry is modelled against the `now` parameter, not a running clock.
- `UsersController.PostNew`: it does not show that the plaintext password is never stored. SHA-1 is abstract, so only "the stored password is the digest" is stated.
- `FilesController.View`: the folder response of `postUpload` may also carry the `_id` that the MongoDB driver adds to the inserted document. This is not modelled.
- SHA-1, base64 and UUID generation: these are parameters of the model, so their output formats are not modelled.
- `Db.DbClient.CreateUser` / `Db.DbClient.CreateFile`: they require the id to be fresh. The database guarantees this and it is not modelled.
- `AuthController.GetConnect` / `FilesController.PostUpload`: they require the generated UUID to be fresh (no session under the token, no blob at the path). UUID generation is a parameter, so its uniqueness is assumed, not proved. What happens when a UUID collides is not modelled.
- Showing one file and listing a folder's files: `controllers/FilesController.js` defines only `postUpload`, so there is no code for them to model.
- `AppController`, `server.js`, `routes/index.js` and the `isAlive`/`nbUsers`/`nbFiles` helpers: status and statistics endpoints and wiring, outside the modelled handlers.
- HTTP framing (status lines, JSON serialisation, Express routing): a response is its status and body value.
- Logging: the `console.log` / `console.error` calls have no effect on responses or stores and are not modelled.
