/**
 * controllers/FilesController.js: postUpload, a chain of checks followed
 * by either one folder record, or one blob on disk plus one file record
 * pointing at it.
 */
module FilesController {
  import opened Wrappers
  import opened JsValues
  import opened Guards
  import opened Foreign
  import opened Http
  import opened Redis
  import opened Db
  import opened Blobs
  import opened Session

  /** The fields destructured from the request body. */
  datatype UploadBody = UploadBody(name: Field, fileType: Field, parentId: Field, isPublic: Field, data: Field)

  /** A request that passed every check, with the defaults applied. */
  datatype Upload = Upload(userId: string, name: Json, kind: Kind, parentId: Json, isPublic: Json, data: Field)

  /** `acceptedTypes.includes(type)`, as the kind it names. */
  function AcceptedType(fileType: Field): (r: Option<Kind>)
    ensures forall k :: r == Some(k) <==> fileType == Some(JStr(KindName(k)))
  {
    match fileType
    case Some(JStr(s)) => KindNamed(s)
    case _ => None
  }

  /** `parentId` is the root sentinel 0, or names an existing folder. */
  predicate ParentOk(files: map<ObjectId, FileRecord>, parentId: Json)
  {
    parentId == JNum(0) || (FindFile(files, parentId).Some? && FindFile(files, parentId).value.kind == Folder)
  }

  /**
   * Lines 14-62: authenticate, then `name`, `type`, `data` (for files and
   * images) and, when `parentId !== 0`, the parent. Nothing is written.
   */
  function CheckUpload(entries: map<string, Entry>, files: map<ObjectId, FileRecord>, token: Option<string>,
                       body: UploadBody, now: int, getFailed: bool): (r: Result<Upload, Response>)
    ensures r.Ok? ==> Authenticate(entries, token, now, getFailed) == Ok(r.value.userId)
    ensures r.Ok? ==> Truthy(body.name) && r.value.name == body.name.value
    ensures r.Ok? ==> body.fileType == Some(JStr(KindName(r.value.kind)))
    ensures r.Ok? ==> r.value.data == body.data && (r.value.kind != Folder ==> Truthy(body.data))
    ensures r.Ok? ==> r.value.parentId == OrDefault(body.parentId, JNum(0))
    ensures r.Ok? ==> r.value.isPublic == OrDefault(body.isPublic, JBool(false))
    ensures r.Ok? ==> ParentOk(files, r.value.parentId)
    ensures r.Err? ==> r.error == Unauthorized || r.error.status == 400
  {
    match Authenticate(entries, token, now, getFailed)
    case Err(e) => Err(e)
    case Ok(userId) =>
      var parentId := OrDefault(body.parentId, JNum(0));
      var isPublic := OrDefault(body.isPublic, JBool(false));
      if !Truthy(body.name) then Err(BadRequest("Missing name"))
      else if !Truthy(body.fileType) || AcceptedType(body.fileType).None? then Err(BadRequest("Missing type"))
      else if (body.fileType == Some(JStr("file")) || body.fileType == Some(JStr("image"))) && !Truthy(body.data) then
        Err(BadRequest("Missing data"))
      else if parentId != JNum(0) && FindFile(files, parentId).None? then Err(BadRequest("Parent not found"))
      else if parentId != JNum(0) && FindFile(files, parentId).value.kind != Folder then
        Err(BadRequest("Parent is not a folder"))
      else
        var kind := AcceptedType(body.fileType).value;
        KindNameRoundTrip(body.fileType.value.s, kind);
        Ok(Upload(userId, body.name.value, kind, parentId, isPublic, body.data))
  }

  /** The upload checks, in the order the handler makes them. */
  function UploadGuards(entries: map<string, Entry>, files: map<ObjectId, FileRecord>, token: Option<string>,
                        body: UploadBody, now: int, getFailed: bool): seq<Guard<Response>>
  {
    var parentId := OrDefault(body.parentId, JNum(0));
    var parent := FindFile(files, parentId);
    [ Guard(Present(token), Unauthorized),
      Guard(Authenticate(entries, token, now, getFailed).Ok?, Unauthorized),
      Guard(Truthy(body.name), BadRequest("Missing name")),
      Guard(Truthy(body.fileType) && AcceptedType(body.fileType).Some?, BadRequest("Missing type")),
      Guard(!(body.fileType == Some(JStr("file")) || body.fileType == Some(JStr("image"))) || Truthy(body.data),
            BadRequest("Missing data")),
      Guard(parentId == JNum(0) || parent.Some?, BadRequest("Parent not found")),
      Guard(parentId == JNum(0) || parent.None? || parent.value.kind == Folder, BadRequest("Parent is not a folder")) ]
  }

  /** An upload is rejected exactly by the first of its checks that fails. */
  lemma UploadChecksInOrder(entries: map<string, Entry>, files: map<ObjectId, FileRecord>, token: Option<string>,
                            body: UploadBody, now: int, getFailed: bool)
    ensures var r := CheckUpload(entries, files, token, body, now, getFailed);
            var gs := UploadGuards(entries, files, token, body, now, getFailed);
            && (r.Err? <==> FirstFailure(gs).Some?)
            && (r.Err? ==> FirstFailure(gs) == Some(r.error))
  {
    var gs := UploadGuards(entries, files, token, body, now, getFailed);
    NoFailure(gs);
    if !gs[0].holds {
      FirstFailureAt(gs, 0);
    } else if !gs[1].holds {
      FirstFailureAt(gs, 1);
    } else if !gs[2].holds {
      FirstFailureAt(gs, 2);
    } else if !gs[3].holds {
      FirstFailureAt(gs, 3);
    } else if !gs[4].holds {
      FirstFailureAt(gs, 4);
    } else if !gs[5].holds {
      FirstFailureAt(gs, 5);
    } else if !gs[6].holds {
      FirstFailureAt(gs, 6);
    }
  }

  /** The document stored for an accepted upload. */
  function Record(u: Upload, localPath: Option<string>): FileRecord
  {
    FileRecord(u.userId, u.name, u.kind, u.isPublic, u.parentId, localPath)
  }

  /** The reply for a stored document: every stored field plus its id. */
  function View(id: ObjectId, r: FileRecord): Response
  {
    Response(201, FileView(id, r.userId, r.name, KindName(r.kind), r.isPublic, r.parentId, r.localPath))
  }

  /** Reads a 201 file reply back as the id and document it shows. */
  function ViewedRecord(resp: Response): Option<(string, FileRecord)>
  {
    if resp.status == 201 && resp.body.FileView? && KindNamed(resp.body.fileType).Some? then
      var b := resp.body;
      Some((b.id, FileRecord(b.userId, b.name, KindNamed(b.fileType).value, b.isPublic, b.parentId, b.localPath)))
    else None
  }

  /**
   * The stored document keeps every validated field of the upload, but not
   * its `data`, and the reply shows all of it: its id, its fields, its type
   * name and `localPath`, so the document can be read back from the reply.
   */
  lemma ViewShowsRecord(id: ObjectId, u: Upload, localPath: Option<string>)
    ensures var r := Record(u, localPath);
            && r.userId == u.userId && r.name == u.name && r.kind == u.kind
            && r.isPublic == u.isPublic && r.parentId == u.parentId && r.localPath == localPath
    ensures ViewedRecord(View(id, Record(u, localPath))) == Some((id, Record(u, localPath)))
  {
    KindNameRoundTrip(KindName(u.kind), u.kind);
  }

  /**
   * postUpload. A rejected request changes nothing. A folder becomes one
   * record without `localPath` and no blob. A file or image becomes one
   * blob at `<folderPath>/<uuid>` holding the base64 decoding of `data`,
   * then one record whose `localPath` is that path. `Buffer.from` throws
   * on a number or a boolean `data`, which is a 500 before any write. An
   * object or array `data` (one opaque `JComposite`) is treated the same,
   * although `Buffer.from` stores the elements of an array-like value.
   * The id and the UUID are fresh: neither is stored yet.
   */
  method PostUpload(redis: RedisClient, db: DbClient, disk: Disk, token: Option<string>, body: UploadBody,
                    now: int, getFailed: bool, folderPath: string, fileUuid: string, newId: ObjectId, lib: Library)
    returns (resp: Response)
    requires newId !in db.files
    requires BlobPath(folderPath, fileUuid) !in disk.blobs
    modifies db, disk
    ensures db.users == old(db.users)
    ensures var c := CheckUpload(redis.entries, old(db.files), token, body, now, getFailed);
            && (c.Err? ==> resp == c.error && db.files == old(db.files) && disk.blobs == old(disk.blobs))
            && (c.Ok? && c.value.kind == Folder ==>
                  && db.files == old(db.files)[newId := Record(c.value, None)]
                  && disk.blobs == old(disk.blobs)
                  && resp == View(newId, Record(c.value, None)))
            && (c.Ok? && c.value.kind != Folder && !c.value.data.value.JStr? ==>
                  resp == InternalServerError && db.files == old(db.files) && disk.blobs == old(disk.blobs))
            && (c.Ok? && c.value.kind != Folder && c.value.data.value.JStr? ==>
                  var path := BlobPath(folderPath, fileUuid);
                  && disk.blobs == old(disk.blobs)[path := lib.base64ToBytes(c.value.data.value.s)]
                  && db.files == old(db.files)[newId := Record(c.value, Some(path))]
                  && resp == View(newId, Record(c.value, Some(path))))
  {
    if !Present(token) {
      return Unauthorized;
    }
    var userId := redis.Get(SessionKey(token.value), now, getFailed);
    if !Present(userId) {
      return Unauthorized;
    }
    var name, fileType, isPublic, data := body.name, body.fileType, OrDefault(body.isPublic, JBool(false)), body.data;
    var parentId := OrDefault(body.parentId, JNum(0));
    if !Truthy(name) {
      return BadRequest("Missing name");
    }
    if !Truthy(fileType) || AcceptedType(fileType).None? {
      return BadRequest("Missing type");
    }
    if (fileType == Some(JStr("file")) || fileType == Some(JStr("image"))) && !Truthy(data) {
      return BadRequest("Missing data");
    }
    if parentId != JNum(0) {
      var parentFile := db.GetFileById(parentId);
      if parentFile.None? {
        return BadRequest("Parent not found");
      }
      if parentFile.value.kind != Folder {
        return BadRequest("Parent is not a folder");
      }
    }
    var kind := AcceptedType(fileType).value;
    var upload := Upload(userId.value, name.value, kind, parentId, isPublic, data);
    if kind == Folder {
      var newFile := Record(upload, None);
      var fileId := db.CreateFile(newFile, newId);
      return View(fileId, newFile);
    }
    if !data.value.JStr? {
      return InternalServerError;
    }
    var filePath := BlobPath(folderPath, fileUuid);
    var fileContent := lib.base64ToBytes(data.value.s);
    disk.WriteFile(filePath, fileContent);
    var newFile := Record(upload, Some(filePath));
    var fileId := db.CreateFile(newFile, newId);
    return View(fileId, newFile);
  }
}
