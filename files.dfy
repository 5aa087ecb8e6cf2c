/** The file entity handlers (controllers/FilesController.js): upload, show, paginated listing,
    publish/unpublish and content read, over the files collection, the blob store and the thumbnail queue. */
module Files {

  import opened Records
  import opened JsText
  import opened Storage
  import opened Helpers

  const PAGE_SIZE := 20
  const DEFAULT_FOLDER_PATH := "/tmp/files_manager"

  // ---------------------------------------------------------------------------
  // The tree invariants of the files collection
  // ---------------------------------------------------------------------------

  /** A parent reference is the root (the number 0, or the text "0" a folder keeps) or names a stored folder. */
  ghost predicate ParentRefOk(files: map<string, FileDoc>, p: IdVal) {
    match p
    case Zero => true
    case Str(s) => s == "0" || (s in files && files[s].kind == Folder)
    case Oid(h) => h in files && files[h].kind == Folder
  }

  ghost predicate DocWellFormed(files: map<string, FileDoc>, d: FileDoc) {
    && d.name != ""
    && (d.kind == Folder <==> d.localPath.None?)
    && ParentRefOk(files, d.parentId)
  }

  /** Names are non-empty, exactly the folders lack a local path, and every non-root parent is a folder. */
  ghost predicate WellFormed(files: map<string, FileDoc>) {
    forall id :: id in files ==> DocWellFormed(files, files[id])
  }

  /** Adding a well-formed document under a new id keeps the collection well formed. */
  lemma WellFormedInsert(files: map<string, FileDoc>, id: string, doc: FileDoc)
    requires WellFormed(files) && id !in files && DocWellFormed(files, doc)
    ensures WellFormed(files[id := doc])
  {
    var files' := files[id := doc];
    forall k | k in files'
      ensures DocWellFormed(files', files'[k])
    {
      var d := files'[k];
      match d.parentId
      case Zero =>
      case Str(s) => if s != "0" { assert s in files && s != id; }
      case Oid(h) => assert h in files && h != id;
    }
  }

  /** Changing a visibility flag keeps the collection well formed. */
  lemma WellFormedPublish(files: map<string, FileDoc>, id: string, b: bool)
    requires WellFormed(files)
    ensures WellFormed(WithPublic(files, id, b))
  {
    var files' := WithPublic(files, id, b);
    forall k | k in files'
      ensures DocWellFormed(files', files'[k])
    {
      assert DocWellFormed(files, files[k]);
      match files'[k].parentId
      case Zero =>
      case Str(s) => if s != "0" { assert files'[s].kind == files[s].kind; }
      case Oid(h) => assert files'[h].kind == files[h].kind;
    }
  }

  // ---------------------------------------------------------------------------
  // postUpload
  // ---------------------------------------------------------------------------

  /** The body of `POST /files`. */
  datatype Upload = Upload(
    name: Option<string>,
    fileType: Option<string>,
    isPublic: bool,
    parentId: Option<string>,
    data: Option<string>)

  /** `req.body.parentId || '0'`. */
  function ParentArg(u: Upload): string {
    if Truthy(u.parentId) then u.parentId.value else "0"
  }

  /** A parent argument postUpload accepts: the root, or the id of a stored folder. */
  predicate ParentAccepted(files: map<string, FileDoc>, p: string) {
    p == "0" || (p in files && files[p].kind == Folder)
  }

  datatype Check = Rejected(response: Response) | Accepted(userId: string, kind: Kind)

  /** The checks of postUpload in the source's order: the token, then name, then type, then data (not
      needed for a folder), then the parent. The first that fails decides the answer. */
  function CheckUpload(files: map<string, FileDoc>, entries: map<string, Entry>, token: Option<string>, u: Upload)
    : (c: Check)
    ensures FindUserIdByToken(entries, token).None? ==> c == Rejected(UNAUTHORIZED)
    ensures FindUserIdByToken(entries, token).Some? ==>
              && (!Truthy(u.name) ==> c == Rejected(Reply(400, Error("Missing name"))))
              && (Truthy(u.name) && KindOf(u.fileType).None? ==> c == Rejected(Reply(400, Error("Missing type"))))
              && (Truthy(u.name) && KindOf(u.fileType).Some? && u.fileType != Some("folder") && !Truthy(u.data) ==>
                    c == Rejected(Reply(400, Error("Missing data"))))
    ensures FindUserIdByToken(entries, token).Some? && Truthy(u.name) && KindOf(u.fileType).Some?
              && (u.fileType == Some("folder") || Truthy(u.data)) && ParentArg(u) != "0" ==>
              && (ParentArg(u) !in files ==> c == Rejected(Reply(400, Error("Parent not found"))))
              && (ParentArg(u) in files && files[ParentArg(u)].kind != Folder ==>
                    c == Rejected(Reply(400, Error("Parent is not a folder"))))
    ensures c.Accepted? <==>
              && FindUserIdByToken(entries, token).Some?
              && Truthy(u.name) && KindOf(u.fileType).Some?
              && (u.fileType == Some("folder") || Truthy(u.data))
              && ParentAccepted(files, ParentArg(u))
    ensures c.Accepted? ==> Some(c.userId) == FindUserIdByToken(entries, token) && Some(c.kind) == KindOf(u.fileType)
  {
    match FindUserIdByToken(entries, token)
    case None => Rejected(UNAUTHORIZED)
    case Some(uid) =>
      if !Truthy(u.name) then Rejected(Reply(400, Error("Missing name")))
      else if KindOf(u.fileType).None? then Rejected(Reply(400, Error("Missing type")))
      else if !Truthy(u.data) && u.fileType != Some("folder") then Rejected(Reply(400, Error("Missing data")))
      else
        var p := ParentArg(u);
        if p != "0" && p !in files then Rejected(Reply(400, Error("Parent not found")))
        else if p != "0" && files[p].kind != Folder then Rejected(Reply(400, Error("Parent is not a folder")))
        else Accepted(uid, KindOf(u.fileType).value)
  }

  /** The parent reference in the converted form: the number 0 for the root, else an ObjectId. */
  function ConvertedParent(p: string): IdVal {
    if p == "0" then Zero else Oid(p)
  }

  /** The document postUpload builds with converted ids (`folderData`, plus `localPath` for files and
      images): stored for files and images, and returned to the client for every kind. */
  function ConvertedDoc(uid: string, u: Upload, kind: Kind, path: Option<string>): FileDoc
    requires Truthy(u.name)
  {
    FileDoc(Oid(uid), u.name.value, kind, u.isPublic, ConvertedParent(ParentArg(u)), path)
  }

  /** The document postUpload stores for a folder: the session's user id and the `parentId` text are
      stored unconverted, as plain strings. */
  function StoredFolder(uid: string, u: Upload): FileDoc
    requires Truthy(u.name)
  {
    FileDoc(Str(uid), u.name.value, Folder, u.isPublic, Str(ParentArg(u)), None)
  }

  /** A stored folder has a plain-string owner, so no query by `userId: ObjectId(..)` ever matches it. */
  lemma StoredFolderOwnedByNobody(uid: string, u: Upload, anyone: string)
    requires Truthy(u.name)
    ensures !OwnedBy(StoredFolder(uid, u), anyone)
  {
  }

  /** `FOLDER_PATH`, or /tmp/files_manager when it is unset or empty. */
  function FolderPath(env: Option<string>): string {
    if Truthy(env) then env.value else DEFAULT_FOLDER_PATH
  }

  /** `path.join(folder, uuid)`. */
  function LocalPath(env: Option<string>, uuid: string): string {
    FolderPath(env) + "/" + uuid
  }

  /** The stores of an accepted upload: a folder is inserted with no blob; a file or image first has its
      decoded data written at `<folder>/<uuid>`, then its document inserted. Returns the 201 response. */
  method StoreUpload(
    db: Db, disk: Disk, c: Check, u: Upload,
    base64Decode: string -> Bytes, folderEnv: Option<string>, uuid: string, newId: string) returns (r: Response)
    requires c.Accepted? && Truthy(u.name) && (c.kind != Folder ==> Truthy(u.data))
    requires db.Valid() && newId !in db.files
    requires ParentAccepted(db.files, ParentArg(u))
    modifies db, disk
    ensures db.Valid() && db.users == old(db.users) && db.userOrder == old(db.userOrder)
    ensures db.fileOrder == old(db.fileOrder) + [newId]
    ensures WellFormed(old(db.files)) ==> WellFormed(db.files)
    ensures c.kind == Folder ==>
              && db.files == old(db.files)[newId := StoredFolder(c.userId, u)]
              && disk.blobs == old(disk.blobs)
              && r == Reply(201, Created(newId, ConvertedDoc(c.userId, u, Folder, None)))
    ensures c.kind != Folder ==>
              var path := LocalPath(folderEnv, uuid);
              var doc := ConvertedDoc(c.userId, u, c.kind, Some(path));
              && db.files == old(db.files)[newId := doc]
              && disk.blobs == old(disk.blobs)[path := base64Decode(u.data.value)]
              && r == Reply(201, Created(newId, doc))
  {
    var doc;
    if c.kind == Folder {
      doc := StoredFolder(c.userId, u);
      r := Reply(201, Created(newId, ConvertedDoc(c.userId, u, Folder, None)));
    } else {
      var path := LocalPath(folderEnv, uuid);
      disk.WriteFile(path, base64Decode(u.data.value));
      doc := ConvertedDoc(c.userId, u, c.kind, Some(path));
      r := Reply(201, Created(newId, doc));
    }
    if WellFormed(db.files) {
      WellFormedInsert(db.files, newId, doc);
    }
    db.InsertFile(newId, doc);
  }

  /** `postUpload` with its thumbnail enqueue working. `newId` is the id the store assigns, `uuid` the
      fresh file name, `base64Decode` the decoding of `data`. Rejected uploads change nothing; an image
      enqueues `{fileId, userId}` after its document is inserted. */
  method PostUpload(
    db: Db, cache: Cache, disk: Disk, fileQueue: JobQueue<ThumbJob>, token: Option<string>, u: Upload,
    base64Decode: string -> Bytes, folderEnv: Option<string>, uuid: string, newId: string) returns (r: Response)
    requires db.Valid() && newId !in db.files
    modifies db, disk, fileQueue
    ensures db.Valid() && db.users == old(db.users) && db.userOrder == old(db.userOrder)
    ensures WellFormed(old(db.files)) ==> WellFormed(db.files)
    ensures var c := CheckUpload(old(db.files), cache.entries, token, u);
            c.Rejected? ==>
              && r == c.response
              && db.files == old(db.files) && db.fileOrder == old(db.fileOrder)
              && disk.blobs == old(disk.blobs) && fileQueue.jobs == old(fileQueue.jobs)
    ensures var c := CheckUpload(old(db.files), cache.entries, token, u);
            c.Accepted? && c.kind == Folder ==>
              && db.files == old(db.files)[newId := StoredFolder(c.userId, u)]
              && db.fileOrder == old(db.fileOrder) + [newId]
              && r == Reply(201, Created(newId, ConvertedDoc(c.userId, u, Folder, None)))
              && disk.blobs == old(disk.blobs) && fileQueue.jobs == old(fileQueue.jobs)
    ensures var c := CheckUpload(old(db.files), cache.entries, token, u);
            c.Accepted? && c.kind != Folder ==>
              var path := LocalPath(folderEnv, uuid);
              var doc := ConvertedDoc(c.userId, u, c.kind, Some(path));
              && db.files == old(db.files)[newId := doc]
              && db.fileOrder == old(db.fileOrder) + [newId]
              && disk.blobs == old(disk.blobs)[path := base64Decode(u.data.value)]
              && r == Reply(201, Created(newId, doc))
              && fileQueue.jobs == old(fileQueue.jobs) + (if c.kind == Image then [ThumbJob(Some(newId), Some(c.userId))] else [])
    ensures forall i :: |old(fileQueue.jobs)| <= i < |fileQueue.jobs| ==>
              && fileQueue.jobs[i].fileId.Some?
              && fileQueue.jobs[i].fileId.value in db.files
              && db.files[fileQueue.jobs[i].fileId.value].kind == Image
  {
    var c := CheckUpload(db.files, cache.entries, token, u);
    if c.Rejected? {
      return c.response;
    }
    r := StoreUpload(db, disk, c, u, base64Decode, folderEnv, uuid, newId);
    if c.kind == Image {
      fileQueue.Add(ThumbJob(Some(newId), Some(c.userId)));
    }
  }

  /** `postUpload` as written: `fileQueue` is bound to the worker module's export object, whose `add` is
      not a function, so an accepted image upload writes its blob and inserts its document, then the
      handler's promise rejects: no response and no job. Other kinds behave as in PostUpload. */
  method PostUploadAsWritten(
    db: Db, cache: Cache, disk: Disk, token: Option<string>, u: Upload,
    base64Decode: string -> Bytes, folderEnv: Option<string>, uuid: string, newId: string) returns (r: Response)
    requires db.Valid() && newId !in db.files
    modifies db, disk
    ensures db.Valid() && db.users == old(db.users) && db.userOrder == old(db.userOrder)
    ensures WellFormed(old(db.files)) ==> WellFormed(db.files)
    ensures var c := CheckUpload(old(db.files), cache.entries, token, u);
            c.Rejected? ==>
              && r == c.response
              && db.files == old(db.files) && db.fileOrder == old(db.fileOrder)
              && disk.blobs == old(disk.blobs)
    ensures var c := CheckUpload(old(db.files), cache.entries, token, u);
            c.Accepted? && c.kind == Folder ==>
              && db.files == old(db.files)[newId := StoredFolder(c.userId, u)]
              && db.fileOrder == old(db.fileOrder) + [newId]
              && disk.blobs == old(disk.blobs)
              && r == Reply(201, Created(newId, ConvertedDoc(c.userId, u, Folder, None)))
    ensures var c := CheckUpload(old(db.files), cache.entries, token, u);
            c.Accepted? && c.kind == File ==>
              var path := LocalPath(folderEnv, uuid);
              var doc := ConvertedDoc(c.userId, u, File, Some(path));
              && db.files == old(db.files)[newId := doc]
              && db.fileOrder == old(db.fileOrder) + [newId]
              && disk.blobs == old(disk.blobs)[path := base64Decode(u.data.value)]
              && r == Reply(201, Created(newId, doc))
    ensures var c := CheckUpload(old(db.files), cache.entries, token, u);
            c.Accepted? && c.kind == Image ==>
              var path := LocalPath(folderEnv, uuid);
              && db.files == old(db.files)[newId := ConvertedDoc(c.userId, u, Image, Some(path))]
              && db.fileOrder == old(db.fileOrder) + [newId]
              && disk.blobs == old(disk.blobs)[path := base64Decode(u.data.value)]
              && r == Crashed
  {
    var c := CheckUpload(db.files, cache.entries, token, u);
    if c.Rejected? {
      return c.response;
    }
    r := StoreUpload(db, disk, c, u, base64Decode, folderEnv, uuid, newId);
    if c.kind == Image {
      // `fileQueue.add` throws a TypeError; nothing catches it.
      r := Crashed;
    }
  }

  // ---------------------------------------------------------------------------
  // getShow
  // ---------------------------------------------------------------------------

  /** `getShow`: the caller's own document with that id, or 404; ownership is part of the lookup. */
  function GetShow(files: map<string, FileDoc>, entries: map<string, Entry>, token: Option<string>, id: string)
    : (r: Response)
    ensures var uid := FindUserIdByToken(entries, token);
            && (uid.None? ==> r == UNAUTHORIZED)
            && (uid.Some? && (id !in files || !OwnedBy(files[id], uid.value)) ==> r == NOT_FOUND)
            && (uid.Some? && id in files && OwnedBy(files[id], uid.value) ==> r == Reply(200, Doc(id, files[id])))
  {
    match FindUserIdByToken(entries, token)
    case None => UNAUTHORIZED
    case Some(uid) =>
      match FindOwned(files, id, uid)
      case None => NOT_FOUND
      case Some(doc) => Reply(200, Doc(id, doc))
  }

  /** A folder document as postUpload stores it is never shown, to anyone. */
  lemma StoredFolderNeverShown(
    files: map<string, FileDoc>, entries: map<string, Entry>, token: Option<string>, id: string, uid: string, u: Upload)
    requires Truthy(u.name) && id in files && files[id] == StoredFolder(uid, u)
    ensures GetShow(files, entries, token, id) in {UNAUTHORIZED, NOT_FOUND}
  {
  }

  // ---------------------------------------------------------------------------
  // putPublish / putUnpublish
  // ---------------------------------------------------------------------------

  /** The answer and the new files collection of putPublish (`b` true) or putUnpublish (`b` false). */
  function SetVisibility(
    files: map<string, FileDoc>, entries: map<string, Entry>, token: Option<string>, id: string, b: bool)
    : (out: (Response, map<string, FileDoc>))
    ensures var uid := FindUserIdByToken(entries, token);
            && (uid.None? ==> out == (UNAUTHORIZED, files))
            && (uid.Some? && FindOwned(files, id, uid.value).None? ==> out == (NOT_FOUND, files))
            && (uid.Some? && FindOwned(files, id, uid.value).Some? ==>
                  out.0 == Reply(200, Visibility(id, b)) && out.1 == WithPublic(files, id, b))
  {
    match FindUserIdByToken(entries, token)
    case None => (UNAUTHORIZED, files)
    case Some(uid) =>
      if FindOwned(files, id, uid).None? then (NOT_FOUND, files)
      else (Reply(200, Visibility(id, b)), WithPublic(files, id, b))
  }

  /** Only `isPublic` of the one addressed document can change. */
  lemma SetVisibilityOnlyTouchesFlag(
    files: map<string, FileDoc>, entries: map<string, Entry>, token: Option<string>, id: string, b: bool)
    ensures var files' := SetVisibility(files, entries, token, id, b).1;
            && files'.Keys == files.Keys
            && (forall k :: k in files && k != id ==> files'[k] == files[k])
            && (id in files ==> files'[id].(isPublic := files[id].isPublic) == files[id])
  {
  }

  /** Repeating a publish or unpublish gives the same answer and leaves the collection as the first did. */
  lemma SetVisibilityIdempotent(
    files: map<string, FileDoc>, entries: map<string, Entry>, token: Option<string>, id: string, b: bool)
    ensures var (r1, files1) := SetVisibility(files, entries, token, id, b);
            SetVisibility(files1, entries, token, id, b) == (r1, files1)
  {
    var (r1, files1) := SetVisibility(files, entries, token, id, b);
    var uid := FindUserIdByToken(entries, token);
    if uid.Some? && FindOwned(files, id, uid.value).Some? {
      assert FindOwned(files1, id, uid.value).Some?;
      PublishIdempotent(files, id, b);
    }
  }

  method PutVisibility(db: Db, cache: Cache, token: Option<string>, id: string, b: bool) returns (r: Response)
    requires db.Valid()
    modifies db
    ensures db.Valid() && db.users == old(db.users) && db.userOrder == old(db.userOrder)
    ensures db.fileOrder == old(db.fileOrder)
    ensures (r, db.files) == SetVisibility(old(db.files), cache.entries, token, id, b)
    ensures WellFormed(old(db.files)) ==> WellFormed(db.files)
  {
    var uid := FindUserIdByToken(cache.entries, token);
    if uid.None? {
      return UNAUTHORIZED;
    }
    if FindOwned(db.files, id, uid.value).None? {
      return NOT_FOUND;
    }
    if WellFormed(db.files) {
      WellFormedPublish(db.files, id, b);
    }
    db.SetIsPublic(id, b);
    r := Reply(200, Visibility(id, b));
  }

  /** `putPublish`: sets `isPublic` to true on the caller's own document and answers `{id, isPublic: true}`. */
  method PutPublish(db: Db, cache: Cache, token: Option<string>, id: string) returns (r: Response)
    requires db.Valid()
    modifies db
    ensures db.Valid() && db.users == old(db.users) && db.userOrder == old(db.userOrder)
    ensures db.fileOrder == old(db.fileOrder)
    ensures (r, db.files) == SetVisibility(old(db.files), cache.entries, token, id, true)
    ensures WellFormed(old(db.files)) ==> WellFormed(db.files)
  {
    r := PutVisibility(db, cache, token, id, true);
  }

  /** `putUnpublish`: sets `isPublic` to false on the caller's own document and answers `{id, isPublic: false}`. */
  method PutUnpublish(db: Db, cache: Cache, token: Option<string>, id: string) returns (r: Response)
    requires db.Valid()
    modifies db
    ensures db.Valid() && db.users == old(db.users) && db.userOrder == old(db.userOrder)
    ensures db.fileOrder == old(db.fileOrder)
    ensures (r, db.files) == SetVisibility(old(db.files), cache.entries, token, id, false)
    ensures WellFormed(old(db.files)) ==> WellFormed(db.files)
  {
    r := PutVisibility(db, cache, token, id, false);
  }

  // ---------------------------------------------------------------------------
  // getFile
  // ---------------------------------------------------------------------------

  /** The read rule of getFile: public, or owned by the caller (the owner field compared as text). */
  predicate MayRead(doc: FileDoc, uid: string) {
    doc.isPublic || IdText(doc.userId) == uid
  }

  /** The path getFile tests: the stored path, with `_<size>` appended when `size` is given (any text).
      Without a stored path the template renders "undefined", and a bare missing path is never found. */
  function ContentPath(localPath: Option<string>, size: Option<string>): (p: Option<string>)
    ensures Truthy(size) ==> p.Some? && p.value == (if localPath.Some? then localPath.value else "undefined") + "_" + size.value
    ensures !Truthy(size) ==> p == localPath
  {
    if Truthy(size) then Some((if localPath.Some? then localPath.value else "undefined") + "_" + size.value)
    else localPath
  }

  /** `getFile` with a null check before the owner is read: 401 without a session, 404 for an unknown or
      unreadable document, 400 for a folder, 404 when the (suffixed) path is not in the blob store, else
      the path with the content type `mimeOf(name)`. */
  function GetFile(
    files: map<string, FileDoc>, blobs: map<string, Bytes>, entries: map<string, Entry>,
    token: Option<string>, id: string, size: Option<string>, mimeOf: string -> string)
    : (r: Response)
    ensures FindUserIdByToken(entries, token).None? ==> r == UNAUTHORIZED
    ensures var uid := FindUserIdByToken(entries, token);
            uid.Some? && (id !in files || !MayRead(files[id], uid.value)) ==> r == NOT_FOUND
    ensures var uid := FindUserIdByToken(entries, token);
            uid.Some? && id in files && MayRead(files[id], uid.value) && files[id].kind == Folder ==>
              r == Reply(400, Error("A folder doesn't have content"))
    ensures var uid := FindUserIdByToken(entries, token);
            uid.Some? && id in files && MayRead(files[id], uid.value) && files[id].kind != Folder ==>
              var p := ContentPath(files[id].localPath, size);
              if p.Some? && p.value in blobs then r == Reply(200, Content(p.value, mimeOf(files[id].name)))
              else r == NOT_FOUND
    ensures r.Reply? && r.status == 200 ==>
              var uid := FindUserIdByToken(entries, token);
              var p := ContentPath(files[id].localPath, size);
              && uid.Some? && id in files && MayRead(files[id], uid.value) && files[id].kind != Folder
              && p.Some? && p.value in blobs && r.body == Content(p.value, mimeOf(files[id].name))
    ensures r != Crashed
  {
    match FindUserIdByToken(entries, token)
    case None => UNAUTHORIZED
    case Some(uid) =>
      if id !in files || !MayRead(files[id], uid) then NOT_FOUND
      else if files[id].kind == Folder then Reply(400, Error("A folder doesn't have content"))
      else
        var p := ContentPath(files[id].localPath, size);
        if p.None? || p.value !in blobs then NOT_FOUND
        else Reply(200, Content(p.value, mimeOf(files[id].name)))
  }

  /** `getFile` as written: the owner of the looked-up document is read before the null check, so an
      unknown id makes the handler's promise reject (no response); otherwise it answers as GetFile. */
  function GetFileAsWritten(
    files: map<string, FileDoc>, blobs: map<string, Bytes>, entries: map<string, Entry>,
    token: Option<string>, id: string, size: Option<string>, mimeOf: string -> string)
    : (r: Response)
    ensures r == Crashed <==> FindUserIdByToken(entries, token).Some? && id !in files
    ensures r != Crashed ==> r == GetFile(files, blobs, entries, token, id, size, mimeOf)
  {
    if FindUserIdByToken(entries, token).Some? && id !in files then Crashed
    else GetFile(files, blobs, entries, token, id, size, mimeOf)
  }

  /** An unknown id: the source crashes where the corrected handler answers 404. */
  lemma UnknownIdCrashesAsWritten(
    files: map<string, FileDoc>, blobs: map<string, Bytes>, entries: map<string, Entry>,
    token: Option<string>, id: string, size: Option<string>, mimeOf: string -> string)
    requires FindUserIdByToken(entries, token).Some? && id !in files
    ensures GetFileAsWritten(files, blobs, entries, token, id, size, mimeOf) == Crashed
    ensures GetFile(files, blobs, entries, token, id, size, mimeOf) == NOT_FOUND
  {
  }

  /** The owner of a file reads the `<path>_<size>` blob whenever the blob store holds it. */
  lemma OwnerReadsSizedBlob(
    files: map<string, FileDoc>, blobs: map<string, Bytes>, entries: map<string, Entry>,
    token: Option<string>, id: string, path: string, size: string, mimeOf: string -> string)
    requires id in files && files[id].kind != Folder && files[id].localPath == Some(path)
    requires FindUserIdByToken(entries, token).Some? && OwnedBy(files[id], FindUserIdByToken(entries, token).value)
    requires size != "" && path + "_" + size in blobs
    ensures GetFile(files, blobs, entries, token, id, Some(size), mimeOf)
         == Reply(200, Content(path + "_" + size, mimeOf(files[id].name)))
  {
  }

  /** After publishing, any caller with a session reads the file's stored content. */
  lemma PublishedReadableByAnyone(
    files: map<string, FileDoc>, blobs: map<string, Bytes>, entries: map<string, Entry>,
    reader: Option<string>, id: string, path: string, mimeOf: string -> string)
    requires id in files && files[id].kind != Folder && files[id].localPath == Some(path) && path in blobs
    requires FindUserIdByToken(entries, reader).Some?
    ensures GetFile(WithPublic(files, id, true), blobs, entries, reader, id, None, mimeOf)
         == Reply(200, Content(path, mimeOf(files[id].name)))
  {
  }

  /** After unpublishing, a caller other than the owner gets 404, whatever size is asked for. */
  lemma UnpublishedHiddenFromOthers(
    files: map<string, FileDoc>, blobs: map<string, Bytes>, entries: map<string, Entry>,
    reader: Option<string>, id: string, size: Option<string>, mimeOf: string -> string)
    requires id in files
    requires FindUserIdByToken(entries, reader).Some?
    requires FindUserIdByToken(entries, reader).value != IdText(files[id].userId)
    ensures GetFile(WithPublic(files, id, false), blobs, entries, reader, id, size, mimeOf) == NOT_FOUND
  {
  }

  // ---------------------------------------------------------------------------
  // getIndex
  // ---------------------------------------------------------------------------

  /** `parseInt(req.query.page, 10) || 0`: NaN (also for a missing page) counts as 0. */
  function PageNumber(page: Option<string>): (n: int)
    ensures page.None? ==> n == 0
    ensures page.Some? && ParseInt(page.value).None? ==> n == 0
    ensures page.Some? && ParseInt(page.value).Some? ==> n == ParseInt(page.value).value
  {
    if page.None? then 0
    else match ParseInt(page.value)
      case None => 0
      case Some(k) => k
  }

  /** A non-numeric page counts as page 0. */
  lemma NonNumericPageIsFirst(page: string)
    requires !DigitFollows(page)
    ensures PageNumber(Some(page)) == 0
  {
    NoLeadingDigit(page);
  }

  /** `req.query.parentId ? ObjectId(parentId) : 0`, the parent value the listing query matches. */
  function ParentFilter(parentQuery: Option<string>): IdVal {
    if Truthy(parentQuery) then Oid(parentQuery.value) else Zero
  }

  /** `.skip(page * 20).limit(20)`. */
  function Page(s: seq<string>, page: nat): (p: seq<string>)
    ensures |p| <= PAGE_SIZE
    ensures page * PAGE_SIZE >= |s| ==> p == []
    ensures p != [] ==> page * PAGE_SIZE + |p| <= |s|
    ensures |p| == PAGE_SIZE || page * PAGE_SIZE + |p| == |s| || p == []
    ensures page * PAGE_SIZE < |s| ==>
              |p| == (if |s| - page * PAGE_SIZE < PAGE_SIZE then |s| - page * PAGE_SIZE else PAGE_SIZE)
    ensures forall i :: 0 <= i < |p| ==> p[i] == s[page * PAGE_SIZE + i]
  {
    var start := page * PAGE_SIZE;
    if start >= |s| then []
    else if start + PAGE_SIZE <= |s| then s[start..start + PAGE_SIZE]
    else s[start..]
  }

  /** Where page `page` starts: `page * 20`, or the end of the results. */
  function Bound(s: seq<string>, page: nat): (b: nat)
    ensures b <= |s|
    ensures page * PAGE_SIZE <= |s| ==> b == page * PAGE_SIZE
    ensures page * PAGE_SIZE > |s| ==> b == |s|
  {
    if page * PAGE_SIZE <= |s| then page * PAGE_SIZE else |s|
  }

  /** A page is the slice of the results between where it starts and where the next one starts. */
  lemma PageSlice(s: seq<string>, page: nat)
    ensures Bound(s, page) <= Bound(s, page + 1)
    ensures Page(s, page) == s[Bound(s, page)..Bound(s, page + 1)]
  {
    assert (page + 1) * PAGE_SIZE == page * PAGE_SIZE + PAGE_SIZE;
  }

  /** The first `k` pages, one after another. */
  function Pages(s: seq<string>, k: nat): seq<string> {
    if k == 0 then [] else Pages(s, k - 1) + Page(s, k - 1)
  }

  /** A prefix followed by the slice after it is the longer prefix. */
  lemma PrefixSplit(s: seq<string>, lo: nat, hi: nat)
    requires lo <= hi <= |s|
    ensures s[..lo] + s[lo..hi] == s[..hi]
  {
  }

  /** Pages 0..k-1 together are exactly the first k*20 results (or all of them). */
  lemma {:induction false} PagesArePrefix(s: seq<string>, k: nat)
    ensures Pages(s, k) == s[..Bound(s, k)]
  {
    if k > 0 {
      PagesArePrefix(s, k - 1);
      PageSlice(s, k - 1);
      PrefixSplit(s, Bound(s, k - 1), Bound(s, k));
    }
  }

  /** ceil(n / 20): the fewest pages that hold `n` results. */
  function PageCount(n: nat): (c: nat)
    ensures c * PAGE_SIZE >= n
    ensures c == 0 || (c - 1) * PAGE_SIZE < n
  {
    (n + PAGE_SIZE - 1) / PAGE_SIZE
  }

  /** Listing pages 0..N-1 with N = ceil(n/20) yields every result once, in order, and page N is empty. */
  lemma PagesExhaustive(s: seq<string>)
    ensures Pages(s, PageCount(|s|)) == s && Page(s, PageCount(|s|)) == []
  {
    var n := PageCount(|s|);
    PagesArePrefix(s, n);
    assert n * PAGE_SIZE >= |s|;
  }

  /** The projection of a listed document: ids as text, and the root parent as the number 0. */
  function Summarize(id: string, doc: FileDoc): (s: Summary)
    ensures s.id == id && s.userId == IdText(doc.userId)
    ensures s.name == doc.name && s.kind == doc.kind && s.isPublic == doc.isPublic
    ensures s.parentId == RootZero <==> doc.parentId == Zero
    ensures s.parentId != RootZero ==> s.parentId == ParentText(IdText(doc.parentId))
  {
    Summary(id, IdText(doc.userId), doc.name, doc.kind, doc.isPublic,
            if doc.parentId == Zero then RootZero else ParentText(IdText(doc.parentId)))
  }

  function Summaries(files: map<string, FileDoc>, ids: seq<string>): (items: seq<Summary>)
    requires forall x :: x in ids ==> x in files
    ensures |items| == |ids|
    ensures forall i :: 0 <= i < |ids| ==> items[i] == Summarize(ids[i], files[ids[i]])
  {
    if |ids| == 0 then [] else [Summarize(ids[0], files[ids[0]])] + Summaries(files, ids[1..])
  }

  /** `getIndex`: page `page` of the caller's documents under the requested parent, in store order. A
      negative page makes the store reject the skip, which nothing catches. */
  function GetIndex(
    files: map<string, FileDoc>, order: seq<string>, entries: map<string, Entry>,
    token: Option<string>, parentQuery: Option<string>, pageQuery: Option<string>)
    : (r: Response)
    ensures FindUserIdByToken(entries, token).None? ==> r == UNAUTHORIZED
    ensures FindUserIdByToken(entries, token).Some? ==> (r == Crashed <==> PageNumber(pageQuery) < 0)
    ensures FindUserIdByToken(entries, token).Some? && PageNumber(pageQuery) >= 0 ==>
              r.Reply? && r.status == 200 && r.body.Listing?
    ensures FindUserIdByToken(entries, token).Some? && PageNumber(pageQuery) >= 0 ==>
              ListedIds(r)
                == Page(Matching(files, order, Oid(FindUserIdByToken(entries, token).value), ParentFilter(parentQuery)),
                        PageNumber(pageQuery))
    ensures r.Reply? && r.status == 200 ==>
              var uid := FindUserIdByToken(entries, token).value;
              && r.body.Listing? && |r.body.items| <= PAGE_SIZE
              && forall i :: 0 <= i < |r.body.items| ==>
                   var item := r.body.items[i];
                   && item.id in files && OwnedBy(files[item.id], uid)
                   && files[item.id].parentId == ParentFilter(parentQuery)
                   && item == Summarize(item.id, files[item.id])
  {
    match FindUserIdByToken(entries, token)
    case None => UNAUTHORIZED
    case Some(uid) =>
      var page := PageNumber(pageQuery);
      if page < 0 then Crashed
      else
        var all := Matching(files, order, Oid(uid), ParentFilter(parentQuery));
        var ids := Page(all, page);
        assert forall x :: x in ids ==> x in all;
        var r := Reply(200, Listing(Summaries(files, ids)));
        assert ListedIds(r) == ids;
        r
  }

  /** The ids a listing response holds. */
  function ListedIds(r: Response): seq<string> {
    if r.Reply? && r.body.Listing? then seq(|r.body.items|, i requires 0 <= i < |r.body.items| => r.body.items[i].id)
    else []
  }

  /** `GET /files` without a page, or with a page text that holds no number, lists the first page. */
  lemma DefaultPageIsFirst(
    files: map<string, FileDoc>, order: seq<string>, entries: map<string, Entry>,
    token: Option<string>, parentQuery: Option<string>, pageQuery: Option<string>)
    requires FindUserIdByToken(entries, token).Some?
    requires pageQuery.None? || !DigitFollows(pageQuery.value)
    ensures GetIndex(files, order, entries, token, parentQuery, pageQuery).Reply?
    ensures GetIndex(files, order, entries, token, parentQuery, pageQuery).status == 200
    ensures ListedIds(GetIndex(files, order, entries, token, parentQuery, pageQuery))
              == Page(Matching(files, order, Oid(FindUserIdByToken(entries, token).value), ParentFilter(parentQuery)), 0)
  {
    if pageQuery.Some? {
      NonNumericPageIsFirst(pageQuery.value);
    }
  }

  /** The page parameter written as the text of k names page k. */
  lemma PageNumberOfText(k: nat)
    ensures PageNumber(Some(DecimalText(k))) == k
  {
    ParseIntDecimal(k, []);
    assert DecimalText(k) + [] == DecimalText(k);
  }

  /** The page parameter written as `-` and the text of k names page -k. */
  lemma PageNumberOfNegativeText(k: nat)
    ensures PageNumber(Some(['-'] + DecimalText(k))) == -(k as int)
  {
    var d := DecimalText(k);
    ParseIntNegative(d, []);
    assert d + [] == d;
    DecimalValue(k);
  }

  /** With a session, a page written as `-` and the text of k >= 1 makes `getIndex` fail: the store
      rejects the negative skip. */
  lemma NegativePageCrashes(
    files: map<string, FileDoc>, order: seq<string>, entries: map<string, Entry>,
    token: Option<string>, parentQuery: Option<string>, k: nat)
    requires FindUserIdByToken(entries, token).Some?
    requires k >= 1
    ensures GetIndex(files, order, entries, token, parentQuery, Some(['-'] + DecimalText(k))) == Crashed
  {
    PageNumberOfNegativeText(k);
  }

  /** Page k requested as the text of k lists exactly the k-th slice of the caller's matching documents. */
  lemma IndexPageIds(
    files: map<string, FileDoc>, order: seq<string>, entries: map<string, Entry>,
    token: Option<string>, parentQuery: Option<string>, k: nat)
    requires FindUserIdByToken(entries, token).Some?
    ensures var uid := FindUserIdByToken(entries, token).value;
            ListedIds(GetIndex(files, order, entries, token, parentQuery, Some(DecimalText(k))))
              == Page(Matching(files, order, Oid(uid), ParentFilter(parentQuery)), k)
    ensures GetIndex(files, order, entries, token, parentQuery, Some(DecimalText(k))).Reply?
    ensures GetIndex(files, order, entries, token, parentQuery, Some(DecimalText(k))).body.Listing?
  {
    PageNumberOfText(k);
  }

  /** A page whose slice is empty, requested as the text of its number, is a 200 with an empty listing. */
  lemma EmptyPageListsNothing(
    files: map<string, FileDoc>, order: seq<string>, entries: map<string, Entry>,
    token: Option<string>, parentQuery: Option<string>, k: nat)
    requires FindUserIdByToken(entries, token).Some?
    requires Page(Matching(files, order, Oid(FindUserIdByToken(entries, token).value), ParentFilter(parentQuery)), k) == []
    ensures GetIndex(files, order, entries, token, parentQuery, Some(DecimalText(k))) == Reply(200, Listing([]))
  {
    IndexPageIds(files, order, entries, token, parentQuery, k);
    var r := GetIndex(files, order, entries, token, parentQuery, Some(DecimalText(k)));
    assert |ListedIds(r)| == |r.body.items| == 0;
  }

  /** Every page below `n`, requested as the text of its number, lists its slice of the result. */
  lemma IndexPagesBelow(
    files: map<string, FileDoc>, order: seq<string>, entries: map<string, Entry>,
    token: Option<string>, parentQuery: Option<string>, all: seq<string>, n: nat)
    requires FindUserIdByToken(entries, token).Some?
    requires all == Matching(files, order, Oid(FindUserIdByToken(entries, token).value), ParentFilter(parentQuery))
    ensures forall i: nat :: i < n ==>
              ListedIds(GetIndex(files, order, entries, token, parentQuery, Some(DecimalText(i)))) == Page(all, i)
  {
    forall i: nat | i < n
      ensures ListedIds(GetIndex(files, order, entries, token, parentQuery, Some(DecimalText(i)))) == Page(all, i)
    {
      IndexPageIds(files, order, entries, token, parentQuery, i);
    }
  }

  /** Requesting pages 0, 1, ... until the first empty one lists every document of the caller under that
      parent, in store order: the slices of pages 0..n-1 (each listed as IndexPagesBelow states) together
      are the whole result, and page n lists nothing. */
  lemma ListingExhaustive(
    files: map<string, FileDoc>, order: seq<string>, entries: map<string, Entry>,
    token: Option<string>, parentQuery: Option<string>)
    requires FindUserIdByToken(entries, token).Some?
    ensures var all := Matching(files, order, Oid(FindUserIdByToken(entries, token).value), ParentFilter(parentQuery));
            && Pages(all, PageCount(|all|)) == all
            && GetIndex(files, order, entries, token, parentQuery, Some(DecimalText(PageCount(|all|))))
                 == Reply(200, Listing([]))
  {
    var all := Matching(files, order, Oid(FindUserIdByToken(entries, token).value), ParentFilter(parentQuery));
    PagesExhaustive(all);
    EmptyPageListsNothing(files, order, entries, token, parentQuery, PageCount(|all|));
  }
}
