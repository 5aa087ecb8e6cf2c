/** The background jobs (worker.js): thumbnail generation for uploaded images and the welcome message
    for new users. */
module Worker {

  import opened Records
  import opened JsText
  import opened Storage
  import Helpers
  import Files

  /** The thumbnail widths, in the order the worker writes them. */
  const THUMBNAIL_WIDTHS: seq<nat> := [500, 250, 100]

  /** The path of the thumbnail of width `width`: `<path>_<width>`. */
  function SizedPath(path: string, width: nat): (q: string)
    ensures |q| > |path| && q[..|path|] == path
    ensures q[|path|] == '_' && q[|path| + 1..] == DecimalText(width)
  {
    path + "_" + DecimalText(width)
  }

  /** Thumbnails of different widths never share a path, and none overwrites the original. */
  lemma SizedPathInjective(path: string, a: nat, b: nat)
    ensures SizedPath(path, a) == SizedPath(path, b) <==> a == b
    ensures SizedPath(path, a) != path
  {
    if SizedPath(path, a) == SizedPath(path, b) {
      assert DecimalText(a) == SizedPath(path, a)[|path| + 1..];
      DecimalTextInjective(a, b);
    }
  }

  /** `imageThumb(path, {width})`: reads the blob at `path` and resizes it with `resize`, which stands for
      the image library; None when the blob is missing or the library fails. */
  function Thumbnail(blobs: map<string, Bytes>, path: string, width: nat, resize: (Bytes, nat) -> Option<Bytes>)
    : (t: Option<Bytes>)
    ensures path !in blobs ==> t.None?
    ensures path in blobs ==> t == resize(blobs[path], width)
  {
    if path in blobs then resize(blobs[path], width) else None
  }

  /** The blob store after writing the thumbnails for `widths` one after another, stopping at the first
      that fails, and whether all of them were written. Only thumbnail paths are added or changed. */
  function Derive(blobs: map<string, Bytes>, path: string, widths: seq<nat>, resize: (Bytes, nat) -> Option<Bytes>)
    : (out: (map<string, Bytes>, bool))
    ensures out.1 && widths != [] ==> path in blobs
    ensures !out.1 ==> widths != []
    decreases |widths|
  {
    if widths == [] then (blobs, true)
    else
      match Thumbnail(blobs, path, widths[0], resize)
      case None => (blobs, false)
      case Some(t) => Derive(blobs[SizedPath(path, widths[0]) := t], path, widths[1..], resize)
  }

  /** A run only adds or changes thumbnail paths: every other blob keeps its bytes, none is removed. */
  lemma {:induction false} DeriveFrame(
    blobs: map<string, Bytes>, path: string, widths: seq<nat>, resize: (Bytes, nat) -> Option<Bytes>)
    ensures var out := Derive(blobs, path, widths, resize).0;
            && (forall k :: k in blobs ==> k in out)
            && (forall k :: k in out && k !in blobs ==> exists w :: w in widths && k == SizedPath(path, w))
            && (forall k :: k in blobs && (forall w :: w in widths ==> k != SizedPath(path, w)) ==> out[k] == blobs[k])
    decreases |widths|
  {
    if widths != [] && Thumbnail(blobs, path, widths[0], resize).Some? {
      var t := Thumbnail(blobs, path, widths[0], resize).value;
      DeriveFrame(blobs[SizedPath(path, widths[0]) := t], path, widths[1..], resize);
      assert forall w :: w in widths[1..] ==> w in widths;
    }
  }

  /** One step of the run: the first thumbnail is written, then the rest continue from there. */
  lemma DeriveStep(blobs: map<string, Bytes>, path: string, widths: seq<nat>, resize: (Bytes, nat) -> Option<Bytes>)
    requires widths != [] && Thumbnail(blobs, path, widths[0], resize).Some?
    ensures Derive(blobs, path, widths, resize)
         == Derive(blobs[SizedPath(path, widths[0]) := Thumbnail(blobs, path, widths[0], resize).value], path, widths[1..], resize)
  {
  }

  /** A successful run writes every width, each made from the original's bytes, which stay in place. */
  lemma {:induction false} DeriveComplete(
    blobs: map<string, Bytes>, path: string, widths: seq<nat>, resize: (Bytes, nat) -> Option<Bytes>)
    requires Derive(blobs, path, widths, resize).1 && widths != []
    ensures var out := Derive(blobs, path, widths, resize).0;
            && path in blobs && path in out && out[path] == blobs[path]
            && forall w :: w in widths ==>
                 SizedPath(path, w) in out && resize(blobs[path], w) == Some(out[SizedPath(path, w)])
    decreases |widths|
  {
    var out := Derive(blobs, path, widths, resize).0;
    var t := Thumbnail(blobs, path, widths[0], resize).value;
    var next := blobs[SizedPath(path, widths[0]) := t];
    SizedPathInjective(path, widths[0], widths[0]);
    assert next[path] == blobs[path];
    forall w | w in widths
      ensures path !in blobs || path != SizedPath(path, w)
    {
      SizedPathInjective(path, w, w);
    }
    DeriveFrame(next, path, widths[1..], resize);
    if widths[1..] != [] {
      DeriveComplete(next, path, widths[1..], resize);
    }
    forall w | w in widths
      ensures SizedPath(path, w) in out && resize(blobs[path], w) == Some(out[SizedPath(path, w)])
    {
      if w !in widths[1..] {
        assert w == widths[0];
        forall v | v in widths[1..]
          ensures SizedPath(path, w) != SizedPath(path, v)
        {
          SizedPathInjective(path, w, v);
        }
      }
    }
  }

  /** The three writes fail fast: the widths before the first failure stay written, the failing width and
      those after it are not written. */
  lemma DeriveFailFast(blobs: map<string, Bytes>, path: string, resize: (Bytes, nat) -> Option<Bytes>)
    ensures var out := Derive(blobs, path, THUMBNAIL_WIDTHS, resize);
            var t500 := Thumbnail(blobs, path, 500, resize);
            var t250 := Thumbnail(blobs, path, 250, resize);
            var t100 := Thumbnail(blobs, path, 100, resize);
            && (t500.None? ==> out == (blobs, false))
            && (t500.Some? && t250.None? ==>
                  out == (blobs[SizedPath(path, 500) := t500.value], false))
            && (t500.Some? && t250.Some? && t100.None? ==>
                  out == (blobs[SizedPath(path, 500) := t500.value][SizedPath(path, 250) := t250.value], false))
            && (t500.Some? && t250.Some? && t100.Some? ==>
                  out == (blobs[SizedPath(path, 500) := t500.value][SizedPath(path, 250) := t250.value]
                               [SizedPath(path, 100) := t100.value], true))
  {
    SizedPathInjective(path, 500, 500);
    SizedPathInjective(path, 250, 250);
    var t500 := Thumbnail(blobs, path, 500, resize);
    var t250 := Thumbnail(blobs, path, 250, resize);
    if t500.Some? {
      var b1 := blobs[SizedPath(path, 500) := t500.value];
      assert Thumbnail(b1, path, 250, resize) == t250;
      assert THUMBNAIL_WIDTHS[1..] == [250, 100];
      DeriveStep(blobs, path, THUMBNAIL_WIDTHS, resize);
      if t250.Some? {
        var b2 := b1[SizedPath(path, 250) := t250.value];
        assert Thumbnail(b2, path, 100, resize) == Thumbnail(blobs, path, 100, resize);
        assert [250, 100][1..] == [100];
        assert [100][1..] == [];
        DeriveStep(b1, path, [250, 100], resize);
      }
    }
  }

  /** Running the thumbnail job again over the store a successful run left rewrites the same bytes: the
      store stays as it is. */
  lemma {:induction false} DeriveIdempotent(
    blobs: map<string, Bytes>, done: map<string, Bytes>, path: string, widths: seq<nat>,
    resize: (Bytes, nat) -> Option<Bytes>)
    requires Derive(blobs, path, widths, resize) == (done, true)
    ensures Derive(done, path, widths, resize) == (done, true)
    decreases |widths|
  {
    if widths != [] {
      DeriveComplete(blobs, path, widths, resize);
      var t := Thumbnail(blobs, path, widths[0], resize).value;
      var next := blobs[SizedPath(path, widths[0]) := t];
      DeriveStep(blobs, path, widths, resize);
      assert widths[0] in widths;
      assert path in done && done[path] == blobs[path];
      assert Thumbnail(done, path, widths[0], resize) == Some(t);
      assert SizedPath(path, widths[0]) in done && done[SizedPath(path, widths[0])] == t;
      assert done[SizedPath(path, widths[0]) := t] == done;
      DeriveIdempotent(next, done, path, widths[1..], resize);
      DeriveStep(done, path, widths, resize);
    }
  }

  datatype Reason = MissingFileId | MissingUserId | FileNotFound | UserNotFound | ThumbnailFailed

  datatype Outcome = Done | Welcomed(message: string) | Failed(reason: Reason)

  /** One step of the thumbnail job: `fs.writeFileSync(\`${path}_${width}\`, await imageThumb(path, {width}))`. */
  method WriteThumbnail(disk: Disk, path: string, width: nat, resize: (Bytes, nat) -> Option<Bytes>)
    returns (ok: bool)
    modifies disk
    ensures ok == Thumbnail(old(disk.blobs), path, width, resize).Some?
    ensures ok ==> disk.blobs == old(disk.blobs)[SizedPath(path, width) := Thumbnail(old(disk.blobs), path, width, resize).value]
    ensures !ok ==> disk.blobs == old(disk.blobs)
  {
    var t := Thumbnail(disk.blobs, path, width, resize);
    if t.None? {
      return false;
    }
    disk.WriteFile(SizedPath(path, width), t.value);
    ok := true;
  }

  /** The `fileQueue` handler: the job needs both ids, the file is looked up by id and owner, and its
      thumbnails of widths 500, 250 and 100 are written next to it, in that order; every error is logged
      and ends the job. A document without a local path has nothing to resize. */
  method ProcessFileJob(db: Db, disk: Disk, job: ThumbJob, resize: (Bytes, nat) -> Option<Bytes>)
    returns (outcome: Outcome)
    modifies disk
    ensures !Truthy(job.fileId) ==> outcome == Failed(MissingFileId) && disk.blobs == old(disk.blobs)
    ensures Truthy(job.fileId) && !Truthy(job.userId) ==> outcome == Failed(MissingUserId) && disk.blobs == old(disk.blobs)
    ensures Truthy(job.fileId) && Truthy(job.userId) && FindOwned(db.files, job.fileId.value, job.userId.value).None? ==>
              outcome == Failed(FileNotFound) && disk.blobs == old(disk.blobs)
    ensures Truthy(job.fileId) && Truthy(job.userId) && FindOwned(db.files, job.fileId.value, job.userId.value).Some? ==>
              var doc := FindOwned(db.files, job.fileId.value, job.userId.value).value;
              && outcome in {Done, Failed(ThumbnailFailed)}
              && (doc.localPath.None? ==> outcome == Failed(ThumbnailFailed) && disk.blobs == old(disk.blobs))
              && (doc.localPath.Some? ==>
                    (disk.blobs, outcome == Done) == Derive(old(disk.blobs), doc.localPath.value, THUMBNAIL_WIDTHS, resize))
    ensures outcome == Done || outcome.Failed?
    ensures outcome == Done ==>
              var doc := db.files[job.fileId.value];
              && FindOwned(db.files, job.fileId.value, job.userId.value) == Some(doc)
              && doc.localPath.Some?
              && (disk.blobs, true) == Derive(old(disk.blobs), doc.localPath.value, THUMBNAIL_WIDTHS, resize)
    ensures outcome == Failed(ThumbnailFailed) ==>
              var doc := db.files[job.fileId.value];
              && FindOwned(db.files, job.fileId.value, job.userId.value) == Some(doc)
              && (doc.localPath.None? ==> disk.blobs == old(disk.blobs))
              && (doc.localPath.Some? ==>
                    (disk.blobs, false) == Derive(old(disk.blobs), doc.localPath.value, THUMBNAIL_WIDTHS, resize))
  {
    if !Truthy(job.fileId) {
      return Failed(MissingFileId);
    }
    if !Truthy(job.userId) {
      return Failed(MissingUserId);
    }
    var file := FindOwned(db.files, job.fileId.value, job.userId.value);
    if file.None? {
      return Failed(FileNotFound);
    }
    if file.value.localPath.None? {
      // `imageThumb(undefined, ...)` rejects.
      return Failed(ThumbnailFailed);
    }
    var path := file.value.localPath.value;
    ghost var b0 := disk.blobs;
    var ok := WriteThumbnail(disk, path, 500, resize);
    if !ok {
      return Failed(ThumbnailFailed);
    }
    ghost var b1 := disk.blobs;
    ok := WriteThumbnail(disk, path, 250, resize);
    if !ok {
      assert Derive(b1, path, [250, 100], resize) == (b1, false);
      assert THUMBNAIL_WIDTHS[1..] == [250, 100];
      return Failed(ThumbnailFailed);
    }
    ghost var b2 := disk.blobs;
    ok := WriteThumbnail(disk, path, 100, resize);
    assert Derive(disk.blobs, path, [], resize) == (disk.blobs, true);
    assert [100][1..] == [];
    assert Derive(b2, path, [100], resize) == (disk.blobs, ok);
    assert [250, 100][1..] == [100];
    assert Derive(b1, path, [250, 100], resize) == (disk.blobs, ok);
    assert THUMBNAIL_WIDTHS[1..] == [250, 100];
    outcome := if ok then Done else Failed(ThumbnailFailed);
  }

  /** Once the thumbnail job is done, the owner's `GET /files/:id/data?size=250` serves `<path>_250`. */
  lemma ThumbnailServedAfterJob(
    files: map<string, FileDoc>, blobs: map<string, Bytes>, entries: map<string, Entry>,
    token: Option<string>, id: string, uid: string, path: string,
    resize: (Bytes, nat) -> Option<Bytes>, mimeOf: string -> string)
    requires id in files && files[id].userId == Oid(uid) && files[id].kind == Image
    requires files[id].localPath == Some(path)
    requires Helpers.FindUserIdByToken(entries, token) == Some(uid)
    requires Derive(blobs, path, THUMBNAIL_WIDTHS, resize).1
    ensures Files.GetFile(files, Derive(blobs, path, THUMBNAIL_WIDTHS, resize).0, entries, token, id, Some("250"), mimeOf)
         == Reply(200, Content(SizedPath(path, 250), mimeOf(files[id].name)))
  {
    var done := Derive(blobs, path, THUMBNAIL_WIDTHS, resize).0;
    DeriveComplete(blobs, path, THUMBNAIL_WIDTHS, resize);
    assert 250 in THUMBNAIL_WIDTHS;
    Render250();
    assert SizedPath(path, 250) == path + "_" + "250";
    assert SizedPath(path, 250) in done;
    Files.OwnerReadsSizedBlob(files, done, entries, token, id, path, "250", mimeOf);
  }

  /** The width 250 renders as the query text "250". */
  lemma Render250()
    ensures DecimalText(250) == "250"
  {
    assert DecimalText(25) == "25";
  }

  /** The `userQueue` handler: the welcome line for the user the job names, or the logged error. */
  function ProcessUserJob(users: map<string, UserDoc>, job: WelcomeJob): (outcome: Outcome)
    ensures !Truthy(job.userId) ==> outcome == Failed(MissingUserId)
    ensures Truthy(job.userId) && job.userId.value !in users ==> outcome == Failed(UserNotFound)
    ensures Truthy(job.userId) && job.userId.value in users ==> outcome.Welcomed?
    ensures outcome.Welcomed? ==>
              Truthy(job.userId) && job.userId.value in users
              && outcome.message == "Welcome " + users[job.userId.value].email + "!"
  {
    if !Truthy(job.userId) then Failed(MissingUserId)
    else if job.userId.value !in users then Failed(UserNotFound)
    else Welcomed("Welcome " + users[job.userId.value].email + "!")
  }

  /** The job enqueued by a registration welcomes the new user by e-mail. */
  lemma RegistrationJobWelcomes(users: map<string, UserDoc>, newId: string, doc: UserDoc)
    requires newId != ""
    ensures ProcessUserJob(users[newId := doc], WelcomeJob(Some(newId))) == Welcomed("Welcome " + doc.email + "!")
  {
  }
}
