/** Values shared by the request handlers: stored documents, job payloads and HTTP responses. */
module Records {

  datatype Option<+T> = None | Some(value: T)

  /** JavaScript truthiness of an optional text field: an absent field and "" are both falsy. */
  predicate Truthy(s: Option<string>) {
    s.Some? && s.value != ""
  }

  type Bytes = seq<bv8>

  /** A value stored in an id-like document field: the number 0, a plain string, or an ObjectId (by its hex text).
      The document store never considers values of different shapes equal. */
  datatype IdVal = Zero | Str(text: string) | Oid(hex: string)

  /** `value.toString()` for an id-like field. */
  function IdText(v: IdVal): string {
    match v
    case Zero => "0"
    case Str(t) => t
    case Oid(h) => h
  }

  datatype Kind = Folder | File | Image

  /** `type` is accepted only when it is one of 'folder', 'file', 'image'. */
  function KindOf(t: Option<string>): (k: Option<Kind>)
    ensures k.Some? <==> t.Some? && t.value in ["folder", "file", "image"]
    ensures k == Some(Folder) <==> t == Some("folder")
    ensures k == Some(Image) <==> t == Some("image")
  {
    if t == Some("folder") then Some(Folder)
    else if t == Some("file") then Some(File)
    else if t == Some("image") then Some(Image)
    else None
  }

  /** A document of the files collection. `localPath` is absent for documents written without one (folders). */
  datatype FileDoc = FileDoc(
    userId: IdVal,
    name: string,
    kind: Kind,
    isPublic: bool,
    parentId: IdVal,
    localPath: Option<string>)

  /** A document of the users collection; `password` holds the SHA-1 hex digest. */
  datatype UserDoc = UserDoc(email: string, password: string)

  /** The payload of a fileQueue job; either field may be missing from a job. */
  datatype ThumbJob = ThumbJob(fileId: Option<string>, userId: Option<string>)

  /** The payload of a userQueue job. */
  datatype WelcomeJob = WelcomeJob(userId: Option<string>)

  /** How a listing renders `parentId`: the number 0 for the root, otherwise the id as a string. */
  datatype ParentView = RootZero | ParentText(id: string)

  /** One element of a listing page. */
  datatype Summary = Summary(
    id: string,
    userId: string,
    name: string,
    kind: Kind,
    isPublic: bool,
    parentId: ParentView)

  datatype Body =
    | Error(message: string)
    | Token(token: string)
    | NoContent
    | UserView(id: string, email: string)
    | Created(id: string, doc: FileDoc)
    | Doc(id: string, doc: FileDoc)
    | Listing(items: seq<Summary>)
    | Visibility(id: string, isPublic: bool)
    | Content(path: string, contentType: string)

  /** What a handler answers; `Crashed` is a handler whose promise rejects, so that no response is sent. */
  datatype Response = Reply(status: nat, body: Body) | Crashed

  const UNAUTHORIZED := Reply(401, Error("Unauthorized"))
  const NOT_FOUND := Reply(404, Error("Not found"))
}
