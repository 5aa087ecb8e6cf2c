# Files manager: a verified model of the request handlers and workers

The files manager is a small HTTP service. Users register with an e-mail and a password. They log in
with HTTP Basic credentials to get a session token, then upload folders, files and images into a tree,
list and show their own documents, publish or unpublish them, and read their content. Image uploads
are meant to queue a job that writes 500, 250 and 100 pixel thumbnails next to the original, and
registrations are meant to queue a welcome job (see "## Findings" for why neither enqueue works as
written).

This project models the handlers and the two queue processors as Dafny over abstract collaborators:

- **The document store** is the `Storage.Db` class. It holds the users and files collections as maps
  keyed by id text, each with its insertion order.
- **The session cache** is `Storage.Cache`, a map of key to (value, TTL).
- **The blob store** is `Storage.Disk`, a map of path to bytes.
- **The job queues** are `Storage.JobQueue`, an appended sequence.

The handlers that change state are methods with `modifies` clauses. Their contracts give the new state
of every collaborator in every case. The read-only handlers are functions over the collections.
Responses are `Reply(status, body)`. A handler whose promise rejects without answering is `Crashed`.

Modules, one per source file (plus shared records, string operations and collaborators):

| module | models |
|---|---|
| `Records` | the documents, jobs and response shapes |
| `JsText` | `split` on one character and `parseInt(s, 10)` |
| `Storage` | the collaborators and the store queries the handlers issue |
| `Helpers` | `utils/helpers.js` |
| `Auth` | `controllers/AppController.js` |
| `Users` | `controllers/UsersController.js` |
| `Files` | `controllers/FilesController.js` |
| `Worker` | `worker.js` |

Stored ids are modelled by how they are written, as `IdVal`:

- `Oid(hex)` is an ObjectId.
- `Str(text)` is a plain string.
- `Zero` is the number 0.

This distinction carries behaviour. `postUpload` stores a folder's `userId` and `parentId` as plain
strings, while every owner query (show, list, publish, unpublish, thumbnail lookup) matches
`userId: ObjectId(..)`, and a stored folder matches none of them (`Files.StoredFolderOwnedByNobody`;
for `getShow` in full, `Files.StoredFolderNeverShown`). The 201 response for a folder still shows the
converted ids.

Where one might expect otherwise, the model follows the code:

- `getFile` requires a session token, even for public files (401 without one).
- Folders keep raw string ids, as described above.
- A header with no space makes `getConnect` crash rather than answer 401.
- The scheme word of `Authorization` is never checked.
- A negative page such as `-1` makes `getIndex` crash: the store rejects a negative skip, and nothing
  catches it (`Files.NegativePageCrashes`).
- The e-mail ends at the first colon and the password at the next one: `a:b:c` is read as e-mail `a`
  and password `b` (`Auth.ColonFieldsVersusRfc7617` compares this with section 2 of RFC 7617).

## Model

| member | source | states |
|---|---|---|
| Records.KindOf | controllers/FilesController.js:31 | a type is accepted exactly when it is "folder", "file" or "image", each mapped to its kind |
| JsText.Split | controllers/AppController.js:13 | `split` yields at least one piece, no piece holds the separator, and one piece exactly when the separator is absent |
| JsText.JoinSplit | controllers/AppController.js:13 | joining the pieces of a split restores the text |
| JsText.SplitJoin | controllers/AppController.js:13 | splitting joined separator-free pieces restores the pieces |
| JsText.SplitWhole | controllers/AppController.js:13 | text without the separator splits into itself alone |
| JsText.SplitAtFirst | controllers/AppController.js:13 | splitting `a + sep + b` (no separator in `a`) is `a` followed by the pieces of `b` |
| JsText.SplitFirstPiece | controllers/AppController.js:13 | the first piece is a prefix of the text that ends at its end or at a separator |
| JsText.ParseIntDigits | controllers/FilesController.js:117 | a run of digits followed by a non-digit parses to the value of the digits |
| JsText.ParseIntDecimal | controllers/FilesController.js:117 | the decimal text of n, followed by any non-digit text, parses back to n |
| JsText.NoLeadingDigit | controllers/FilesController.js:117 | text with no digit after white space and sign parses to NaN |
| JsText.TrimSpaces | controllers/FilesController.js:117 | white space before a non-space character is skipped, and nothing more |
| JsText.ParseIntSkipsSpace | controllers/FilesController.js:117 | leading white space does not change what parseInt reads |
| JsText.LeadingNumberOf | controllers/FilesController.js:117 | text made of a run of digits and then a non-digit starts with the number the digits denote |
| JsText.ParseIntNumber | controllers/FilesController.js:117 | text that starts with a digit parses to the number it starts with |
| JsText.ParseIntUnsigned | controllers/FilesController.js:117 | white space, then a number with no sign, parses to that number |
| JsText.SignedNumber | controllers/FilesController.js:117 | after the white space, a sign followed by a number gives that number, negated for `-` |
| JsText.ParseIntAfterSign | controllers/FilesController.js:117 | a `-` or `+` directly before a number parses to that number, negated for `-` |
| JsText.ParseIntWithSign | controllers/FilesController.js:117 | white space, one `-` or `+`, then a number parses to that number, negated for `-` |
| JsText.ParseIntMinus | controllers/FilesController.js:117 | `-` before text whose number is the value of the digits `d` parses to minus that value |
| JsText.ParseIntNegative | controllers/FilesController.js:117 | `-`, then digits up to a non-digit, parses to minus the value of the digits |
| JsText.TrimStartSuffix | controllers/FilesController.js:117 | what is left after the white space is a suffix of the text |
| JsText.DecimalTextInjective | controllers/FilesController.js:117 | different numbers have different decimal texts |
| Storage.Db.InsertFile | controllers/FilesController.js:67 | insertOne adds the document under a fresh id at the end of natural order, users untouched |
| Storage.Db.InsertUser | controllers/UsersController.js:27 | insertOne adds the user under a fresh id at the end of natural order, files untouched |
| Storage.Db.SetIsPublic | controllers/FilesController.js:157-158 | `$set: {isPublic}` changes that flag of that document only |
| Storage.WithPublic | controllers/FilesController.js:183-184 | same keys; the addressed document gets the flag; every other document is unchanged |
| Storage.PublishIdempotent | controllers/FilesController.js:157-158 | setting the flag twice equals setting it once |
| Storage.FindOwned | controllers/FilesController.js:89-92 | findOne by id and ObjectId owner finds the document exactly when it exists with that ObjectId owner |
| Storage.FindUser | controllers/AppController.js:20 | a returned user is stored, in order, and matches; None means no user in order matches |
| Storage.FindUserComplete | controllers/UsersController.js:19-20 | with a full index, findOne misses exactly when no user matches |
| Storage.Matching | controllers/FilesController.js:119 | find returns exactly the ids of documents with that owner and parent value |
| Storage.MatchingInOrder | controllers/FilesController.js:119 | find returns documents in natural order: of two results, the earlier one sits earlier in that order |
| Storage.MatchingNoDuplicates | controllers/FilesController.js:119 | find never returns a document twice |
| Storage.Cache.Set | controllers/AppController.js:26 | set writes the key with its value and TTL, nothing else |
| Storage.Cache.Del | controllers/AppController.js:38 | del removes exactly that key |
| Storage.Disk.WriteFile | controllers/FilesController.js:65 | writeFile creates or overwrites exactly that path |
| Storage.JobQueue.Add | controllers/FilesController.js:70 | add appends exactly one job |
| Helpers.SessionKey | utils/helpers.js:10 | the session key is `auth_` followed by the token |
| Helpers.SessionKeyInjective | utils/helpers.js:10 | two tokens share a session key only if they are equal |
| Helpers.FindUserIdByToken | utils/helpers.js:5-14 | null for a missing or empty token or an absent or empty cache value, else the stored user id |
| Helpers.ResolveAfterSet | controllers/AppController.js:26 | after a session is written the token resolves to its user, and other tokens resolve as before |
| Helpers.ResolveAfterDelete | controllers/AppController.js:38 | after a session is deleted the token no longer resolves, and other tokens resolve as before |
| Auth.ColonFields | controllers/AppController.js:13 | the e-mail is a prefix of the text that ends at its end or at its first colon; the password is missing exactly when there is no colon and never holds a colon |
| Auth.Rfc7617Fields | controllers/AppController.js:13 | the RFC 7617 reading: user-id up to the first colon, password the whole rest |
| Auth.ColonFieldsVersusRfc7617 | controllers/AppController.js:13 | the handler agrees with RFC 7617 on the e-mail, and on the password exactly when it holds no colon |
| Auth.PasswordTruncatedAtColon | controllers/AppController.js:13 | a password `p1:p2` is read as `p1` |
| Auth.ReadAuthorization | controllers/AppController.js:8-13 | an empty or missing header is absent; a header without a space has no second word (crash) |
| Auth.ReadBasicHeader | controllers/AppController.js:13 | `<scheme> <encoded>`, alone or followed by more space-separated words, decodes its second word `encoded`, whatever the scheme says |
| Auth.Authenticate | controllers/AppController.js:8-23 | access is granted only to a stored user with that e-mail and the SHA-1 of that password; a header without a space crashes |
| Auth.LoginIffRegistered | controllers/AppController.js:19-23 | with non-empty fields, login succeeds exactly when such a user exists |
| Auth.GetConnect | controllers/AppController.js:7-28 | 401 and no write when denied; on success one `auth_<token>` write with a 24-hour TTL, after which the token resolves |
| Auth.DisconnectKey | controllers/AppController.js:31-32 | a missing token is looked up as `auth_undefined` |
| Auth.GetDisconnect | controllers/AppController.js:30-40 | 204 and exactly that key deleted when it holds a session, else 401 and nothing changed; afterwards it never resolves |
| Auth.DisconnectTwice | controllers/AppController.js:30-40 | a second logout with the same token answers 401 |
| Users.RegistrationError | controllers/UsersController.js:10-23 | missing e-mail, then missing password, then an e-mail already used, in that order |
| Users.RegistrationAccepted | controllers/UsersController.js:19-23 | registration proceeds exactly when both fields are present and no user has that e-mail |
| Users.PostNew | controllers/UsersController.js:7-39 | the user is stored with the SHA-1 of the password; 201 with id and e-mail; one welcome job; e-mails stay unique; rejections change nothing |
| Users.PostNewAsWritten | controllers/UsersController.js:33 | an accepted registration stores the user and then answers 500 with no job |
| Users.GetMe | controllers/UsersController.js:41-62 | 200 with the session's id and stored e-mail when the user exists, else 401 |
| Users.RegisteredUserLogsIn | controllers/UsersController.js:24-27 | a registered e-mail and password log in as that user |
| Files.WellFormedInsert | controllers/FilesController.js:38-42 | adding a document whose parent is the root or a stored folder keeps the tree well formed |
| Files.WellFormedPublish | controllers/FilesController.js:157-158 | changing visibility keeps the tree well formed |
| Files.CheckUpload | controllers/FilesController.js:12-42 | 401, then missing name, type, data (not for folders), then parent not found or not a folder; accepted exactly when all pass |
| Files.StoredFolderOwnedByNobody | controllers/FilesController.js:53-55 | a folder stored with a string owner matches no ObjectId owner query |
| Files.StoreUpload | controllers/FilesController.js:44-74 | a folder is stored with raw ids and no blob; a file's data is written at `<folder>/<uuid>`, then stored with ObjectId ids; the tree stays well formed |
| Files.PostUpload | controllers/FilesController.js:11-75 | rejections change nothing; 201 with the converted document; an image enqueues one job naming a stored image |
| Files.PostUploadAsWritten | controllers/FilesController.js:11-75 | rejections change nothing; a folder or file is stored and answered 201 as in PostUpload; an accepted image upload writes the blob, inserts the document at the end of natural order, then crashes with no job |
| Files.GetShow | controllers/FilesController.js:77-98 | 401 without a session; the document only when the caller owns it as ObjectId, else 404 |
| Files.StoredFolderNeverShown | controllers/FilesController.js:89-92 | a folder as stored by postUpload is shown to nobody |
| Files.SetVisibility | controllers/FilesController.js:136-187 | 401 or 404 with nothing changed; for the caller's own document, `{id, isPublic}` and only that flag set |
| Files.SetVisibilityOnlyTouchesFlag | controllers/FilesController.js:157-158 | no document other than the addressed one changes, and only its flag |
| Files.SetVisibilityIdempotent | controllers/FilesController.js:183-184 | a repeated publish or unpublish gives the same answer and state |
| Files.PutVisibility | controllers/FilesController.js:136-187 | the new state and answer are those of SetVisibility; the tree stays well formed |
| Files.PutPublish | controllers/FilesController.js:136-161 | SetVisibility with true |
| Files.PutUnpublish | controllers/FilesController.js:163-187 | SetVisibility with false |
| Files.ContentPath | controllers/FilesController.js:211-214 | a size appends `_<size>` ("undefined" when no path is stored); otherwise the stored path |
| Files.GetFile | controllers/FilesController.js:189-222 | 401, then 404 unless public or owned, then 400 for folders; a readable file gets 200 with the name's MIME type exactly when its path is in the blob store, else 404; never crashes |
| Files.GetFileAsWritten | controllers/FilesController.js:201-203 | crashes exactly for an authenticated request with an unknown id, else as GetFile |
| Files.UnknownIdCrashesAsWritten | controllers/FilesController.js:201-203 | an unknown id crashes the handler where 404 is intended |
| Files.OwnerReadsSizedBlob | controllers/FilesController.js:211-221 | the owner reads `<path>_<size>` whenever it is in the blob store |
| Files.PublishedReadableByAnyone | controllers/FilesController.js:203 | after publishing, any caller with a session reads the file |
| Files.UnpublishedHiddenFromOthers | controllers/FilesController.js:203 | after unpublishing, every caller but the owner gets 404 |
| Files.PageNumber | controllers/FilesController.js:117 | NaN or a missing page counts as 0; otherwise the parsed number |
| Files.NonNumericPageIsFirst | controllers/FilesController.js:117 | a page text that does not start with a number means page 0 |
| Files.Page | controllers/FilesController.js:120-121 | the results at offset `page * 20` onward, 20 of them or as many as remain, empty past the end |
| Files.PagesArePrefix | controllers/FilesController.js:120-121 | pages 0..k-1 together are the first 20k results, or all of them |
| Files.Bound | controllers/FilesController.js:120 | a page starts at `page * 20`, or at the end when that is past it |
| Files.PageSlice | controllers/FilesController.js:120-121 | a page is the slice between its start and the next page's start |
| Files.PageCount | controllers/FilesController.js:120-121 | the fewest pages of 20 that hold n results |
| Files.PagesExhaustive | controllers/FilesController.js:120-121 | ceil(n/20) pages list all n results in order, and the next page is empty |
| Files.Summarize | controllers/FilesController.js:124-131 | the summary shows ids as text and the root parent as 0 |
| Files.Summaries | controllers/FilesController.js:124 | one summary per listed id, in order |
| Files.GetIndex | controllers/FilesController.js:100-134 | 401 without a session; crash exactly for a negative page number; otherwise 200 listing the summaries of page `PageNumber(page)` of the caller's documents under that parent, in natural order |
| Files.DefaultPageIsFirst | controllers/FilesController.js:117-121 | with no page, or a page text that holds no number, the first 20 of the caller's documents are listed |
| Files.PageNumberOfText | controllers/FilesController.js:117 | the page parameter written as the text of k names page k |
| Files.PageNumberOfNegativeText | controllers/FilesController.js:117 | the page parameter written as `-` and the text of k names page -k |
| Files.NegativePageCrashes | controllers/FilesController.js:117-121 | with a session, the page `-k` for k >= 1 makes `getIndex` fail, because the store rejects the negative skip |
| Files.IndexPageIds | controllers/FilesController.js:117-122 | requesting page k answers with a listing of the k-th slice of the caller's matching documents |
| Files.EmptyPageListsNothing | controllers/FilesController.js:117-134 | a page past the caller's matching documents answers 200 with an empty listing |
| Files.IndexPagesBelow | controllers/FilesController.js:117-122 | every page below n, requested by its number, lists exactly its slice of the matching documents |
| Files.ListingExhaustive | controllers/FilesController.js:100-134 | the pages below ceil(n/20) together hold all n matching documents in order, and the next page answers 200 with an empty listing |
| Worker.SizedPath | worker.js:25 | a thumbnail path extends the original path with `_<width>` |
| Worker.SizedPathInjective | worker.js:25-29 | thumbnails of different widths have different paths, and none is the original |
| Worker.Thumbnail | worker.js:25 | the thumbnail is made from the original's bytes; a missing original fails |
| Worker.Derive | worker.js:24-29 | success with any width means the original exists; failure means some width was attempted |
| Worker.DeriveFrame | worker.js:24-29 | a run only adds or changes thumbnail paths; every other blob keeps its bytes |
| Worker.DeriveComplete | worker.js:24-29 | after a successful run every width's thumbnail is present, made from the original's bytes, and the original is untouched |
| Worker.DeriveFailFast | worker.js:24-30 | for each of the four outcomes, the exact store: widths before the first failure written, that width and later ones not |
| Worker.DeriveIdempotent | worker.js:24-29 | rerunning a successful thumbnail job leaves the store as it was |
| Worker.WriteThumbnail | worker.js:25 | one thumbnail write, or nothing when imageThumb fails |
| Worker.ProcessFileJob | worker.js:10-33 | missing ids or an unknown or foreign file end the job with no write; a found file without a local path fails with no write; otherwise the store is the thumbnail run's (widths in order, stopping at the first failure) and the job is done exactly when the run succeeds |
| Worker.ThumbnailServedAfterJob | worker.js:27 | after the job, the owner's size 250 request serves `<path>_250` |
| Worker.ProcessUserJob | worker.js:35-46 | a missing id or unknown user fails; a stored user is welcomed, with the message "Welcome <email>!" |
| Worker.RegistrationJobWelcomes | worker.js:37-42 | the job a registration enqueues welcomes the new user by e-mail |

## Left out

- Session expiry: the 24-hour TTL is recorded with each session but entries never expire.
- `path.join` normalisation: the local path is the folder, "/" and the uuid joined as written.
- Malformed ObjectId text: `ObjectId(..)` throws on it. The model treats every id text as valid.
- Non-string JSON body values (a numeric name, a non-boolean `isPublic`) are not modelled. `isPublic`
  is a boolean, defaulting to false.
- Store, cache and filesystem failures, and the 500 answers of their `catch` blocks, are not modelled.
  Neither is `mkdir` of the upload folder.
- `res.sendFile`: the 200 answer of getFile carries the path and the content type, not the bytes.
- `mime.lookup` returning false is not modelled: the content type is the `mimeOf` parameter.
- The uuid generator, SHA-1, base64 decoding, MIME lookup and the thumbnail library are parameters.
  Fresh store ids are parameters, required absent from their collection.
- Concurrency between requests and the worker: each handler and job runs to completion alone.
- The console output of the worker and handlers, except the welcome line, which is the job's result.
- The status and stats endpoints and the server wiring are not part of this model.
- `parseInt` white space: only ASCII white space, vertical tab, form feed and no-break space are skipped.
- Files.GetIndex: `parseInt` returns a double and the store takes a 64-bit skip. The model's page number
  is an unbounded integer, so a very long digit run is read exactly, and the listing past the end is
  empty. Precision loss, `Infinity`, and the store's answer to a skip beyond its range are not modelled.
- The `nbFiles` comparison with '0' (controllers/FilesController.js:113-115) is left out: the count is a
  number, so the comparison is never true and the branch is dead.

## Findings

| source | as written | input that shows it | evidently intended | confidence | as-written member | corrected member |
|---|---|---|---|---|---|---|
| controllers/UsersController.js:5 | the worker module's export object is bound as `userQueue`, so `userQueue.add` is not a function; every accepted registration stores the user and answers 500 | any new e-mail with a password | 201 with id and e-mail, and a welcome job enqueued | high, not executed | Users.PostNewAsWritten | Users.PostNew |
| controllers/FilesController.js:8 | the same export object is bound as `fileQueue`; an accepted image upload stores the blob and document, then the handler rejects without answering and no thumbnail job is queued | an upload with type "image" and data | 201 with the document, and a thumbnail job enqueued | high, not executed | Files.PostUploadAsWritten | Files.PostUpload |
| controllers/FilesController.js:202 | `file.userId` is read before `file` is checked for null | GET /files/<unknown id>/data with a valid session | 404 Not found | high, not executed | Files.GetFileAsWritten | Files.GetFile |
