# Files manager: sessions, users and the file access policy

A Dafny model of the request handlers of a small file-metadata service. Users
register with an email and a password. They exchange Basic credentials for a
session token that lives one day in a key-value cache. With that token they
upload folders, files and images, list their own files a page at a time,
publish or unpublish them, and fetch raw content. Content is served when the
file is public or belongs to the caller.

The driver calls are replaced by the state they touch:

- the redis session cache: `Stores.SessionCache`, a map `"auth_" + token → (userId, expiry)` with an abstract clock;
- the mongodb `users` and `files` collections: `Stores.Database`, two maps with their natural (insertion) order and an id generator;
- the payload directory: `Stores.Disk`, a map `path → bytes`.

Each controller file becomes one module of methods over those objects:

- `Auth` for controllers/AuthController.js;
- `Users` for controllers/UsersController.js;
- `Files` for controllers/FilesController.js.

A handler returns an `Http.Response`: `Ok`, `Created`, `NoContent`,
`BadRequest(msg)`, `Unauthorized`, `NotFound` or `ServerError(msg)`. Its `modifies`
clause names the only stores it may change. Its `ensures` give the guard order,
the error messages, and the new state of each store it writes. The pure parts
are functions with their own lemmas: the credential splitter, `parseInt`, the
read predicate, the page slice and the visibility update. Methods that call
several handlers in a row state the cross-request properties: disconnecting
twice, registering then connecting, publishing then fetching anonymously,
session expiry.

Library calls are parameters of the handlers:

- base64 decoding;
- SHA-1;
- `uuidv4`;
- `mime.lookup`;
- whether a disk write, a disk read or an insert succeeds.

A request id that `ObjectId.isValid` rejects is `None`.

## Model

| member | source | states |
|---|---|---|
| `Text.IndexOf` | controllers/AuthController.js:9-11 | the position of the first separator: none before it, the separator at it, or the end of the text |
| `Text.Split` | controllers/AuthController.js:9-11 | `split` gives at least one piece, no piece holds the separator, and the first piece is the text before the first separator |
| `Text.JoinSplit` | controllers/AuthController.js:11 | joining the pieces of a split with the separator gives back the original text |
| `Text.SplitJoin` | controllers/AuthController.js:11 | splitting the join of separator-free pieces gives back the same pieces |
| `Text.SecondPiece` | controllers/AuthController.js:9 | `split(c)[1] \|\| ''` is "" when there is no separator, else the text between the first and the second separator |
| `Text.FirstPieceUnique` | controllers/AuthController.js:11 | the text before the first separator is unique |
| `Text.ParseInt` | controllers/FilesController.js:133 | `parseInt(s, 10)` is NaN exactly when, after leading white space and an optional sign, no digit follows; otherwise it is the value of the digit run, negated exactly after a minus sign |
| `Text.ParseIntShowInt` | controllers/FilesController.js:133 | `parseInt(s, 10)` reads back every integer written in decimal |
| `Stores.FindOne` | controllers/AuthController.js:19 | `findOne` yields the first document in natural order that matches the filter, or none when no document matches |
| `Stores.FindOneFindsAny` | controllers/UsersController.js:16-17 | over a whole collection, `findOne` finds something exactly when some document matches |
| `Stores.ParseKind` | controllers/FilesController.js:34-35 | only "folder", "file" and "image" are accepted, each as the kind it names |
| `Stores.ParseKindName` | controllers/FilesController.js:34 | every kind is accepted under its own name |
| `Stores.SessionCache.Get` | utils/redis.js:20-30 | `get` finds a key only while it is present and not yet expired, and then returns the user id stored under it |
| `Stores.SessionCache.Set` | utils/redis.js:32-42 | `set` with a TTL maps the key to the value, expiring TTL seconds from now |
| `Stores.SessionCache.Del` | utils/redis.js:44-54 | `del` removes exactly that key |
| `Stores.Database.InsertUser` | controllers/UsersController.js:28 | `insertOne` adds the document under a fresh id at the end of the natural order, touching no other collection |
| `Stores.Database.InsertFile` | controllers/FilesController.js:65 | `insertOne` adds the document under a fresh id at the end of the natural order, touching no other collection |
| `Stores.Disk.Write` | controllers/FilesController.js:82 | `writeFile` stores the bytes under the path, replacing what was there, and leaves every other path alone |
| `Stores.Database.UpdateFile` | controllers/FilesController.js:176-179 | `updateOne` replaces one existing document and nothing else |
| `Auth.SessionKey` | controllers/AuthController.js:27 | the cache key is `auth_` followed by the whole token |
| `Auth.SessionKeyInjective` | controllers/AuthController.js:27 | distinct tokens have distinct `auth_` keys |
| `Auth.Resolve` | controllers/AuthController.js:34-43 | a missing or empty token resolves to nothing without a lookup; otherwise to the user under its unexpired `auth_` key |
| `Auth.ParseBasic` | controllers/AuthController.js:8-11 | the email is the decoded text before the first ':', the password the text between the first and second ':' ("" when absent), the encoded part the second space-separated word |
| `Auth.ParseBasicRoundTrip` | controllers/AuthController.js:8-11 | a `scheme encoded` header decoding to `email:password` gives back exactly that email and password |
| `Auth.ParseBasicColonFree` | controllers/AuthController.js:11 | `split(':')` keeps neither ':' in the email nor in the password, so credentials holding a ':' are never what a header parses to |
| `Auth.GetConnect` | controllers/AuthController.js:7-31 | empty email or password is Unauthorized; success exactly when a user has that email and SHA-1 digest; every failure is the same Unauthorized with the cache unchanged; success adds one `auth_<token>` key for that user expiring in 86400 s, returns the token, and the token then resolves to the user |
| `Auth.GetDisconnect` | controllers/AuthController.js:33-47 | an unresolved token is Unauthorized with the cache unchanged; otherwise exactly its key is deleted and 204 returned; afterwards the token never resolves |
| `Auth.DisconnectTwice` | controllers/AuthController.js:39-46 | the first disconnect succeeds exactly when the token resolved; the second is always Unauthorized |
| `Auth.ConnectThenWait` | controllers/AuthController.js:26-28 | after a successful connect the token resolves for 86400 seconds and not after |
| `Users.PostNew` | controllers/UsersController.js:5-34 | "Missing email" before "Missing password" before "Already exist", each leaving the users unchanged; otherwise exactly one user `{email, sha1(password)}` is added under a fresh id, the new id goes to the end of the users' natural order, the body is `{id, email}` only, files are untouched and email uniqueness is preserved |
| `Users.GetMe` | controllers/UsersController.js:37-56 | Unauthorized for a missing or unresolved token or a resolved id with no user; otherwise exactly `{id, email}` of the session's user |
| `Users.RegisterThenConnect` | controllers/UsersController.js:16-33 | after a successful registration, connecting with a header that parses to the same credentials (so an email and password without ':') issues a token that resolves to the new user, and `getMe` with it reports that user |
| `Files.CanRead` | controllers/FilesController.js:249 | anonymous callers read exactly the public files, owners always read their own, other users read a file exactly when it is public |
| `Files.UploadError` | controllers/FilesController.js:28-52 | upload errors come in the order "Missing name", "Missing type", "Missing data" (non-folder without data), "Parent not found", "Parent is not a folder"; each is reported exactly when all earlier checks pass and it fails |
| `Files.UploadDataRule` | controllers/FilesController.js:39-41 | a folder upload does not depend on its data; a file or image without data is "Missing data" |
| `Files.StoragePath` | controllers/FilesController.js:70-78 | the payload path is the folder (FOLDER_PATH, or /tmp/files_manager when unset), a separator, then the uuid |
| `Files.StoragePathInjective` | controllers/FilesController.js:77-78 | distinct uuids give distinct payload paths |
| `Files.PostUpload` | controllers/FilesController.js:17-90 | Unauthorized before validation; a validation error changes no store; success inserts one record with the session's user, the request's name and kind, `isPublic` default false, `parentId` default 0, and a `localPath` exactly for non-folders; the payload is written before the insert; for a valid non-folder upload a failed write or a failed insert is always "Error saving the file" (500) and leaves the files unchanged; store consistency is preserved |
| `Files.GetShow` | controllers/FilesController.js:92-118 | Unauthorized first; a malformed id, a missing record and someone else's record give the same NotFound; the owner always gets 200 with their record |
| `Files.Listing` | controllers/FilesController.js:136-137 | the `$match` stage keeps exactly the caller's records under the given parent, each taken from the scanned order |
| `Files.ListingAppend` | controllers/FilesController.js:136-137 | listing a concatenation lists each part in turn, so the records come in natural order |
| `Files.ListingDistinct` | controllers/FilesController.js:136-137 | when the natural order names each record once, the listing holds each record once |
| `Files.ListingAfterInsert` | controllers/FilesController.js:136-137 | a record `insertOne` adds lands at the end of its owner's listing under its parent, and the rest of the listing is unchanged |
| `Files.PageOf` | controllers/FilesController.js:137-139 | the `$skip`/`$limit` stages keep at most 20 records, from position page * 20 on, and none past the end |
| `Files.PagesCover` | controllers/FilesController.js:134-139 | the first n pages together are exactly the first n * 20 records: paging skips and repeats nothing |
| `Files.RecordOnItsPage` | controllers/FilesController.js:134-139 | record k of the listing is on page k / 20 at position k % 20 |
| `Files.PageNumber` | controllers/FilesController.js:133 | a missing or non-numeric page counts as 0; otherwise the page is the parsed integer |
| `Files.PageNumberShowInt` | controllers/FilesController.js:133 | a page written in decimal is read as that number |
| `Files.GetIndex` | controllers/FilesController.js:121-148 | Unauthorized first; a negative page, or one whose `$skip` of page * 20 reaches 2^63, fails the pipeline (500); otherwise the page slice of the caller's records under the parent (default 0): at most 20, each owned by the caller with that parent, none repeated |
| `Files.WithVisibility` | controllers/FilesController.js:176-179 | `$set: { isPublic }` changes only that field of that record, and no other record or key |
| `Files.VisibilityIdempotent` | controllers/FilesController.js:176-183 | setting the same visibility twice gives the same collection as once |
| `Files.PublishUnpublishRestores` | controllers/FilesController.js:212-215 | publishing a private file and then unpublishing it restores the collection |
| `Files.VisibilityKeepsOwnership` | controllers/FilesController.js:176-179 | visibility never changes ownership; it decides reads as "public or owner"; it keeps the store consistent |
| `Files.PutVisibility` | controllers/FilesController.js:151-184 | Unauthorized first; the same NotFound for a malformed, missing or foreign id, with nothing changed; otherwise only `isPublic` of that record changes and the updated record is returned |
| `Files.PutPublish` | controllers/FilesController.js:151-184 | PutVisibility with `isPublic` true |
| `Files.PutUnpublish` | controllers/FilesController.js:187-220 | PutVisibility with `isPublic` false |
| `Files.MimeType` | controllers/FilesController.js:260 | the looked-up MIME type, or application/octet-stream when the lookup fails |
| `Files.GetFile` | controllers/FilesController.js:223-267 | the checks run in order: id, record, folder (400, even for another user's private folder), read policy (404), payload on disk (404), read (500); success returns the stored bytes with their MIME type, and only for a caller allowed to read |
| `Files.PublishThenFetch` | controllers/FilesController.js:249 | after the owner publishes a stored file an anonymous fetch returns its bytes; after unpublishing it is NotFound |
| `Files.UploadIntoFolder` | controllers/FilesController.js:43-66 | a folder created at the root has parent 0; an image can be uploaded into it; an upload into the image is "Parent is not a folder" |

## Left out

- utils/redis.js and utils/db.js connection handling, `isAlive`, `nbUsers`, `nbFiles` and logging: the stores are plain state here. server.js is not part of this model.
- Redis expiry over real time: the cache has an abstract clock `now` that only `Advance` moves; a key counts as expired once `now` reaches its expiry.
- `createdAt: new Date()`: the clock is not modelled, so records and upload responses carry no creation date.
- The file record stores the upload's `type` as its string; the model stores the parsed `Kind`, and `KindName` gives back the string.
- SHA-1, base64 decoding, `uuidv4`, `mime.lookup` and `ObjectId.isValid` are uninterpreted: they are parameters, and an id the validity test rejects is `None`.
- Users.PostNew: states that the stored password is `sha1(password)`, but not that it differs from the plain text, because the hash is uninterpreted.
- Auth.GetConnect: the token is a parameter, so "exactly one key is added" holds when the token is fresh, which `uuidv4` is trusted to make it; the contract states the map update itself.
- Filesystem: `stat`/`mkdir` of the storage folder (controllers/FilesController.js:72-75) is not modelled. A failing `mkdir` there is outside the try and leaves the request unanswered. `existsSync` and `readFile` become the disk map plus a `readSucceeds` flag.
- Files.StoragePath: `path.join` normalisation is not modelled: the payload path is the folder, "/" and the uuid, without collapsing duplicate separators.
- Text.ParseInt: only space, tab, line feed and carriage return are skipped as leading white space. The value is an exact integer, not a double: a digit run past 2^53 is not rounded, and one past the double range is not Infinity.
- Files.GetIndex: the `$skip` bound is checked on the exact product page * 20. The source computes it in double precision, so right at 2^63 rounding can move the boundary. A digit run long enough to give Infinity is a 500 in both.
- A failing `insertOne` for a folder (controllers/FilesController.js:65) is outside any try and leaves the request unanswered; only the non-folder insert inside the try is modelled as fallible.
- Request bodies are JSON of any shape; the model collapses absent and falsy `name`, `type`, `data`, `email`, `password` and header values to "". Other JSON types are not modelled.
- Source defects followed by their evident intent rather than reproduced. `redisClient` is used but not imported (controllers/UsersController.js:43); the model uses the session cache. `dbClient.usersCollection` (controllers/UsersController.js:16) and `dbClient.objectId` (controllers/FilesController.js:45, controllers/UsersController.js:48) do not exist in utils/db.js; the model looks the documents up by id or email. `parentId` is stored as received (controllers/FilesController.js:59) but matched as an ObjectId (controllers/FilesController.js:137); the model uses one id type with `Root` for 0.
- A malformed `parentId` query makes `new ObjectId(parentId)` throw outside the try (controllers/FilesController.js:137), leaving the request unanswered; the model's `parentId` query is already an id or absent.
- Files.GetIndex: `Some(Root)` as the `parentId` query stands for no query the source accepts. Only an absent or empty query becomes 0 (controllers/FilesController.js:132); `?parentId=0` reaches `new ObjectId("0")` and throws. The model answers `Some(Root)` with the root listing, as it does for an absent query.
- Another user's private folder gives 400, not 404. The folder check (controllers/FilesController.js:240-242) runs before the read check (line 249), and the model follows the code.
- Users.RegisterThenConnect: the register-then-connect round trip holds only for an email and a password without ':'. `getConnect` keeps only the text between the first and the second ':' as the password (controllers/AuthController.js:11), so a password such as "x:y" registers (controllers/UsersController.js:12 checks only that it is non-empty) but never connects, although section 2 of RFC 7617 allows ':' in a password. `Auth.ParseBasicColonFree` states this.
- Concurrency and async interleavings: every handler runs to completion on its own.
