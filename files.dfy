/** controllers/FilesController.js: upload, owner-scoped show / list /
    publish / unpublish, and raw content retrieval under the access policy
    "public, or owned by the caller". */
module Files {
  import opened Wrappers
  import opened Text
  import opened Stores
  import opened Http
  import Auth

  /** Records per page of the listing. */
  const PageSize: nat := 20

  /** Where payloads go when FOLDER_PATH is unset or empty. */
  const DefaultFolderPath: string := "/tmp/files_manager"

  const DefaultMimeType: string := "application/octet-stream"

  // ---------------------------------------------------------------------------
  // Access policy

  /** Metadata may be seen and changed by the owner only. */
  predicate CanWrite(caller: Id, f: FileRec) {
    caller == f.userId
  }

  /** Raw content may be read when the file is public or the caller owns it;
      an anonymous caller is `None`. Anonymous callers read exactly the public
      files, owners always read their own, others never read a private file. */
  function CanRead(caller: Option<Id>, f: FileRec): (b: bool)
    ensures caller.None? ==> (b <==> f.isPublic)
    ensures caller.Some? && CanWrite(caller.value, f) ==> b
    ensures caller.Some? && !CanWrite(caller.value, f) ==> (b <==> f.isPublic)
  {
    f.isPublic || (caller.Some? && caller.value == f.userId)
  }

  /** The caller owns the record `fileId` names: a malformed id (`None`), an
      unknown id and someone else's record all fail alike. */
  predicate Owns(files: map<Id, FileRec>, caller: Id, fileId: Option<Id>) {
    fileId.Some? && fileId.value in files && CanWrite(caller, files[fileId.value])
  }

  // ---------------------------------------------------------------------------
  // Store invariants kept by the handlers

  /** Every record's parent is the root or an existing folder, and a record has
      a storage path exactly when it is not a folder. */
  ghost predicate Consistent(files: map<Id, FileRec>) {
    forall id :: id in files ==>
      && (files[id].parentId == Root
          || (files[id].parentId in files && files[files[id].parentId].kind == Folder))
      && (files[id].kind == Folder <==> files[id].localPath.None?)
  }

  // ---------------------------------------------------------------------------
  // Upload

  /** The body of POST /files. An absent or empty `name`, `type` or `data`
      reads as ""; an absent `parentId` or `isPublic` as `None`. */
  datatype UploadRequest = UploadRequest(
    name: string,
    kind: string,
    parentId: Option<Id>,
    isPublic: Option<bool>,
    data: string)

  /** What the environment contributes to an upload: the FOLDER_PATH variable
      ("" when unset), the uuid drawn for the payload's file name, base64
      decoding, and whether the payload write and the record insert succeed. */
  datatype UploadIo = UploadIo(
    folderEnv: string,
    uuid: string,
    base64: string -> seq<byte>,
    writeSucceeds: bool,
    insertSucceeds: bool)

  /** The parent the request names, 0 (the root) by default. */
  function ParentOf(req: UploadRequest): Id {
    req.parentId.GetOr(Root)
  }

  /** The first validation failure of an upload, in the order the handler
      checks: name, type, data, then the parent. */
  function UploadError(req: UploadRequest, files: map<Id, FileRec>): (err: Option<string>)
    ensures err == Some("Missing name") <==> req.name == ""
    ensures err == Some("Missing type") <==> req.name != "" && ParseKind(req.kind).None?
    ensures err == Some("Missing data") <==>
              req.name != "" && ParseKind(req.kind).Some? && ParseKind(req.kind) != Some(Folder) && req.data == ""
    ensures err == Some("Parent not found") <==>
              && req.name != "" && ParseKind(req.kind).Some? && (ParseKind(req.kind) == Some(Folder) || req.data != "")
              && ParentOf(req) != Root && ParentOf(req) !in files
    ensures err == Some("Parent is not a folder") <==>
              && req.name != "" && ParseKind(req.kind).Some? && (ParseKind(req.kind) == Some(Folder) || req.data != "")
              && ParentOf(req) != Root && ParentOf(req) in files && files[ParentOf(req)].kind != Folder
    ensures err.None? <==>
              && req.name != "" && ParseKind(req.kind).Some? && (ParseKind(req.kind) == Some(Folder) || req.data != "")
              && (ParentOf(req) == Root || (ParentOf(req) in files && files[ParentOf(req)].kind == Folder))
  {
    if req.name == "" then Some("Missing name")
    else if ParseKind(req.kind).None? then Some("Missing type")
    else if ParseKind(req.kind) != Some(Folder) && req.data == "" then Some("Missing data")
    else if ParentOf(req) != Root && ParentOf(req) !in files then Some("Parent not found")
    else if ParentOf(req) != Root && files[ParentOf(req)].kind != Folder then Some("Parent is not a folder")
    else None
  }

  /** A folder upload never needs a payload, while a file or image upload
      without one is refused with "Missing data" unless an earlier check fails. */
  lemma UploadDataRule(req: UploadRequest, files: map<Id, FileRec>)
    ensures ParseKind(req.kind) == Some(Folder) ==>
              UploadError(req, files) == UploadError(req.(data := ""), files)
    ensures req.name != "" && ParseKind(req.kind).Some? && ParseKind(req.kind) != Some(Folder) ==>
              UploadError(req.(data := ""), files) == Some("Missing data")
  {
  }

  /** `process.env.FOLDER_PATH || '/tmp/files_manager'`. */
  function FolderPath(folderEnv: string): string {
    if folderEnv == "" then DefaultFolderPath else folderEnv
  }

  /** `path.join(folderPath, uuid)`: the folder, a separator, then the uuid. */
  function StoragePath(folderEnv: string, uuid: string): (p: string)
    ensures |p| == |FolderPath(folderEnv)| + 1 + |uuid|
    ensures p[..|FolderPath(folderEnv)|] == FolderPath(folderEnv)
    ensures p[|FolderPath(folderEnv)|] == '/'
    ensures p[|FolderPath(folderEnv)| + 1..] == uuid
  {
    FolderPath(folderEnv) + "/" + uuid
  }

  /** Distinct uuids give distinct payload paths, so a fresh uuid never
      overwrites an existing payload. */
  lemma StoragePathInjective(folderEnv: string, a: string, b: string)
    ensures StoragePath(folderEnv, a) == StoragePath(folderEnv, b) ==> a == b
  {
    var n := |FolderPath(folderEnv)| + 1;
    if StoragePath(folderEnv, a) == StoragePath(folderEnv, b) {
      assert a == StoragePath(folderEnv, a)[n..];
      assert b == StoragePath(folderEnv, b)[n..];
    }
  }

  /** POST /files. */
  method PostUpload(cache: SessionCache, db: Database, disk: Disk, token: Option<string>,
                    req: UploadRequest, io: UploadIo)
    returns (r: Response)
    requires db.Valid()
    modifies db, disk
    ensures db.Valid()
    ensures db.users == old(db.users) && db.userOrder == old(db.userOrder)
    ensures Auth.Resolve(cache, token).None? ==> r == Unauthorized
    ensures Auth.Resolve(cache, token).Some? && UploadError(req, old(db.files)).Some? ==>
              r == BadRequest(UploadError(req, old(db.files)).value)
    ensures !r.Created? ==> db.files == old(db.files) && db.fileOrder == old(db.fileOrder)
    ensures r.Unauthorized? || r.BadRequest? ==> disk.blobs == old(disk.blobs)
    ensures r.Created? <==>
              && Auth.Resolve(cache, token).Some? && UploadError(req, old(db.files)).None?
              && (ParseKind(req.kind) == Some(Folder) || (io.writeSucceeds && io.insertSucceeds))
    ensures r.Created? ==>
              && r.body.FileBody?
              && var id, f := r.body.id, r.body.file;
                 && id !in old(db.files)
                 && db.files == old(db.files)[id := f]
                 && db.fileOrder == old(db.fileOrder) + [id]
                 && Some(f.userId) == Auth.Resolve(cache, token)
                 && f.name == req.name
                 && ParseKind(req.kind) == Some(f.kind)
                 && f.isPublic == req.isPublic.GetOr(false)
                 && f.parentId == ParentOf(req)
                 && (f.kind == Folder ==> f.localPath.None? && disk.blobs == old(disk.blobs))
                 && (f.kind != Folder ==>
                       && f.localPath == Some(StoragePath(io.folderEnv, io.uuid))
                       && disk.blobs == old(disk.blobs)[StoragePath(io.folderEnv, io.uuid) := io.base64(req.data)])
    ensures Auth.Resolve(cache, token).Some? && UploadError(req, old(db.files)).None?
            && ParseKind(req.kind) != Some(Folder) && !(io.writeSucceeds && io.insertSucceeds) ==>
              r == ServerError("Error saving the file")
    ensures r.ServerError? ==>
              && r.error == "Error saving the file"
              && Auth.Resolve(cache, token).Some? && UploadError(req, old(db.files)).None?
              && (io.writeSucceeds ==>
                    disk.blobs == old(disk.blobs)[StoragePath(io.folderEnv, io.uuid) := io.base64(req.data)])
              && (!io.writeSucceeds ==> disk.blobs == old(disk.blobs))
    ensures Consistent(old(db.files)) ==> Consistent(db.files)
  {
    var userId := Auth.Resolve(cache, token);
    if userId.None? {
      return Unauthorized;
    }
    var err := UploadError(req, db.files);
    if err.Some? {
      return BadRequest(err.value);
    }
    var kind := ParseKind(req.kind).value;
    var fileDoc := FileRec(userId.value, req.name, kind, req.isPublic.GetOr(false), ParentOf(req), None);
    if kind == Folder {
      var id := db.InsertFile(fileDoc);
      return Created(FileBody(id, fileDoc));
    }
    var filePath := StoragePath(io.folderEnv, io.uuid);
    if !io.writeSucceeds {
      return ServerError("Error saving the file");
    }
    disk.Write(filePath, io.base64(req.data));
    fileDoc := fileDoc.(localPath := Some(filePath));
    if !io.insertSucceeds {
      return ServerError("Error saving the file");
    }
    var id := db.InsertFile(fileDoc);
    r := Created(FileBody(id, fileDoc));
  }

  // ---------------------------------------------------------------------------
  // Show

  /** GET /files/:id. */
  method GetShow(cache: SessionCache, db: Database, token: Option<string>, fileId: Option<Id>)
    returns (r: Response)
    ensures Auth.Resolve(cache, token).None? ==> r == Unauthorized
    ensures Auth.Resolve(cache, token).Some? ==>
              (r == NotFound <==> !Owns(db.files, Auth.Resolve(cache, token).value, fileId))
    ensures r.Ok? ==>
              && Auth.Resolve(cache, token).Some?
              && Owns(db.files, Auth.Resolve(cache, token).value, fileId)
              && r == Ok(FileBody(fileId.value, db.files[fileId.value]))
    ensures Auth.Resolve(cache, token).Some? && Owns(db.files, Auth.Resolve(cache, token).value, fileId) ==>
              r == Ok(FileBody(fileId.value, db.files[fileId.value]))
    ensures r == Unauthorized || r == NotFound || r.Ok?
  {
    var userId := Auth.Resolve(cache, token);
    if userId.None? {
      return Unauthorized;
    }
    if fileId.None? {
      return NotFound;
    }
    if fileId.value !in db.files || db.files[fileId.value].userId != userId.value {
      return NotFound;
    }
    r := Ok(FileBody(fileId.value, db.files[fileId.value]));
  }

  // ---------------------------------------------------------------------------
  // Listing

  /** The `$match` stage: the caller's records under `parent`, in natural order. */
  function Listing(order: seq<Id>, files: map<Id, FileRec>, owner: Id, parent: Id)
    : (items: seq<(Id, FileRec)>)
    requires forall j :: 0 <= j < |order| ==> order[j] in files
    ensures |items| <= |order|
    ensures forall k :: 0 <= k < |items| ==>
              && items[k].0 in order
              && items[k].0 in files && items[k].1 == files[items[k].0]
              && items[k].1.userId == owner && items[k].1.parentId == parent
    ensures forall j :: 0 <= j < |order| && files[order[j]].userId == owner && files[order[j]].parentId == parent ==>
              (order[j], files[order[j]]) in items
  {
    if order == [] then []
    else
      var id := order[0];
      var rest := Listing(order[1..], files, owner, parent);
      assert forall j :: 1 <= j < |order| ==> order[j] == order[1..][j - 1];
      if files[id].userId == owner && files[id].parentId == parent then [(id, files[id])] + rest else rest
  }

  /** Listing a concatenation lists each part in turn: the listing keeps the
      natural order of the collection. */
  lemma {:induction false} ListingAppend(a: seq<Id>, b: seq<Id>, files: map<Id, FileRec>, owner: Id, parent: Id)
    requires forall j :: 0 <= j < |a| ==> a[j] in files
    requires forall j :: 0 <= j < |b| ==> b[j] in files
    ensures Listing(a + b, files, owner, parent) == Listing(a, files, owner, parent) + Listing(b, files, owner, parent)
  {
    if a == [] {
      assert a + b == b;
    } else {
      assert (a + b)[0] == a[0];
      assert (a + b)[1..] == a[1..] + b;
      ListingAppend(a[1..], b, files, owner, parent);
    }
  }

  /** No id appears twice in a list of records. */
  predicate IdsDistinct(items: seq<(Id, FileRec)>) {
    forall i, j :: 0 <= i < j < |items| ==> items[i].0 != items[j].0
  }

  /** Putting a record whose id is new in front of a list without repeats
      gives a list without repeats. */
  lemma ConsDistinct(x: (Id, FileRec), rest: seq<(Id, FileRec)>, ids: seq<Id>)
    requires IdsDistinct(rest)
    requires forall k :: 0 <= k < |rest| ==> rest[k].0 in ids
    requires x.0 !in ids
    ensures IdsDistinct([x] + rest)
  {
    var items := [x] + rest;
    forall i, j | 0 <= i < j < |items| ensures items[i].0 != items[j].0 {
      assert items[j] == rest[j - 1];
      if i > 0 {
        assert items[i] == rest[i - 1];
      }
    }
  }

  /** A collection whose natural order names each record once lists each
      record once. */
  lemma {:induction false} ListingDistinct(order: seq<Id>, files: map<Id, FileRec>, owner: Id, parent: Id)
    requires forall j :: 0 <= j < |order| ==> order[j] in files
    requires forall i, j :: 0 <= i < j < |order| ==> order[i] != order[j]
    ensures IdsDistinct(Listing(order, files, owner, parent))
  {
    if order != [] {
      var tail := order[1..];
      assert forall i, j :: 0 <= i < j < |tail| ==> tail[i] == order[i + 1] && tail[j] == order[j + 1];
      assert order[0] !in tail;
      ListingDistinct(tail, files, owner, parent);
      var f := files[order[0]];
      if f.userId == owner && f.parentId == parent {
        ConsDistinct((order[0], f), Listing(tail, files, owner, parent), tail);
      }
    }
  }

  /** Records outside the scanned order do not affect the listing. */
  lemma {:induction false} ListingFrame(order: seq<Id>, files: map<Id, FileRec>, id: Id, f: FileRec,
                                        owner: Id, parent: Id)
    requires forall j :: 0 <= j < |order| ==> order[j] in files
    requires id !in files
    ensures Listing(order, files[id := f], owner, parent) == Listing(order, files, owner, parent)
  {
    if order != [] {
      ListingFrame(order[1..], files, id, f, owner, parent);
    }
  }

  /** A record `insertOne` adds lands at the end of its owner's listing under
      its parent, and the listing is otherwise unchanged. */
  lemma ListingAfterInsert(order: seq<Id>, files: map<Id, FileRec>, id: Id, f: FileRec, owner: Id, parent: Id)
    requires forall j :: 0 <= j < |order| ==> order[j] in files
    requires id !in files
    ensures Listing(order + [id], files[id := f], owner, parent)
            == Listing(order, files, owner, parent)
               + (if f.userId == owner && f.parentId == parent then [(id, f)] else [])
  {
    ListingFrame(order, files, id, f, owner, parent);
    ListingAppend(order, [id], files[id := f], owner, parent);
  }

  function Min(a: int, b: int): int {
    if a <= b then a else b
  }

  /** The `$skip` / `$limit` stages: page `page` of `s`, `PageSize` at a time. */
  function PageOf<T>(s: seq<T>, page: nat): (p: seq<T>)
    ensures |p| <= PageSize
    ensures page * PageSize >= |s| ==> p == []
    ensures page * PageSize < |s| ==> |p| == Min(PageSize, |s| - page * PageSize)
    ensures forall k :: 0 <= k < |p| ==> page * PageSize + k < |s| && p[k] == s[page * PageSize + k]
  {
    var start := page * PageSize;
    if start >= |s| then [] else s[start..Min(start + PageSize, |s|)]
  }

  /** Pages 0 to n-1, one after the other. */
  function Pages<T>(s: seq<T>, n: nat): seq<T> {
    if n == 0 then [] else Pages(s, n - 1) + PageOf(s, n - 1)
  }

  /** The first n pages are exactly the first n * PageSize records: paging
      neither skips nor repeats a record. */
  lemma {:induction false} PagesCover<T>(s: seq<T>, n: nat)
    ensures Pages(s, n) == s[..Min(n * PageSize, |s|)]
  {
    if n > 0 {
      PagesCover(s, n - 1);
      var start := (n - 1) * PageSize;
      assert n * PageSize == start + PageSize;
      var a := Min(start, |s|);
      var b := Min(start + PageSize, |s|);
      var page := PageOf(s, n - 1);
      if start < |s| {
        assert page == s[a..b];
        assert s[..a] + s[a..b] == s[..b];
      }
    }
  }

  /** Record k of the listing is on page k / PageSize, at position k % PageSize. */
  lemma RecordOnItsPage<T>(s: seq<T>, k: nat)
    requires k < |s|
    ensures k % PageSize < |PageOf(s, k / PageSize)|
    ensures PageOf(s, k / PageSize)[k % PageSize] == s[k]
  {
    var page := k / PageSize;
    assert page * PageSize + k % PageSize == k;
  }

  /** `parseInt(req.query.page, 10) || 0`: a missing or non-numeric page is 0. */
  function PageNumber(page: Option<string>): (n: int)
    ensures page.None? ==> n == 0
    ensures page.Some? && ParseInt(page.value).None? ==> n == 0
    ensures page.Some? && ParseInt(page.value).Some? ==> n == ParseInt(page.value).value
  {
    match page
    case None => 0
    case Some(s) => ParseInt(s).GetOr(0)
  }

  /** A page number written in decimal is read back as itself. */
  lemma PageNumberShowInt(n: int)
    ensures PageNumber(Some(ShowInt(n))) == n
  {
    ParseIntShowInt(n);
  }

  /** The `$skip` stage takes a non-negative 64-bit integer. */
  const SkipBound: int := 0x8000_0000_0000_0000

  /** The `$skip` amount `page * 20` is one the aggregation accepts. */
  predicate SkipAccepted(pageNumber: int) {
    0 <= pageNumber && pageNumber * PageSize < SkipBound
  }

  /** GET /files?parentId=&page=. A negative page, or one whose `$skip`
      exceeds the 64-bit bound, makes the aggregation fail, which the handler
      reports as a server error. */
  method GetIndex(cache: SessionCache, db: Database, token: Option<string>,
                  parentId: Option<Id>, page: Option<string>)
    returns (r: Response)
    requires db.Valid()
    ensures Auth.Resolve(cache, token).None? ==> r == Unauthorized
    ensures Auth.Resolve(cache, token).Some? && !SkipAccepted(PageNumber(page)) ==>
              r == ServerError("Internal Server Error")
    ensures Auth.Resolve(cache, token).Some? && SkipAccepted(PageNumber(page)) ==>
              r == Ok(FileList(PageOf(Listing(db.fileOrder, db.files, Auth.Resolve(cache, token).value,
                                              parentId.GetOr(Root)),
                                      PageNumber(page))))
    ensures r.Ok? ==>
              && r.body.FileList?
              && |r.body.items| <= PageSize
              && forall k :: 0 <= k < |r.body.items| ==>
                   && r.body.items[k].0 in db.files
                   && r.body.items[k].1 == db.files[r.body.items[k].0]
                   && Some(r.body.items[k].1.userId) == Auth.Resolve(cache, token)
                   && r.body.items[k].1.parentId == parentId.GetOr(Root)
    ensures r.Ok? ==> IdsDistinct(r.body.items)
  {
    var userId := Auth.Resolve(cache, token);
    if userId.None? {
      return Unauthorized;
    }
    var parent := parentId.GetOr(Root);
    var pageNumber := PageNumber(page);
    if !SkipAccepted(pageNumber) {
      return ServerError("Internal Server Error");
    }
    var matched := Listing(db.fileOrder, db.files, userId.value, parent);
    ListingDistinct(db.fileOrder, db.files, userId.value, parent);
    r := Ok(FileList(PageOf(matched, pageNumber)));
  }

  // ---------------------------------------------------------------------------
  // Publish / unpublish

  /** The files collection after `$set: { isPublic }` on record `id`. */
  function WithVisibility(files: map<Id, FileRec>, id: Id, isPublic: bool): (m: map<Id, FileRec>)
    requires id in files
    ensures m.Keys == files.Keys
    ensures m[id] == files[id].(isPublic := isPublic)
    ensures forall other :: other in files && other != id ==> m[other] == files[other]
  {
    files[id := files[id].(isPublic := isPublic)]
  }

  /** Setting the same visibility twice is the same as setting it once. */
  lemma VisibilityIdempotent(files: map<Id, FileRec>, id: Id, isPublic: bool)
    requires id in files
    ensures WithVisibility(WithVisibility(files, id, isPublic), id, isPublic) == WithVisibility(files, id, isPublic)
  {
  }

  /** Publishing a private file and unpublishing it again restores the collection. */
  lemma PublishUnpublishRestores(files: map<Id, FileRec>, id: Id)
    requires id in files && !files[id].isPublic
    ensures WithVisibility(WithVisibility(files, id, true), id, false) == files
  {
    assert files[id].(isPublic := false) == files[id];
  }

  /** Visibility changes who may read a file, never who owns it, and keeps the
      store consistent. */
  lemma VisibilityKeepsOwnership(files: map<Id, FileRec>, id: Id, isPublic: bool, caller: Option<Id>)
    requires id in files
    ensures var m := WithVisibility(files, id, isPublic);
            && (forall u :: CanWrite(u, m[id]) <==> CanWrite(u, files[id]))
            && (CanRead(caller, m[id]) <==> isPublic || (caller.Some? && CanWrite(caller.value, files[id])))
    ensures Consistent(files) ==> Consistent(WithVisibility(files, id, isPublic))
  {
    var m := WithVisibility(files, id, isPublic);
    if Consistent(files) {
      forall x | x in m
        ensures m[x].parentId == Root || (m[x].parentId in m && m[m[x].parentId].kind == Folder)
        ensures m[x].kind == Folder <==> m[x].localPath.None?
      {
        assert m[x].parentId == files[x].parentId && m[x].kind == files[x].kind;
        if m[x].parentId != Root {
          assert m[m[x].parentId].kind == files[files[x].parentId].kind;
        }
      }
    }
  }

  /** PUT /files/:id/publish and /unpublish: set `isPublic` on a record the
      caller owns. */
  method PutVisibility(cache: SessionCache, db: Database, token: Option<string>, fileId: Option<Id>,
                       isPublic: bool)
    returns (r: Response)
    requires db.Valid()
    modifies db
    ensures db.Valid()
    ensures db.users == old(db.users) && db.userOrder == old(db.userOrder) && db.fileOrder == old(db.fileOrder)
    ensures Auth.Resolve(cache, token).None? ==> r == Unauthorized && db.files == old(db.files)
    ensures Auth.Resolve(cache, token).Some? && !Owns(old(db.files), Auth.Resolve(cache, token).value, fileId) ==>
              r == NotFound && db.files == old(db.files)
    ensures Auth.Resolve(cache, token).Some? && Owns(old(db.files), Auth.Resolve(cache, token).value, fileId) ==>
              && db.files == WithVisibility(old(db.files), fileId.value, isPublic)
              && r == Ok(FileBody(fileId.value, db.files[fileId.value]))
    ensures Consistent(old(db.files)) ==> Consistent(db.files)
  {
    var userId := Auth.Resolve(cache, token);
    if userId.None? {
      return Unauthorized;
    }
    if fileId.None? {
      return NotFound;
    }
    if fileId.value !in db.files || db.files[fileId.value].userId != userId.value {
      return NotFound;
    }
    var id := fileId.value;
    VisibilityKeepsOwnership(db.files, id, isPublic, None);
    db.UpdateFile(id, db.files[id].(isPublic := isPublic));
    r := Ok(FileBody(id, db.files[id]));
  }

  /** PUT /files/:id/publish. */
  method PutPublish(cache: SessionCache, db: Database, token: Option<string>, fileId: Option<Id>)
    returns (r: Response)
    requires db.Valid()
    modifies db
    ensures db.Valid()
    ensures db.users == old(db.users) && db.userOrder == old(db.userOrder) && db.fileOrder == old(db.fileOrder)
    ensures Auth.Resolve(cache, token).None? ==> r == Unauthorized && db.files == old(db.files)
    ensures Auth.Resolve(cache, token).Some? && !Owns(old(db.files), Auth.Resolve(cache, token).value, fileId) ==>
              r == NotFound && db.files == old(db.files)
    ensures Auth.Resolve(cache, token).Some? && Owns(old(db.files), Auth.Resolve(cache, token).value, fileId) ==>
              && db.files == WithVisibility(old(db.files), fileId.value, true)
              && r == Ok(FileBody(fileId.value, old(db.files)[fileId.value].(isPublic := true)))
    ensures Consistent(old(db.files)) ==> Consistent(db.files)
  {
    r := PutVisibility(cache, db, token, fileId, true);
  }

  /** PUT /files/:id/unpublish. */
  method PutUnpublish(cache: SessionCache, db: Database, token: Option<string>, fileId: Option<Id>)
    returns (r: Response)
    requires db.Valid()
    modifies db
    ensures db.Valid()
    ensures db.users == old(db.users) && db.userOrder == old(db.userOrder) && db.fileOrder == old(db.fileOrder)
    ensures Auth.Resolve(cache, token).None? ==> r == Unauthorized && db.files == old(db.files)
    ensures Auth.Resolve(cache, token).Some? && !Owns(old(db.files), Auth.Resolve(cache, token).value, fileId) ==>
              r == NotFound && db.files == old(db.files)
    ensures Auth.Resolve(cache, token).Some? && Owns(old(db.files), Auth.Resolve(cache, token).value, fileId) ==>
              && db.files == WithVisibility(old(db.files), fileId.value, false)
              && r == Ok(FileBody(fileId.value, old(db.files)[fileId.value].(isPublic := false)))
    ensures Consistent(old(db.files)) ==> Consistent(db.files)
  {
    r := PutVisibility(cache, db, token, fileId, false);
  }

  // ---------------------------------------------------------------------------
  // Raw content

  /** `mime.lookup(name) || 'application/octet-stream'`. */
  function MimeType(name: string, mimeLookup: string -> Option<string>): (m: string)
    ensures mimeLookup(name).None? ==> m == DefaultMimeType
    ensures mimeLookup(name).Some? ==> m == mimeLookup(name).value
  {
    mimeLookup(name).GetOr(DefaultMimeType)
  }

  /** The record's payload is on disk (`fs.existsSync(file.localPath)`). */
  predicate Stored(disk: Disk, f: FileRec)
    reads disk
  {
    f.localPath.Some? && f.localPath.value in disk.blobs
  }

  /** GET /files/:id/data. The token is optional; its checks come in the
      order: id, record, folder, read policy, payload on disk, read. */
  method GetFile(cache: SessionCache, db: Database, disk: Disk, token: Option<string>, fileId: Option<Id>,
                 mimeLookup: string -> Option<string>, readSucceeds: bool)
    returns (r: Response)
    ensures fileId.None? || fileId.value !in db.files ==> r == NotFound
    ensures fileId.Some? && fileId.value in db.files ==>
              var f := db.files[fileId.value];
              var caller := Auth.Resolve(cache, token);
              && (f.kind == Folder ==> r == BadRequest("A folder doesn't have content"))
              && (f.kind != Folder && !CanRead(caller, f) ==> r == NotFound)
              && (f.kind != Folder && CanRead(caller, f) && !Stored(disk, f) ==> r == NotFound)
              && (f.kind != Folder && CanRead(caller, f) && Stored(disk, f) && !readSucceeds ==>
                    r == ServerError("Error reading the file"))
              && (f.kind != Folder && CanRead(caller, f) && Stored(disk, f) && readSucceeds ==>
                    r == Ok(Content(disk.blobs[f.localPath.value], MimeType(f.name, mimeLookup))))
    ensures r.Ok? ==>
              && fileId.Some? && fileId.value in db.files
              && CanRead(Auth.Resolve(cache, token), db.files[fileId.value])
  {
    if fileId.None? {
      return NotFound;
    }
    if fileId.value !in db.files {
      return NotFound;
    }
    var file := db.files[fileId.value];
    if file.kind == Folder {
      return BadRequest("A folder doesn't have content");
    }
    var userId := Auth.Resolve(cache, token);
    if !file.isPublic && (userId.None? || file.userId != userId.value) {
      return NotFound;
    }
    if file.localPath.None? || file.localPath.value !in disk.blobs {
      return NotFound;
    }
    if !readSucceeds {
      return ServerError("Error reading the file");
    }
    r := Ok(Content(disk.blobs[file.localPath.value], MimeType(file.name, mimeLookup)));
  }

  // ---------------------------------------------------------------------------
  // Workflows across handlers

  /** Once its owner publishes a stored file anyone can fetch it anonymously;
      once they unpublish it an anonymous fetch is NotFound again. */
  method PublishThenFetch(cache: SessionCache, db: Database, disk: Disk, token: Option<string>, id: Id,
                          mimeLookup: string -> Option<string>)
    returns (shared: Response, hidden: Response)
    requires db.Valid()
    requires id in db.files && Auth.Resolve(cache, token) == Some(db.files[id].userId)
    requires db.files[id].kind != Folder && Stored(disk, db.files[id])
    modifies db
    ensures shared == Ok(Content(disk.blobs[old(db.files)[id].localPath.value],
                                 MimeType(old(db.files)[id].name, mimeLookup)))
    ensures hidden == NotFound
  {
    var published := PutPublish(cache, db, token, Some(id));
    shared := GetFile(cache, db, disk, None, Some(id), mimeLookup, true);
    var unpublished := PutUnpublish(cache, db, token, Some(id));
    hidden := GetFile(cache, db, disk, None, Some(id), mimeLookup, true);
  }

  /** A folder created at the root takes parent 0; an image can then be
      uploaded into it; nothing can be uploaded into the image. */
  method UploadIntoFolder(cache: SessionCache, db: Database, disk: Disk, token: Option<string>, io: UploadIo)
    returns (folder: Response, image: Response, misplaced: Response)
    requires db.Valid() && Auth.Resolve(cache, token).Some?
    requires io.writeSucceeds && io.insertSucceeds
    modifies db, disk
    ensures folder.Created? && folder.body.FileBody? && folder.body.file.parentId == Root
    ensures image.Created? && image.body.FileBody? && image.body.file.parentId == folder.body.id
    ensures misplaced == BadRequest("Parent is not a folder")
  {
    var folderReq := UploadRequest("Photos", "folder", None, None, "");
    assert ParseKind(folderReq.kind) == Some(Folder);
    assert UploadError(folderReq, db.files).None?;
    folder := PostUpload(cache, db, disk, token, folderReq, io);
    var folderId := folder.body.id;
    assert folderId in db.files && db.files[folderId].kind == Folder;

    var imageReq := UploadRequest("photo.png", "image", Some(folderId), None, "aGk=");
    assert ParseKind(imageReq.kind) == Some(Image);
    assert UploadError(imageReq, db.files).None?;
    image := PostUpload(cache, db, disk, token, imageReq, io);
    var imageId := image.body.id;
    assert imageId in db.files && db.files[imageId].kind == Image;

    var fileReq := UploadRequest("note.txt", "file", Some(imageId), None, "aGk=");
    assert ParseKind(fileReq.kind) == Some(File);
    assert UploadError(fileReq, db.files) == Some("Parent is not a folder");
    misplaced := PostUpload(cache, db, disk, token, fileReq, io);
  }
}
