/** The three external stores the controllers talk to, reduced to the state
    they hold: the redis session cache (utils/redis.js), the mongodb users and
    files collections (utils/db.js), and the payload directory on disk. */
module Stores {
  import opened Wrappers

  newtype byte = x: int | 0 <= x < 256

  /** A document id. `Root` is the parent id 0 that marks a top-level file;
      `Oid` stands for an ObjectId the database generated. */
  datatype Id = Root | Oid(n: nat)

  /** A users document; `password` holds the hex SHA-1 digest, never the plain text. */
  datatype User = User(email: string, password: string)

  datatype Kind = Folder | File | Image

  /** A files document. `localPath` is present exactly for non-folders. */
  datatype FileRec = FileRec(
    userId: Id,
    name: string,
    kind: Kind,
    isPublic: bool,
    parentId: Id,
    localPath: Option<string>)

  /** The `type` strings the upload handler accepts. */
  function KindName(k: Kind): string {
    match k
    case Folder => "folder"
    case File => "file"
    case Image => "image"
  }

  /** `['folder', 'file', 'image'].includes(type)`, as the `Kind` it names. */
  function ParseKind(s: string): (k: Option<Kind>)
    ensures k.Some? ==> KindName(k.value) == s
  {
    if s == "folder" then Some(Folder)
    else if s == "file" then Some(File)
    else if s == "image" then Some(Image)
    else None
  }

  /** Every kind is accepted under its own name, so `ParseKind` and `KindName` are inverse. */
  lemma ParseKindName(k: Kind)
    ensures ParseKind(KindName(k)) == Some(k)
  {
  }

  // ---------------------------------------------------------------------------
  // Session cache

  /** A cached value and the instant (in seconds of the cache's clock) it expires. */
  datatype Entry = Entry(userId: Id, expiresAt: nat)

  /** The redis key space with its own clock: a key whose expiry has come is
      gone as far as `get` is concerned. */
  class SessionCache {
    var entries: map<string, Entry>
    var now: nat

    constructor ()
      ensures entries == map[] && now == 0
    {
      entries := map[];
      now := 0;
    }

    /** `get(key)`: the value, unless the key is absent or expired. */
    function Get(key: string): (r: Option<Id>)
      reads this
      ensures r.Some? <==> key in entries && now < entries[key].expiresAt
      ensures r.Some? ==> r.value == entries[key].userId
    {
      if key in entries && now < entries[key].expiresAt then Some(entries[key].userId) else None
    }

    /** `set(key, value, 'EX', ttl)`. */
    method Set(key: string, userId: Id, ttl: nat)
      modifies this
      ensures entries == old(entries)[key := Entry(userId, old(now) + ttl)]
      ensures now == old(now)
    {
      entries := entries[key := Entry(userId, now + ttl)];
    }

    /** `del(key)`. */
    method Del(key: string)
      modifies this
      ensures entries == old(entries) - {key}
      ensures now == old(now)
    {
      entries := entries - {key};
    }

    /** The passing of time. */
    method Advance(seconds: nat)
      modifies this
      ensures now == old(now) + seconds
      ensures entries == old(entries)
    {
      now := now + seconds;
    }
  }

  // ---------------------------------------------------------------------------
  // Document store

  /** `order` lists the keys of `m`, each once: the collection's natural order. */
  ghost predicate Ordered<V>(order: seq<Id>, m: map<Id, V>) {
    && (forall i, j :: 0 <= i < j < |order| ==> order[i] != order[j])
    && (forall j :: 0 <= j < |order| ==> order[j] in m)
    && (forall id :: id in m ==> id in order)
  }

  /** `findOne(filter)` over a collection: the position in natural order of the
      first document that `matches`, if any. */
  function FindOne<V>(order: seq<Id>, m: map<Id, V>, matches: V -> bool): (r: Option<nat>)
    requires forall j :: 0 <= j < |order| ==> order[j] in m
    ensures r.Some? ==> r.value < |order| && matches(m[order[r.value]])
    ensures r.Some? ==> forall j :: 0 <= j < r.value ==> !matches(m[order[j]])
    ensures r.None? ==> forall j :: 0 <= j < |order| ==> !matches(m[order[j]])
  {
    if order == [] then None
    else if matches(m[order[0]]) then Some(0)
    else
      match FindOne(order[1..], m, matches)
      case Some(k) => Some(k + 1)
      case None => None
  }

  /** Over a whole collection, `findOne` finds a document exactly when one matches. */
  lemma FindOneFindsAny<V>(order: seq<Id>, m: map<Id, V>, matches: V -> bool)
    requires Ordered(order, m)
    ensures FindOne(order, m, matches).Some? <==> exists id :: id in m && matches(m[id])
    ensures FindOne(order, m, matches).Some? ==> order[FindOne(order, m, matches).value] in m
  {
    var r := FindOne(order, m, matches);
    if r.None? {
      forall id | id in m ensures !matches(m[id]) {
        assert id in order;
        var j :| 0 <= j < |order| && order[j] == id;
      }
    } else {
      var id := order[r.value];
      assert id in m && matches(m[id]);
    }
  }

  /** The users and files collections. Inserted documents get fresh ObjectIds
      and go to the end of their collection's natural order. */
  class Database {
    var users: map<Id, User>
    var userOrder: seq<Id>
    var files: map<Id, FileRec>
    var fileOrder: seq<Id>
    var nextOid: nat

    ghost predicate Valid()
      reads this
    {
      && Ordered(userOrder, users)
      && Ordered(fileOrder, files)
      && (forall id :: id in users ==> id.Oid? && id.n < nextOid)
      && (forall id :: id in files ==> id.Oid? && id.n < nextOid)
    }

    constructor ()
      ensures Valid()
      ensures users == map[] && files == map[]
    {
      users, userOrder := map[], [];
      files, fileOrder := map[], [];
      nextOid := 0;
    }

    /** `insertOne` into users. */
    method InsertUser(u: User) returns (id: Id)
      requires Valid()
      modifies this
      ensures Valid()
      ensures id.Oid? && id !in old(users) && id !in old(files)
      ensures users == old(users)[id := u] && userOrder == old(userOrder) + [id]
      ensures files == old(files) && fileOrder == old(fileOrder)
    {
      id := Oid(nextOid);
      users := users[id := u];
      userOrder := userOrder + [id];
      nextOid := nextOid + 1;
    }

    /** `insertOne` into files. */
    method InsertFile(f: FileRec) returns (id: Id)
      requires Valid()
      modifies this
      ensures Valid()
      ensures id.Oid? && id !in old(files) && id !in old(users)
      ensures files == old(files)[id := f] && fileOrder == old(fileOrder) + [id]
      ensures users == old(users) && userOrder == old(userOrder)
    {
      id := Oid(nextOid);
      files := files[id := f];
      fileOrder := fileOrder + [id];
      nextOid := nextOid + 1;
    }

    /** `updateOne` on an existing files document. */
    method UpdateFile(id: Id, f: FileRec)
      requires Valid() && id in files
      modifies this
      ensures Valid()
      ensures files == old(files)[id := f] && fileOrder == old(fileOrder)
      ensures users == old(users) && userOrder == old(userOrder)
    {
      files := files[id := f];
    }
  }

  // ---------------------------------------------------------------------------
  // Disk

  /** The payload files, by path. */
  class Disk {
    var blobs: map<string, seq<byte>>

    constructor ()
      ensures blobs == map[]
    {
      blobs := map[];
    }

    /** `writeFile(path, data)`. */
    method Write(path: string, data: seq<byte>)
      modifies this
      ensures blobs == old(blobs)[path := data]
    {
      blobs := blobs[path := data];
    }
  }
}
