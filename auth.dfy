/** controllers/AuthController.js: issuing a session for Basic credentials
    (`getConnect`) and revoking it (`getDisconnect`), plus the token
    resolution every other handler starts with. */
module Auth {
  import opened Wrappers
  import opened Text
  import opened Stores
  import opened Http

  /** 60 * 60 * 24 seconds: a session lasts one day. */
  const SessionTtl: nat := 86400

  /** The cache key of a session token: `auth_` followed by the token. */
  function SessionKey(token: string): (k: string)
    ensures |k| == 5 + |token|
    ensures k[..5] == "auth_" && k[5..] == token
  {
    "auth_" + token
  }

  /** Distinct tokens never share a cache key. */
  lemma SessionKeyInjective(a: string, b: string)
    ensures SessionKey(a) == SessionKey(b) ==> a == b
  {
    if SessionKey(a) == SessionKey(b) {
      assert a == SessionKey(a)[5..];
      assert b == SessionKey(b)[5..];
    }
  }

  /** The user an `x-token` header stands for. A missing or empty header is
      rejected before the cache is asked; an absent or expired key resolves
      to nothing. */
  function Resolve(cache: SessionCache, token: Option<string>): (uid: Option<Id>)
    reads cache
    ensures (token.None? || token.value == "") ==> uid.None?
    ensures uid.Some? <==>
              && token.Some? && token.value != ""
              && SessionKey(token.value) in cache.entries
              && cache.now < cache.entries[SessionKey(token.value)].expiresAt
    ensures uid.Some? ==> uid.value == cache.entries[SessionKey(token.value)].userId
  {
    if token.None? || token.value == "" then None else cache.Get(SessionKey(token.value))
  }

  datatype Credentials = Credentials(email: string, password: string)

  /** The Basic credentials of an `Authorization` header (RFC 7617, section 2):
      the second space-separated word, decoded from base64; the email is the
      text before the first ':' and the password the text between the first
      and the second ':'. A missing part reads as "". */
  function ParseBasic(authorization: string, base64ToAscii: string -> string): (cred: Credentials)
    ensures var text := base64ToAscii(SecondPiece(authorization, ' '));
            IsFirstPiece(cred.email, text, ':')
    ensures var text := base64ToAscii(SecondPiece(authorization, ' '));
            var i := IndexOf(text, ':');
            && (i == |text| ==> cred.password == "")
            && (i < |text| ==> IsFirstPiece(cred.password, text[i + 1..], ':'))
  {
    var text := base64ToAscii(SecondPiece(authorization, ' '));
    Credentials(Split(text, ':')[0], SecondPiece(text, ':'))
  }

  /** A header `<scheme> <encoded>` whose payload decodes to `email:password`
      yields exactly that email and password. */
  lemma ParseBasicRoundTrip(scheme: string, encoded: string, email: string, password: string,
                            base64ToAscii: string -> string)
    requires ' ' !in scheme && ' ' !in encoded
    requires ':' !in email && ':' !in password
    requires base64ToAscii(encoded) == email + ":" + password
    ensures ParseBasic(scheme + " " + encoded, base64ToAscii) == Credentials(email, password)
  {
    var header := scheme + " " + encoded;
    FirstPieceOfConcat(scheme, " " + encoded, ' ');
    assert header == scheme + (" " + encoded);
    FirstPieceOfConcat(encoded, [], ' ');
    assert header[|scheme| + 1..] == encoded;
    assert encoded + [] == encoded;
    FirstPieceUnique(SecondPiece(header, ' '), encoded, encoded, ' ');
    var text := email + ":" + password;
    var cred := ParseBasic(header, base64ToAscii);
    FirstPieceOfConcat(email, ":" + password, ':');
    assert text == email + (":" + password);
    FirstPieceUnique(cred.email, email, text, ':');
    assert text[|email| + 1..] == password;
    FirstPieceOfConcat(password, [], ':');
    assert password + [] == password;
    FirstPieceUnique(cred.password, password, password, ':');
  }

  /** Neither part of parsed credentials ever holds a ':': the password
      stops at the second ':', so credentials containing one never parse back. */
  lemma ParseBasicColonFree(authorization: string, base64ToAscii: string -> string, email: string, password: string)
    requires ':' in email || ':' in password
    ensures ':' !in ParseBasic(authorization, base64ToAscii).email
    ensures ':' !in ParseBasic(authorization, base64ToAscii).password
    ensures ParseBasic(authorization, base64ToAscii) != Credentials(email, password)
  {
  }

  /** Some user has this email and this password digest. */
  ghost predicate HasAccount(users: map<Id, User>, email: string, digest: string) {
    exists id :: id in users && users[id] == User(email, digest)
  }

  /** GET /connect. */
  method GetConnect(cache: SessionCache, db: Database, authorization: string,
                    base64ToAscii: string -> string, sha1: string -> string, uuid: string)
    returns (r: Response)
    requires db.Valid()
    modifies cache
    ensures cache.now == old(cache.now)
    ensures var cred := ParseBasic(authorization, base64ToAscii);
            (cred.email == "" || cred.password == "") ==> r == Unauthorized
    ensures var cred := ParseBasic(authorization, base64ToAscii);
            r.Ok? <==> cred.email != "" && cred.password != "" && HasAccount(db.users, cred.email, sha1(cred.password))
    ensures !r.Ok? ==> r == Unauthorized && cache.entries == old(cache.entries)
    ensures r.Ok? ==>
              && r == Ok(TokenBody(uuid))
              && SessionKey(uuid) in cache.entries
              && var cred := ParseBasic(authorization, base64ToAscii);
                 var e := cache.entries[SessionKey(uuid)];
                 && e.userId in db.users
                 && db.users[e.userId] == User(cred.email, sha1(cred.password))
                 && e.expiresAt == cache.now + SessionTtl
                 && cache.entries == old(cache.entries)[SessionKey(uuid) := e]
                 && (uuid != "" ==> Resolve(cache, Some(uuid)) == Some(e.userId))
  {
    var cred := ParseBasic(authorization, base64ToAscii);
    if cred.email == "" || cred.password == "" {
      return Unauthorized;
    }
    var hashedPassword := sha1(cred.password);
    var matches := (u: User) => u.email == cred.email && u.password == hashedPassword;
    var found := FindOne(db.userOrder, db.users, matches);
    FindOneFindsAny(db.userOrder, db.users, matches);
    if found.None? {
      return Unauthorized;
    }
    var uid := db.userOrder[found.value];
    cache.Set(SessionKey(uuid), uid, SessionTtl);
    r := Ok(TokenBody(uuid));
  }

  /** GET /disconnect. */
  method GetDisconnect(cache: SessionCache, token: Option<string>) returns (r: Response)
    modifies cache
    ensures cache.now == old(cache.now)
    ensures old(Resolve(cache, token)).None? ==> r == Unauthorized && cache.entries == old(cache.entries)
    ensures old(Resolve(cache, token)).Some? ==>
              r == NoContent && cache.entries == old(cache.entries) - {SessionKey(token.value)}
    ensures Resolve(cache, token).None?
  {
    var userId := Resolve(cache, token);
    if userId.None? {
      return Unauthorized;
    }
    cache.Del(SessionKey(token.value));
    r := NoContent;
  }

  /** Disconnecting is not idempotent: the second call with the same token fails. */
  method DisconnectTwice(cache: SessionCache, token: Option<string>) returns (first: Response, second: Response)
    modifies cache
    ensures first == NoContent <==> old(Resolve(cache, token)).Some?
    ensures second == Unauthorized
  {
    first := GetDisconnect(cache, token);
    second := GetDisconnect(cache, token);
  }

  /** A session issued by `getConnect` resolves to its user until its day is
      over, and no longer after that. */
  method ConnectThenWait(cache: SessionCache, db: Database, authorization: string,
                         base64ToAscii: string -> string, sha1: string -> string, uuid: string, wait: nat)
    returns (r: Response, later: Option<Id>)
    requires db.Valid() && uuid != ""
    modifies cache
    ensures r.Ok? ==> (later.Some? <==> wait < SessionTtl)
  {
    r := GetConnect(cache, db, authorization, base64ToAscii, sha1, uuid);
    cache.Advance(wait);
    later := Resolve(cache, Some(uuid));
  }
}
