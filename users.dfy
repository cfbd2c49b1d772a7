/** controllers/UsersController.js: registration (`postNew`) and the
    "who am I" lookup (`getMe`). */
module Users {
  import opened Wrappers
  import opened Stores
  import opened Http
  import Auth

  /** Some user is registered under `email`. */
  ghost predicate EmailTaken(users: map<Id, User>, email: string) {
    exists id :: id in users && users[id].email == email
  }

  /** No two users share an email. */
  ghost predicate EmailsUnique(users: map<Id, User>) {
    forall a, b :: a in users && b in users && users[a].email == users[b].email ==> a == b
  }

  /** POST /users with body `{ email, password }`; an absent field reads as "". */
  method PostNew(db: Database, email: string, password: string, sha1: string -> string)
    returns (r: Response)
    requires db.Valid()
    modifies db
    ensures db.Valid()
    ensures email == "" ==> r == BadRequest("Missing email")
    ensures email != "" && password == "" ==> r == BadRequest("Missing password")
    ensures email != "" && password != "" && EmailTaken(old(db.users), email) ==>
              r == BadRequest("Already exist")
    ensures r.Created? <==> email != "" && password != "" && !EmailTaken(old(db.users), email)
    ensures !r.Created? ==> r.BadRequest? && db.users == old(db.users) && db.userOrder == old(db.userOrder)
    ensures r.Created? ==>
              && r.body.UserBody? && r.body.email == email
              && r.body.id !in old(db.users)
              && db.users == old(db.users)[r.body.id := User(email, sha1(password))]
              && db.userOrder == old(db.userOrder) + [r.body.id]
              && |db.users| == |old(db.users)| + 1
    ensures db.files == old(db.files) && db.fileOrder == old(db.fileOrder)
    ensures EmailsUnique(old(db.users)) ==> EmailsUnique(db.users)
  {
    if email == "" {
      return BadRequest("Missing email");
    }
    if password == "" {
      return BadRequest("Missing password");
    }
    var sameEmail := (u: User) => u.email == email;
    var emailExists := FindOne(db.userOrder, db.users, sameEmail);
    FindOneFindsAny(db.userOrder, db.users, sameEmail);
    if emailExists.Some? {
      return BadRequest("Already exist");
    }
    var hashedPassword := sha1(password);
    var id := db.InsertUser(User(email, hashedPassword));
    r := Created(UserBody(id, email));
  }

  /** GET /users/me. */
  method GetMe(cache: SessionCache, db: Database, token: Option<string>) returns (r: Response)
    ensures Auth.Resolve(cache, token).None? ==> r == Unauthorized
    ensures Auth.Resolve(cache, token).Some? && Auth.Resolve(cache, token).value !in db.users ==>
              r == Unauthorized
    ensures r.Ok? <==> Auth.Resolve(cache, token).Some? && Auth.Resolve(cache, token).value in db.users
    ensures !r.Ok? ==> r == Unauthorized
    ensures r.Ok? ==>
              var uid := Auth.Resolve(cache, token).value;
              r == Ok(UserBody(uid, db.users[uid].email))
  {
    var userId := Auth.Resolve(cache, token);
    if userId.None? {
      return Unauthorized;
    }
    if userId.value !in db.users {
      return Unauthorized;
    }
    r := Ok(UserBody(userId.value, db.users[userId.value].email));
  }

  /** Register, then connect with the same credentials: the session issued
      belongs to the user just created, and `getMe` reports that user. */
  method RegisterThenConnect(cache: SessionCache, db: Database, email: string, password: string,
                             authorization: string, base64ToAscii: string -> string,
                             sha1: string -> string, uuid: string)
    returns (registered: Response, connected: Response, me: Response)
    requires db.Valid()
    requires Auth.ParseBasic(authorization, base64ToAscii) == Auth.Credentials(email, password)
    requires uuid != ""
    modifies cache, db
    ensures registered.Created? ==>
              && registered.body.UserBody?
              && connected == Ok(TokenBody(uuid))
              && Auth.Resolve(cache, Some(uuid)) == Some(registered.body.id)
              && me == Ok(UserBody(registered.body.id, email))
  {
    registered := PostNew(db, email, password, sha1);
    connected := Auth.GetConnect(cache, db, authorization, base64ToAscii, sha1, uuid);
    if registered.Created? {
      assert Auth.HasAccount(db.users, email, sha1(password)) by {
        assert db.users[registered.body.id] == User(email, sha1(password));
      }
    }
    me := GetMe(cache, db, Some(uuid));
  }
}
