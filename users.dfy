/**
 * The user handlers: register, login, profile-picture upload and removal, follow and unfollow.
 * Password hashing, password comparison and token signing are calls into libraries outside this
 * model; they are taken as function parameters (`hash`, `compare`, `sign`).
 */
module UserController {
  import opened Wrappers
  import opened Http
  import opened Updates
  import opened Database

  // ---------------------------------------------------------------------------------------------
  // Register and login

  const MinPasswordLength: int := 6
  const CredentialsRequired: string := "Email and password are required"
  const InvalidCredentials: string := "Invalid email or password"

  /** Some stored user has this email (`User.findOne({ email })` finds a document). */
  predicate EmailTaken(users: map<UserId, User>, email: string) {
    exists id :: id in users && users[id].email == email
  }

  /** The record a registration stores: no picture and no follow relationships yet. */
  function NewUser(email: string, passwordHash: string): User {
    User(email, passwordHash, None, [], [])
  }

  /** `User.findOne({ email })`: some user with that email, or none when there is none. */
  method FindByEmail(db: Store, email: string) returns (found: Option<UserId>)
    ensures found.None? <==> !EmailTaken(db.users, email)
    ensures found.Some? ==> found.value in db.users && db.users[found.value].email == email
  {
    if EmailTaken(db.users, email) {
      var id :| id in db.users && db.users[id].email == email;
      found := Some(id);
    } else {
      found := None;
    }
  }

  /** Adding a record with a fresh id and an unused email keeps the user invariants. */
  lemma RegisterKeepsValid(users: map<UserId, User>, id: UserId, email: string, passwordHash: string)
    requires UsersValid(users)
    requires id !in users && !EmailTaken(users, email)
    ensures UsersValid(users[id := NewUser(email, passwordHash)])
  {
  }

  /**
   * POST /user/register. Missing email or password, then a password whose JavaScript `length`
   * (UTF-16 code units, see `Utf16Length`) is below six, then an email already in use: each gives 400 and creates nobody. Otherwise one user is stored
   * under `newId`, the id the database assigns, with the hashed password, and the result is 201.
   */
  method OnRegister(db: Store, email: Option<string>, password: Option<string>,
                    hash: string -> string, newId: UserId) returns (status: int)
    requires newId !in db.users
    modifies db
    ensures db.posts == old(db.posts) && db.files == old(db.files)
    ensures !Present(email) || !Present(password) ==> status == BadRequest && db.users == old(db.users)
    ensures Present(email) && Present(password) && Utf16Length(password.value) < MinPasswordLength ==>
      status == BadRequest && db.users == old(db.users)
    ensures Present(email) && Present(password) && Utf16Length(password.value) >= MinPasswordLength
            && EmailTaken(old(db.users), email.value) ==>
      status == BadRequest && db.users == old(db.users)
    ensures Present(email) && Present(password) && Utf16Length(password.value) >= MinPasswordLength
            && !EmailTaken(old(db.users), email.value) ==>
      status == Created && db.users == old(db.users)[newId := NewUser(email.value, hash(password.value))]
    ensures old(db.Valid()) ==> db.Valid()
  {
    if !Present(email) || !Present(password) {
      return BadRequest;
    }
    if Utf16Length(password.value) < MinPasswordLength {
      return BadRequest;
    }
    var existing := FindByEmail(db, email.value);
    if existing.Some? {
      return BadRequest;
    }
    if db.Valid() {
      RegisterKeepsValid(db.users, newId, email.value, hash(password.value));
    }
    db.users := db.users[newId := NewUser(email.value, hash(password.value))];
    status := Created;
  }

  /** The login response: a signed token for the user, or a status with its message. */
  datatype LoginReply =
    | LoggedIn(token: string, userId: UserId, email: string)
    | LoginDenied(status: int, message: string)

  /**
   * POST /user/login. Missing fields give 400. An unknown email and a wrong password both give
   * 401 with the same message. Otherwise the reply carries a token signed for the user's id.
   */
  method OnLogin(db: Store, email: Option<string>, password: Option<string>,
                 compare: (string, string) -> bool, sign: UserId -> string) returns (r: LoginReply)
    ensures !Present(email) || !Present(password) ==> r == LoginDenied(BadRequest, CredentialsRequired)
    ensures Present(email) && Present(password) && r.LoginDenied? ==>
      r == LoginDenied(Unauthorized, InvalidCredentials)
    ensures Present(email) && !EmailTaken(db.users, email.value) ==> r.LoginDenied?
    ensures r.LoggedIn? ==>
      && Present(email) && Present(password)
      && r.userId in db.users
      && r.email == email.value == db.users[r.userId].email
      && compare(password.value, db.users[r.userId].passwordHash)
      && r.token == sign(r.userId)
    ensures Present(email) && Present(password) && EmailsUnique(db.users)
            && (exists id :: id in db.users && db.users[id].email == email.value
                             && compare(password.value, db.users[id].passwordHash)) ==>
      r.LoggedIn?
  {
    if !Present(email) || !Present(password) {
      return LoginDenied(BadRequest, CredentialsRequired);
    }
    var found := FindByEmail(db, email.value);
    if found.None? {
      return LoginDenied(Unauthorized, InvalidCredentials);
    }
    var user := db.users[found.value];
    if !compare(password.value, user.passwordHash) {
      return LoginDenied(Unauthorized, InvalidCredentials);
    }
    r := LoggedIn(sign(found.value), found.value, user.email);
  }

  // ---------------------------------------------------------------------------------------------
  // Profile picture

  /**
   * `path.basename`: the last segment of a path, trailing slashes ignored.
   */
  function Basename(p: Path): (name: string)
    ensures '/' !in name
  {
    LastSegment(TrimTrailingSlashes(p))
  }

  function TrimTrailingSlashes(p: Path): Path {
    if p != [] && p[|p| - 1] == '/' then TrimTrailingSlashes(p[..|p| - 1]) else p
  }

  /** The part of `p` after its last slash. */
  function LastSegment(p: Path): (name: string)
    ensures '/' !in name
  {
    if p == [] || p[|p| - 1] == '/' then []
    else LastSegment(p[..|p| - 1]) + [p[|p| - 1]]
  }

  /** The file a stored picture path refers to: the upload directory joined with its basename. */
  function PictureFile(picture: Path): (file: Path)
    ensures UploadDir <= file && '/' !in file[|UploadDir|..]
  {
    UploadUrl(Basename(picture))
  }

  /** A picture recorded by an upload names its own file, so replacing or clearing it removes that file. */
  lemma PictureFileOfUpload(filename: string)
    requires filename != [] && '/' !in filename
    ensures PictureFile(UploadUrl(filename)) == UploadUrl(filename)
  {
    var p := UploadUrl(filename);
    assert p[|p| - 1] == filename[|filename| - 1];
    assert TrimTrailingSlashes(p) == p;
    LastSegmentAfterSlash(UploadDir, filename);
  }

  /** The last segment of a directory path ending in a slash, joined with a slash-free name, is that name. */
  lemma {:induction false} LastSegmentAfterSlash(dir: Path, name: string)
    requires dir != [] && dir[|dir| - 1] == '/' && '/' !in name
    ensures LastSegment(dir + name) == name
  {
    if name != [] {
      var init := name[..|name| - 1];
      assert (dir + name)[..|dir + name| - 1] == dir + init;
      LastSegmentAfterSlash(dir, init);
      assert init + [name[|name| - 1]] == name;
    } else {
      assert dir + name == dir;
    }
  }

  /** A user has a picture when `profilePicture` is truthy: set and non-empty. */
  predicate HasPicture(user: User) {
    Present(user.profilePicture)
  }

  /** Changing only a profile picture keeps the user invariants. */
  lemma PictureChangeKeepsValid(users: map<UserId, User>, id: UserId, picture: Option<Path>)
    requires UsersValid(users) && id in users
    ensures UsersValid(users[id := users[id].(profilePicture := picture)])
  {
  }

  /**
   * POST /user/profile-picture. No uploaded file gives 400 and an unknown user 404. Otherwise the
   * file of the previous picture, if any, is removed and the picture becomes the upload's path.
   */
  method UploadProfilePicture(db: Store, userId: UserId, upload: Option<string>) returns (status: int)
    modifies db
    ensures db.posts == old(db.posts)
    ensures upload.None? ==> status == BadRequest && db.users == old(db.users) && db.files == old(db.files)
    ensures upload.Some? && userId !in old(db.users) ==>
      status == NotFound && db.users == old(db.users) && db.files == old(db.files)
    ensures upload.Some? && userId in old(db.users) ==>
      var user := old(db.users[userId]);
      && status == Ok
      && db.users == old(db.users)[userId := user.(profilePicture := Some(UploadUrl(upload.value)))]
      && db.files == if HasPicture(user) then old(db.files) - {PictureFile(user.profilePicture.value)}
                     else old(db.files)
    ensures old(db.Valid()) ==> db.Valid()
  {
    if upload.None? {
      return BadRequest;
    }
    if userId !in db.users {
      return NotFound;
    }
    var user := db.users[userId];
    if HasPicture(user) {
      var oldImage := PictureFile(user.profilePicture.value);
      if oldImage in db.files {
        db.files := db.files - {oldImage};
      }
    }
    var imageUrl := UploadUrl(upload.value);
    if db.Valid() {
      PictureChangeKeepsValid(db.users, userId, Some(imageUrl));
    }
    db.users := db.users[userId := user.(profilePicture := Some(imageUrl))];
    status := Ok;
  }

  /**
   * DELETE /user/profile-picture. An unknown user gives 404 and a user without a picture 400.
   * Otherwise the picture's file is removed and the picture is set to null.
   */
  method DeleteProfilePicture(db: Store, userId: UserId) returns (status: int)
    modifies db
    ensures db.posts == old(db.posts)
    ensures userId !in old(db.users) ==>
      status == NotFound && db.users == old(db.users) && db.files == old(db.files)
    ensures userId in old(db.users) && !HasPicture(old(db.users[userId])) ==>
      status == BadRequest && db.users == old(db.users) && db.files == old(db.files)
    ensures userId in old(db.users) && HasPicture(old(db.users[userId])) ==>
      var user := old(db.users[userId]);
      && status == Ok
      && db.users == old(db.users)[userId := user.(profilePicture := None)]
      && db.files == old(db.files) - {PictureFile(user.profilePicture.value)}
    ensures old(db.Valid()) ==> db.Valid()
  {
    if userId !in db.users {
      return NotFound;
    }
    var user := db.users[userId];
    if !HasPicture(user) {
      return BadRequest;
    }
    var imagePath := PictureFile(user.profilePicture.value);
    if imagePath in db.files {
      db.files := db.files - {imagePath};
    }
    if db.Valid() {
      PictureChangeKeepsValid(db.users, userId, None);
    }
    db.users := db.users[userId := user.(profilePicture := None)];
    status := Ok;
  }

  // ---------------------------------------------------------------------------------------------
  // Follow and unfollow

  /** The two updates of a follow: `$addToSet` on `me`'s following, then on `them`'s followers. */
  function Followed(users: map<UserId, User>, me: UserId, them: UserId): (r: map<UserId, User>)
    requires me in users && them in users
    ensures r.Keys == users.Keys
    ensures them in r[me].following && me in r[them].followers
    ensures forall u :: u in users && u != me && u != them ==> r[u] == users[u]
  {
    var users1 := users[me := users[me].(following := AddToSet(users[me].following, them))];
    users1[them := users1[them].(followers := AddToSet(users1[them].followers, me))]
  }

  /** The two updates of an unfollow: `$pull` from `me`'s following, then from `them`'s followers. */
  function Unfollowed(users: map<UserId, User>, me: UserId, them: UserId): (r: map<UserId, User>)
    requires me in users && them in users
    ensures r.Keys == users.Keys
    ensures them !in r[me].following && me !in r[them].followers
    ensures forall u :: u in users && u != me && u != them ==> r[u] == users[u]
  {
    var users1 := users[me := users[me].(following := Pull(users[me].following, them))];
    users1[them := users1[them].(followers := Pull(users1[them].followers, me))]
  }

  /** Following another stored user keeps the user invariants; in particular nobody follows themselves. */
  lemma FollowedKeepsValid(users: map<UserId, User>, me: UserId, them: UserId)
    requires UsersValid(users) && me in users && them in users && me != them
    ensures UsersValid(Followed(users, me, them))
  {
    var users' := Followed(users, me, them);
    forall u, v | u in users' && v in users'
      ensures v in users'[u].following <==> u in users'[v].followers
    {
      assert v in users[u].following <==> u in users[v].followers;
    }
  }

  /** Unfollowing another stored user keeps the user invariants. */
  lemma UnfollowedKeepsValid(users: map<UserId, User>, me: UserId, them: UserId)
    requires UsersValid(users) && me in users && them in users && me != them
    ensures UsersValid(Unfollowed(users, me, them))
  {
    PullNoDup(users[me].following, them);
    PullNoDup(users[them].followers, me);
    var users' := Unfollowed(users, me, them);
    forall u, v | u in users' && v in users'
      ensures v in users'[u].following <==> u in users'[v].followers
    {
      assert v in users[u].following <==> u in users[v].followers;
    }
  }

  /**
   * A follow followed by an unfollow of a user with no relationship to the caller on either side
   * restores both users' records exactly.
   */
  lemma {:induction false} UnfollowUndoesFollow(users: map<UserId, User>, me: UserId, them: UserId)
    requires me in users && them in users && me != them
    requires them !in users[me].following && me !in users[them].followers
    ensures Unfollowed(Followed(users, me, them), me, them) == users
  {
    PullUndoesAddToSet(users[me].following, them);
    PullUndoesAddToSet(users[them].followers, me);
    var users' := Unfollowed(Followed(users, me, them), me, them);
    assert users'[me] == users[me];
    assert users'[them] == users[them];
    assert users'.Keys == users.Keys;
  }

  /**
   * POST /user/follow/:userId. Following oneself gives 400 before any lookup, an unknown target
   * 404, and an already-followed target 400. A caller missing from the store makes reading their
   * following list throw, which the handler turns into 500. Otherwise the target is added to the
   * caller's following and the caller to the target's followers, each only if absent.
   */
  method FollowUser(db: Store, me: UserId, them: UserId) returns (status: int)
    modifies db
    ensures db.posts == old(db.posts) && db.files == old(db.files)
    ensures me == them ==> status == BadRequest && db.users == old(db.users)
    ensures me != them && them !in old(db.users) ==> status == NotFound && db.users == old(db.users)
    ensures me != them && them in old(db.users) && me !in old(db.users) ==>
      status == ServerError && db.users == old(db.users)
    ensures me != them && them in old(db.users) && me in old(db.users)
            && them in old(db.users[me].following) ==>
      status == BadRequest && db.users == old(db.users)
    ensures me != them && them in old(db.users) && me in old(db.users)
            && them !in old(db.users[me].following) ==>
      && status == Ok
      && db.users == Followed(old(db.users), me, them)
      && them in db.users[me].following && me in db.users[them].followers
    ensures old(db.Valid()) ==> db.Valid()
  {
    if me == them {
      return BadRequest;
    }
    if them !in db.users {
      return NotFound;
    }
    if me !in db.users {
      return ServerError;
    }
    if them in db.users[me].following {
      return BadRequest;
    }
    if db.Valid() {
      FollowedKeepsValid(db.users, me, them);
    }
    db.users := db.users[me := db.users[me].(following := AddToSet(db.users[me].following, them))];
    db.users := db.users[them := db.users[them].(followers := AddToSet(db.users[them].followers, me))];
    status := Ok;
  }

  /**
   * POST /user/unfollow/:userId. Unfollowing oneself gives 400, an unknown target 404, a caller
   * missing from the store 500, and a target not followed 400. Otherwise every occurrence of the
   * target leaves the caller's following and every occurrence of the caller leaves the target's
   * followers.
   */
  method UnfollowUser(db: Store, me: UserId, them: UserId) returns (status: int)
    modifies db
    ensures db.posts == old(db.posts) && db.files == old(db.files)
    ensures me == them ==> status == BadRequest && db.users == old(db.users)
    ensures me != them && them !in old(db.users) ==> status == NotFound && db.users == old(db.users)
    ensures me != them && them in old(db.users) && me !in old(db.users) ==>
      status == ServerError && db.users == old(db.users)
    ensures me != them && them in old(db.users) && me in old(db.users)
            && them !in old(db.users[me].following) ==>
      status == BadRequest && db.users == old(db.users)
    ensures me != them && them in old(db.users) && me in old(db.users)
            && them in old(db.users[me].following) ==>
      && status == Ok
      && db.users == Unfollowed(old(db.users), me, them)
      && them !in db.users[me].following && me !in db.users[them].followers
    ensures old(db.Valid()) ==> db.Valid()
  {
    if me == them {
      return BadRequest;
    }
    if them !in db.users {
      return NotFound;
    }
    if me !in db.users {
      return ServerError;
    }
    if them !in db.users[me].following {
      return BadRequest;
    }
    if db.Valid() {
      UnfollowedKeepsValid(db.users, me, them);
    }
    db.users := db.users[me := db.users[me].(following := Pull(db.users[me].following, them))];
    db.users := db.users[them := db.users[them].(followers := Pull(db.users[them].followers, me))];
    status := Ok;
  }
}
