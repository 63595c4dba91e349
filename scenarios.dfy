/**
 * Properties that span several requests: handlers called one after the other on the same store.
 */
module Scenarios {
  import opened Wrappers
  import opened Http
  import opened Database
  import opened PostController
  import opened UserController
  import opened AuthMiddleware

  /** Liking the same post twice: the second request is refused and the likes stay as the first left them. */
  method LikeTwice(db: Store, postId: PostId, userId: UserId) returns (first: int, second: int)
    requires postId in db.posts && userId !in db.posts[postId].likes
    modifies db
    ensures first == Ok && second == BadRequest
    ensures postId in db.posts
    ensures db.posts[postId].likes == old(db.posts[postId].likes) + [userId]
  {
    first := LikePost(db, postId, userId);
    second := LikePost(db, postId, userId);
  }

  /**
   * Following and then unfollowing a user with no relationship to the caller on either side
   * leaves every user record as it was.
   */
  method FollowThenUnfollow(db: Store, me: UserId, them: UserId) returns (followed: int, unfollowed: int)
    requires me in db.users && them in db.users && me != them
    requires them !in db.users[me].following && me !in db.users[them].followers
    modifies db
    ensures followed == Ok && unfollowed == Ok
    ensures db.users == old(db.users)
  {
    followed := FollowUser(db, me, them);
    unfollowed := UnfollowUser(db, me, them);
    UnfollowUndoesFollow(old(db.users), me, them);
  }

  /** Registering the same email twice: the second registration is refused and adds nobody. */
  method RegisterTwice(db: Store, email: string, password: string, hash: string -> string,
                       firstId: UserId, secondId: UserId) returns (first: int, second: int)
    requires email != "" && Utf16Length(password) >= MinPasswordLength
    requires firstId !in db.users && secondId !in db.users && firstId != secondId
    requires !EmailTaken(db.users, email)
    modifies db
    ensures first == Created && second == BadRequest
    ensures db.users == old(db.users)[firstId := NewUser(email, hash(password))]
  {
    first := OnRegister(db, Some(email), Some(password), hash, firstId);
    assert db.users[firstId].email == email;
    second := OnRegister(db, Some(email), Some(password), hash, secondId);
  }

  /**
   * The token a successful login returns, sent back as a "Bearer " header, lets the same user
   * through the middleware, provided a signed token contains no space and verifies to its id.
   */
  method LoginThenAuthenticate(db: Store, email: Option<string>, password: Option<string>,
                               compare: (string, string) -> bool, sign: UserId -> string,
                               verify: string -> Option<UserId>) returns (r: LoginReply, gate: Option<AuthOutcome>)
    requires forall id :: ' ' !in sign(id) && verify(sign(id)) == Some(id)
    ensures r.LoggedIn? ==> gate == Some(Next(r.userId))
  {
    r := OnLogin(db, email, password, compare, sign);
    if r.LoggedIn? {
      SignedTokenAuthenticates(r.userId, r.token, verify);
      gate := Some(Authorize(Some(BearerPrefix + r.token), verify));
    } else {
      gate := None;
    }
  }
}
