/**
 * The two document collections (User, Post) and the upload directory, seen as one abstract store:
 * a map from user ids to user records, a map from post ids to post records, and the set of
 * file paths present under the upload directory.
 */
module Database {
  import opened Wrappers
  import opened Updates

  type UserId = string
  type PostId = string
  /** A file path as the handlers store it, relative to the working directory ("/uploads/<name>"). */
  type Path = string

  /** The static URL under which an uploaded file is served and recorded. */
  const UploadDir: string := "/uploads/"

  /** The path recorded for an upload that the upload middleware stored under `filename`. */
  function UploadUrl(filename: string): (p: Path)
    ensures UploadDir <= p && p[|UploadDir|..] == filename
  {
    UploadDir + filename
  }

  datatype User = User(
    email: string,
    passwordHash: string,
    profilePicture: Option<Path>,
    followers: seq<UserId>,
    following: seq<UserId>)

  datatype Post = Post(
    userId: UserId,
    title: string,
    content: string,
    images: seq<Path>,
    likes: seq<UserId>)

  /** Follow lists hold each user at most once, never their owner, and only stored users. */
  ghost predicate FollowListsWellFormed(users: map<UserId, User>) {
    forall u :: u in users ==>
      && NoDup(users[u].following)
      && NoDup(users[u].followers)
      && u !in users[u].following
      && u !in users[u].followers
      && (forall v :: v in users[u].following ==> v in users)
      && (forall v :: v in users[u].followers ==> v in users)
  }

  /** `v` appears in `u`'s following exactly when `u` appears in `v`'s followers. */
  ghost predicate FollowSymmetric(users: map<UserId, User>) {
    forall u, v :: u in users && v in users ==>
      (v in users[u].following <==> u in users[v].followers)
  }

  /** The email field is unique across users (the schema's unique index). */
  ghost predicate EmailsUnique(users: map<UserId, User>) {
    forall u, v :: u in users && v in users && users[u].email == users[v].email ==> u == v
  }

  ghost predicate UsersValid(users: map<UserId, User>) {
    FollowListsWellFormed(users) && FollowSymmetric(users) && EmailsUnique(users)
  }

  /** Each user likes a post at most once. */
  ghost predicate PostsValid(posts: map<PostId, Post>) {
    forall p :: p in posts ==> NoDup(posts[p].likes)
  }

  class Store {
    var users: map<UserId, User>
    var posts: map<PostId, Post>
    var files: set<Path>

    ghost predicate Valid()
      reads this`users, this`posts
    {
      UsersValid(users) && PostsValid(posts)
    }

    constructor ()
      ensures Valid()
      ensures users == map[] && posts == map[] && files == {}
    {
      users := map[];
      posts := map[];
      files := {};
    }
  }
}
