/**
 * The post handlers: listing with pagination, create, update, delete, delete of one image,
 * like and unlike. Each handler takes the request fields (the authenticated user id, route
 * parameters, body fields and the uploaded file names), returns the response status and changes
 * the store only when it succeeds.
 */
module PostController {
  import opened Wrappers
  import opened Http
  import opened Updates
  import opened Database

  // ---------------------------------------------------------------------------------------------
  // Listing

  const DefaultPage: int := 1
  const DefaultLimit: int := 6

  /** The response body of the listing: one page of post ids and the paging figures. */
  datatype Listing = Listing(posts: seq<PostId>, totalPosts: nat, totalPages: nat, currentPage: int)

  /** `Math.ceil(total / limit)`: the fewest pages of `limit` posts that hold `total` posts. */
  function TotalPages(total: nat, limit: int): (pages: nat)
    requires limit > 0
    ensures pages * limit >= total
    ensures pages > 0 ==> (pages - 1) * limit < total
    ensures pages == 0 <==> total == 0
  {
    if total == 0 then 0
    else
      var q := (total - 1) / limit;
      assert total - 1 == q * limit + (total - 1) % limit;
      q + 1
  }

  /**
   * The listing over `found`, the ids the database query returned for the search filter in the
   * requested sort order. The query fields `page` and `limit` default to 1 and 6. A page below 1
   * makes the skip negative, which the database refuses, so the handler answers 500.
   */
  function GetAllPosts(found: seq<PostId>, page: Option<int>, limit: Option<int>): (r: Result<Listing>)
    requires limit.None? || limit.value > 0
    ensures page.GetOr(DefaultPage) < 1 ==> r == Failure(ServerError)
    ensures page.GetOr(DefaultPage) >= 1 ==>
      var p, l := page.GetOr(DefaultPage), limit.GetOr(DefaultLimit);
      var skip := Skip(p, l);
      && r.Success?
      && r.value.currentPage == p
      && r.value.totalPosts == |found|
      && r.value.totalPages == TotalPages(|found|, l)
      && |r.value.posts| <= l
      && (|r.value.posts| > 0 ==> skip + |r.value.posts| <= |found|)
      && (forall k :: 0 <= k < |r.value.posts| ==> r.value.posts[k] == found[skip + k])
      && (|r.value.posts| == l || skip + |r.value.posts| >= |found|)
  {
    var p, l := page.GetOr(DefaultPage), limit.GetOr(DefaultLimit);
    if p < 1 then Failure(ServerError)
    else Success(Listing(PageOf(found, Skip(p, l), l), |found|, TotalPages(|found|, l), p))
  }

  /** `(page - 1) * limit`: the number of posts before the requested page. */
  function Skip(page: int, limit: int): (skip: nat)
    requires page >= 1 && limit > 0
    ensures skip == (page - 1) * limit
  {
    (page - 1) * limit
  }

  /** `.skip(skip).limit(limit)` over the query result. */
  function PageOf(found: seq<PostId>, skip: nat, limit: nat): (posts: seq<PostId>)
    ensures |posts| <= limit
    ensures |posts| > 0 ==> skip + |posts| <= |found|
    ensures forall k :: 0 <= k < |posts| ==> posts[k] == found[skip + k]
    ensures |posts| == limit || skip + |posts| >= |found|
  {
    if skip >= |found| then []
    else if skip + limit <= |found| then found[skip..skip + limit]
    else found[skip..]
  }

  // ---------------------------------------------------------------------------------------------
  // Create and update

  /** The paths recorded for a batch of uploads, in upload order. */
  function UploadUrls(filenames: seq<string>): (paths: seq<Path>)
    ensures |paths| == |filenames|
    ensures forall k :: 0 <= k < |filenames| ==> paths[k] == UploadUrl(filenames[k])
  {
    if filenames == [] then []
    else [UploadUrl(filenames[0])] + UploadUrls(filenames[1..])
  }

  /**
   * POST /posts. A missing or empty title or content is refused with 400; otherwise a post owned by
   * the caller is stored under `newId`, the id the database assigns.
   */
  method CreatePost(db: Store, userId: UserId, title: Option<string>, content: Option<string>,
                    uploads: seq<string>, newId: PostId) returns (status: int)
    requires newId !in db.posts
    modifies db
    ensures db.users == old(db.users) && db.files == old(db.files)
    ensures !Present(title) || !Present(content) ==> status == BadRequest && db.posts == old(db.posts)
    ensures Present(title) && Present(content) ==>
      && status == Created
      && db.posts == old(db.posts)[newId := Post(userId, title.value, content.value, UploadUrls(uploads), [])]
    ensures old(db.Valid()) ==> db.Valid()
  {
    if !Present(title) || !Present(content) {
      return BadRequest;
    }
    var images := UploadUrls(uploads);
    db.posts := db.posts[newId := Post(userId, title.value, content.value, images, [])];
    status := Created;
  }

  /**
   * PUT /posts/:id. A missing post gives 404, a caller who does not own it 403. Otherwise a title
   * or content that is supplied (not null or undefined) replaces the stored one, and new uploads
   * are appended after the existing images.
   */
  method UpdatePost(db: Store, postId: PostId, userId: UserId, title: Option<string>,
                    content: Option<string>, uploads: seq<string>) returns (status: int)
    modifies db
    ensures db.users == old(db.users) && db.files == old(db.files)
    ensures postId !in old(db.posts) ==> status == NotFound && db.posts == old(db.posts)
    ensures postId in old(db.posts) && old(db.posts[postId].userId) != userId ==>
      status == Forbidden && db.posts == old(db.posts)
    ensures postId in old(db.posts) && old(db.posts[postId].userId) == userId ==>
      var post := old(db.posts[postId]);
      && status == Ok
      && postId in db.posts
      && db.posts == old(db.posts)[postId := db.posts[postId]]
      && db.posts[postId].title == title.GetOr(post.title)
      && db.posts[postId].content == content.GetOr(post.content)
      && db.posts[postId].images == post.images + UploadUrls(uploads)
      && db.posts[postId].userId == post.userId
      && db.posts[postId].likes == post.likes
    ensures old(db.Valid()) ==> db.Valid()
  {
    if postId !in db.posts {
      return NotFound;
    }
    var post := db.posts[postId];
    if post.userId != userId {
      return Forbidden;
    }
    post := post.(title := title.GetOr(post.title));
    post := post.(content := content.GetOr(post.content));
    if |uploads| > 0 {
      post := post.(images := post.images + UploadUrls(uploads));
    } else {
      assert post.images + UploadUrls(uploads) == post.images;
    }
    db.posts := db.posts[postId := post];
    status := Ok;
  }

  // ---------------------------------------------------------------------------------------------
  // Delete

  /**
   * DELETE /posts/:id. A missing post gives 404, a caller who does not own it 403. Otherwise every
   * file the post refers to is removed (a file already gone is skipped) and the post is deleted.
   */
  method DeletePost(db: Store, postId: PostId, userId: UserId) returns (status: int)
    modifies db
    ensures db.users == old(db.users)
    ensures postId !in old(db.posts) ==>
      status == NotFound && db.posts == old(db.posts) && db.files == old(db.files)
    ensures postId in old(db.posts) && old(db.posts[postId].userId) != userId ==>
      status == Forbidden && db.posts == old(db.posts) && db.files == old(db.files)
    ensures postId in old(db.posts) && old(db.posts[postId].userId) == userId ==>
      && status == Ok
      && db.posts == old(db.posts) - {postId}
      && (forall p :: p in db.files <==> p in old(db.files) && p !in old(db.posts[postId].images))
    ensures old(db.Valid()) ==> db.Valid()
  {
    if postId !in db.posts {
      return NotFound;
    }
    var post := db.posts[postId];
    if post.userId != userId {
      return Forbidden;
    }
    var images := post.images;
    var i := 0;
    while i < |images|
      invariant 0 <= i <= |images|
      invariant db.users == old(db.users) && db.posts == old(db.posts)
      invariant forall p :: p in db.files <==> p in old(db.files) && p !in images[..i]
    {
      if images[i] in db.files {
        db.files := db.files - {images[i]};
      }
      assert images[..i + 1] == images[..i] + [images[i]];
      i := i + 1;
    }
    assert images[..i] == images;
    db.posts := db.posts - {postId};
    status := Ok;
  }

  /**
   * DELETE /posts/:id/images/:imageIndex. A missing post gives 404, a caller who does not own it
   * 403, an index outside the image list 400. Otherwise that image's file is removed and the
   * entry is spliced out of the list.
   */
  method DeletePostImage(db: Store, postId: PostId, userId: UserId, index: int) returns (status: int)
    modifies db
    ensures db.users == old(db.users)
    ensures postId !in old(db.posts) ==>
      status == NotFound && db.posts == old(db.posts) && db.files == old(db.files)
    ensures postId in old(db.posts) && old(db.posts[postId].userId) != userId ==>
      status == Forbidden && db.posts == old(db.posts) && db.files == old(db.files)
    ensures postId in old(db.posts) && old(db.posts[postId].userId) == userId
            && (index < 0 || index >= |old(db.posts[postId].images)|) ==>
      status == BadRequest && db.posts == old(db.posts) && db.files == old(db.files)
    ensures postId in old(db.posts) && old(db.posts[postId].userId) == userId
            && 0 <= index < |old(db.posts[postId].images)| ==>
      var post := old(db.posts[postId]);
      && status == Ok
      && db.files == old(db.files) - {post.images[index]}
      && db.posts == old(db.posts)[postId := post.(images := RemoveAt(post.images, index))]
    ensures old(db.Valid()) ==> db.Valid()
  {
    if postId !in db.posts {
      return NotFound;
    }
    var post := db.posts[postId];
    if post.userId != userId {
      return Forbidden;
    }
    if index < 0 || index >= |post.images| {
      return BadRequest;
    }
    var imagePath := post.images[index];
    if imagePath in db.files {
      db.files := db.files - {imagePath};
    }
    db.posts := db.posts[postId := post.(images := RemoveAt(post.images, index))];
    status := Ok;
  }

  // ---------------------------------------------------------------------------------------------
  // Likes

  /**
   * POST /posts/:id/like. A missing post gives 404 and a repeated like 400; otherwise the caller
   * is appended to the likes.
   */
  method LikePost(db: Store, postId: PostId, userId: UserId) returns (status: int)
    modifies db
    ensures db.users == old(db.users) && db.files == old(db.files)
    ensures postId !in old(db.posts) ==> status == NotFound && db.posts == old(db.posts)
    ensures postId in old(db.posts) && userId in old(db.posts[postId].likes) ==>
      status == BadRequest && db.posts == old(db.posts)
    ensures postId in old(db.posts) && userId !in old(db.posts[postId].likes) ==>
      var post := old(db.posts[postId]);
      && status == Ok
      && db.posts == old(db.posts)[postId := post.(likes := post.likes + [userId])]
    ensures old(db.Valid()) ==> db.Valid()
  {
    if postId !in db.posts {
      return NotFound;
    }
    var post := db.posts[postId];
    if userId in post.likes {
      return BadRequest;
    }
    if NoDup(post.likes) {
      PushAbsentNoDup(post.likes, userId);
    }
    db.posts := db.posts[postId := post.(likes := post.likes + [userId])];
    status := Ok;
  }

  /**
   * POST /posts/:id/unlike. A missing post gives 404 and unliking a post the caller does not like
   * 400; otherwise every occurrence of the caller is filtered out of the likes.
   */
  method UnlikePost(db: Store, postId: PostId, userId: UserId) returns (status: int)
    modifies db
    ensures db.users == old(db.users) && db.files == old(db.files)
    ensures postId !in old(db.posts) ==> status == NotFound && db.posts == old(db.posts)
    ensures postId in old(db.posts) && userId !in old(db.posts[postId].likes) ==>
      status == BadRequest && db.posts == old(db.posts)
    ensures postId in old(db.posts) && userId in old(db.posts[postId].likes) ==>
      var post := old(db.posts[postId]);
      && status == Ok
      && db.posts == old(db.posts)[postId := post.(likes := Pull(post.likes, userId))]
    ensures old(db.Valid()) ==> db.Valid()
  {
    if postId !in db.posts {
      return NotFound;
    }
    var post := db.posts[postId];
    if userId !in post.likes {
      return BadRequest;
    }
    if NoDup(post.likes) {
      PullNoDup(post.likes, userId);
    }
    db.posts := db.posts[postId := post.(likes := Pull(post.likes, userId))];
    status := Ok;
  }
}
