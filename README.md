# Blog backend controllers in Dafny

This project models the decision logic of a social-blogging REST backend: the post handlers
(list with pagination, create, update, delete, delete one image, like, unlike), the user
handlers (register, login, profile-picture upload and removal, follow, unfollow) and the
bearer-token authentication middleware.

The document database is an abstract store (`Database.Store`) with three fields:

- `users`: a map from user ids to records holding `email`, `passwordHash`, `profilePicture`,
  `followers` and `following`;
- `posts`: a map from post ids to records holding `userId`, `title`, `content`, `images` and
  `likes`;
- `files`: the set of paths present in the upload directory.

Each handler is a method. It takes the authenticated user id, the route parameters, the body
fields (an `Option`, where `None` stands for null or undefined) and the uploaded file names. It
returns the HTTP status and changes the store only on success. Each handler's `ensures` states:

- the status for every branch, in the order the handler checks them;
- the whole new state;
- that the store invariant `Store.Valid()` is kept.

`Store.Valid()` says that follow lists hold no duplicates and only stored users, that nobody
follows themselves, that `following` and `followers` mirror each other, that emails are unique,
and that every post's `likes` hold no duplicates.

Some calls go to libraries outside the model: password hashing (`hash`), password comparison
(`compare`), token signing (`sign`) and token verification (`verify`). The handlers take them as
function parameters. New document ids are parameters too, which the database guarantees are
fresh. Modules follow the source: `PostController`, `UserController` and `AuthMiddleware`, over
`Database` (records, store, invariants) and `Updates` (the array operators `$addToSet`, `$pull`
or `filter`, and `splice`). `Scenarios` composes several requests.

Four behaviours of the code are worth stating outright:

- A `page` below 1 makes the skip negative. The database refuses it and the handler answers 500
  (`PostController.GetAllPosts`).
- Following or unfollowing when the caller's own record is missing makes the handler read a
  field of null. The catch-all turns that into 500, and nothing has changed by then.
- Follow then unfollow restores both lists exactly, as sequences, when neither side had the
  relationship beforehand.
- A password's length is JavaScript's `length`, which counts UTF-16 code units. A character
  above U+FFFF counts twice, so "😀😀😀" has length 6 and is long enough (`Http.Utf16Length`).

## Model

| member | source | states |
|---|---|---|
| `Updates.AddToSet` | backend/controllers/userController.js:182-188 | `$addToSet`: the element is present afterwards; membership is the old membership plus the element; the old list is kept as a prefix and grows by at most one; a present element changes nothing; a duplicate-free list stays duplicate-free |
| `Updates.Pull` | backend/controllers/postController.js:229 | `$pull` or `filter` by inequality: an element is in the result exactly when it was in the input and differs from the removed one; the result is no longer than the input |
| `Updates.PullAbsent` | backend/controllers/userController.js:220-226 | pulling an element that does not occur leaves the list unchanged |
| `Updates.PullConcat` | backend/controllers/postController.js:229 | pull distributes over concatenation, so the remaining likes keep their relative order |
| `Updates.PullMultiset` | backend/controllers/postController.js:229 | pull removes every occurrence of the element and keeps every other element with its multiplicity |
| `Updates.PullNoDup` | backend/controllers/postController.js:223-229 | a duplicate-free list stays duplicate-free after a pull |
| `Updates.PullUndoesAddToSet` | backend/controllers/userController.js:182-226 | for an element absent from the list, pull after addToSet gives back the original list |
| `Updates.RemoveAt` | backend/controllers/postController.js:183 | `splice(i, 1)`: the length drops by one; elements before `i` stay put; elements after `i` move down one place; the multiset loses exactly the removed element |
| `Http.Present` | backend/controllers/userController.js:12 | the `!field` test on a body field: a field passes exactly when it is supplied and non-empty (also used at userController.js:43 and postController.js:80) |
| `Http.Utf16Length` | backend/controllers/userController.js:16 | JavaScript `length` of a string: at least the number of characters and at most twice that |
| `Http.Utf16LengthIsCount` | backend/controllers/userController.js:16 | the JavaScript length equals the character count exactly when no character lies above U+FFFF |
| `Database.UploadUrl` | backend/controllers/postController.js:85 | the recorded path is "/uploads/" followed by exactly the stored file name |
| `PostController.TotalPages` | backend/controllers/postController.js:33-34 | ceiling of total divided by limit: that many pages hold all posts, one page fewer does not, and zero pages only for zero posts |
| `PostController.Skip` | backend/controllers/postController.js:25 | the skip is `(page - 1) * limit` and is non-negative for a page of at least 1 |
| `PostController.PageOf` | backend/controllers/postController.js:27-30 | skip then limit: at most `limit` posts; the k-th returned post is `found[skip + k]`; the page is short only when the posts run out |
| `PostController.GetAllPosts` | backend/controllers/postController.js:8-36 | page and limit default to 1 and 6; a page below 1 gives 500; otherwise at most `limit` posts, taken contiguously from the skip; total count; ceiling page count; and `currentPage == page` |
| `PostController.UploadUrls` | backend/controllers/postController.js:85 | one recorded path per uploaded file, in upload order, each "/uploads/" + file name |
| `PostController.CreatePost` | backend/controllers/postController.js:75-96 | a missing or empty title or content gives 400 and creates nothing; otherwise 201; the new post belongs to the caller, has the upload paths in order and has no likes; nothing else changes |
| `PostController.UpdatePost` | backend/controllers/postController.js:99-127 | a missing post gives 404, then a non-owner gives 403, both with the store unchanged; otherwise a supplied title or content replaces the old one and an absent one keeps it; new upload paths are appended after the existing images; owner and likes are unchanged |
| `PostController.DeletePost` | backend/controllers/postController.js:130-156 | 404, then 403, both changing nothing; otherwise the post is removed, and a path stays in the file set exactly when it was there and is not one of the post's images; files already gone are skipped |
| `PostController.DeletePostImage` | backend/controllers/postController.js:159-190 | 404, then 403, then an index below 0 or at least the image count gives 400, all changing nothing; otherwise that image's file leaves the file set and the image list becomes the list with that entry spliced out |
| `PostController.LikePost` | backend/controllers/postController.js:193-213 | a missing post gives 404; a user already in `likes` gives 400 with nothing changed; otherwise the user is appended to `likes` and duplicate-free likes stay duplicate-free |
| `PostController.UnlikePost` | backend/controllers/postController.js:216-236 | a missing post gives 404; a user not in `likes` gives 400 with nothing changed; otherwise every occurrence of the user is filtered out of `likes` |
| `UserController.FindByEmail` | backend/controllers/userController.js:47 | `findOne({ email })` returns nothing exactly when no stored user has that email, and otherwise returns a stored user with that email |
| `UserController.RegisterKeepsValid` | backend/controllers/userController.js:20-29 | adding a user with a fresh id and an unused email keeps the follow invariants and email uniqueness |
| `UserController.OnRegister` | backend/controllers/userController.js:8-37 | checks in order: missing email or password, then a password whose JavaScript length (UTF-16 code units) is under 6, then an email in use; each gives 400 and adds nobody; otherwise 201 and exactly one user with that email and the hashed password is added |
| `UserController.OnLogin` | backend/controllers/userController.js:39-69 | a missing field gives 400; an unknown email and a wrong password both give 401 "Invalid email or password"; a token is returned only for a stored user with that email whose hash matches, and it is the token signed for that user's id; with unique emails, matching credentials always log in |
| `UserController.Basename` | backend/controllers/userController.js:107 | `path.basename` yields a name without a slash |
| `UserController.HasPicture` | backend/controllers/userController.js:106 | a user has a picture when `profilePicture` is truthy: set and non-empty (also the test at userController.js:138) |
| `UserController.PictureFile` | backend/controllers/userController.js:107 | the file a stored picture refers to lies directly in the upload directory: "/uploads/" followed by a name without a slash (also used at userController.js:143) |
| `UserController.PictureFileOfUpload` | backend/controllers/userController.js:107-115 | the file derived from a picture path recorded by an upload is that same path, so replacing or clearing the picture removes the uploaded file |
| `UserController.PictureChangeKeepsValid` | backend/controllers/userController.js:115 | changing only a user's picture keeps the user invariants |
| `UserController.Followed` | backend/controllers/userController.js:182-188 | the two `$addToSet` updates of a follow: the same user ids; the target is in the caller's `following` and the caller in the target's `followers`; every other user is unchanged |
| `UserController.Unfollowed` | backend/controllers/userController.js:220-226 | the two `$pull` updates of an unfollow: the same user ids; the target is no longer in the caller's `following` nor the caller in the target's `followers`; every other user is unchanged |
| `UserController.UploadProfilePicture` | backend/controllers/userController.js:92-126 | no file gives 400, then an unknown user gives 404, both changing nothing; otherwise the old picture's file leaves the file set if the user had a picture, and the picture becomes "/uploads/" + file name |
| `UserController.DeleteProfilePicture` | backend/controllers/userController.js:129-157 | an unknown user gives 404, then no picture gives 400, both changing nothing; otherwise the picture's file leaves the file set and the picture becomes null |
| `UserController.FollowedKeepsValid` | backend/controllers/userController.js:165-188 | following a different stored user keeps the invariants: nobody in their own `following`, no duplicates, and `following`/`followers` still mirror each other |
| `UserController.UnfollowedKeepsValid` | backend/controllers/userController.js:203-226 | unfollowing a different stored user keeps the same invariants |
| `UserController.UnfollowUndoesFollow` | backend/controllers/userController.js:182-226 | follow then unfollow between users with no relationship on either side restores the whole user map exactly |
| `UserController.FollowUser` | backend/controllers/userController.js:160-195 | self-follow gives 400 before any lookup; an unknown target gives 404; a missing caller gives 500; an already-followed target gives 400; all change nothing; otherwise the target is added to the caller's `following` and the caller to the target's `followers`, each only if absent |
| `UserController.UnfollowUser` | backend/controllers/userController.js:198-233 | self-unfollow gives 400, an unknown target 404, a missing caller 500 and a target not followed 400, all changing nothing; otherwise the target leaves the caller's `following` and the caller leaves the target's `followers` |
| `AuthMiddleware.Split` | backend/middleware/authMiddleware.js:7 | `split(" ")` yields at least one field, and no field contains the separator |
| `AuthMiddleware.JoinSplit` | backend/middleware/authMiddleware.js:7 | joining the fields of a split with the separator gives back the header |
| `AuthMiddleware.SplitJoin` | backend/middleware/authMiddleware.js:7 | splitting a join of separator-free fields gives back exactly those fields |
| `AuthMiddleware.BearerToken` | backend/middleware/authMiddleware.js:6-7 | the token taken from a "Bearer " header is the text right after the prefix, with no space in it, ending at the next space or at the end of the header |
| `AuthMiddleware.Authorize` | backend/middleware/authMiddleware.js:3-25 | a missing or non-"Bearer " header gives 401 "No token, authorization denied"; a token that fails verification gives 401 "Invalid token"; the request passes exactly when the token verifies, and then as the id verification yields |
| `AuthMiddleware.SignedTokenAuthenticates` | backend/middleware/authMiddleware.js:6-13 | a space-free token that verifies to an id, sent as "Bearer " + token, lets that id through |
| `AuthMiddleware.BearerHeaderToken` | backend/middleware/authMiddleware.js:7 | for a space-free token, the token read from "Bearer " + token is that token |
| `AuthMiddleware.ForeignTokenRejected` | backend/middleware/authMiddleware.js:10-22 | a well-formed "Bearer " header whose token does not verify (expired, forged or foreign) gets 401 "Invalid token", not the missing-token answer |
| `AuthMiddleware.Exchange.constructor` | backend/middleware/authMiddleware.js:3-25 | a request enters the middleware with its `Authorization` header, no user attached, no response sent and the next handler not yet called |
| `AuthMiddleware.Authenticate` | backend/middleware/authMiddleware.js:3-25 | on success `req.user` is set to the verified id and the next handler is called exactly once, with no response sent; on rejection a 401 response with the decision's message is sent, the user is untouched and the next handler is not called |
| `Scenarios.LikeTwice` | backend/controllers/postController.js:200-207 | liking twice gives 200 then 400, and the likes grow by exactly that one user |
| `Scenarios.FollowThenUnfollow` | backend/controllers/userController.js:160-233 | follow then unfollow between unrelated users both succeed and leave every user record as before |
| `Scenarios.RegisterTwice` | backend/controllers/userController.js:20-32 | registering the same email twice gives 201 then 400, and only the first user is added |
| `Scenarios.LoginThenAuthenticate` | backend/controllers/userController.js:59-64 | if signed tokens contain no space and verify to their id, the token of a successful login passes the middleware as the logged-in user |

## Left out

- Database queries: `populate`, `select("-passwordhash")`, `sort` by a caller-supplied key, and the case-insensitive regex search in the listing. `GetAllPosts` takes the ids the query returned, already filtered and sorted, as the parameter `found`.
- `getUserPosts`, `getSinglePost`, `getUserProfile` and `getUserById` only look up and project documents, so they are not modelled.
- Library calls: `bcrypt.hash` (salted) and `bcrypt.compare`, `jwt.sign` (secret and 7-day expiry), and `jwt.verify` (signature and expiry, against the clock). They are parameters with no properties assumed, except where a lemma states its premise.
- The registration e-mail (`sendMail`). If sending fails after the user is saved, the source answers 500 and keeps the user; the model does not include this.
- The upload middleware. It writes the uploaded files, chooses their names and limits each create or update request to 5 files (an update appends, so a post can hold more). Handlers receive the stored file names.
- File paths: the file set is keyed by the path as stored. `path.join` normalisation (`..`, doubled slashes) and platform separators are not modelled.
- UserController.Basename: its contract says only that the result has no slash. Its use is pinned down by `PictureFileOfUpload` for paths that uploads record. Trailing-slash stripping is modelled but has no lemma of its own.
- UserController.FollowUser: ids are strings with one canonical spelling, compared character by character. In the source only the self-check (userController.js:165 and :203) compares strings; lookups and updates cast the id to an ObjectId, which ignores letter case. So another spelling of the caller's own id (upper-case hex digits) passes the self-check, finds the caller's record and records a self-follow with 200, where the model answers 404. The "nobody follows themselves" invariant holds only under one spelling per id. The same cast lets every post route find a post under another spelling of its id, where the model answers 404.
- UserController.OnLogin: it promises a token for matching credentials only when emails are unique. With duplicate emails, `findOne` may pick a different user with the same email.
- JavaScript coercions: `parseInt` giving NaN, non-integer or non-string request values, and ids that are not valid ObjectIds (a cast error answered with 500). Page, limit and image index are integers, and `GetAllPosts` requires a positive limit.
- PostController.GetAllPosts: page and limit are unbounded integers. In JavaScript they are doubles, so `parseInt` of a value above 2^53 is rounded (page "9007199254740993" gives `currentPage` 9007199254740992), and the skip product is rounded once it passes 2^53.
- Schema validation when saving: required fields, such as an empty title supplied to an update. The `createdAt` timestamp is also left out.
- Every handler's catch-all 500 path for database or filesystem failures.
- Concurrency: each handler is atomic, so the window between follow/unfollow's two updates is not modelled.
- Console logging and the route tables.
