# Blog server: post, comment and authentication handlers in Dafny

This project models the request handlers of a blogging backend:
- the post controller: list filters, fetch by slug, fetch for edit, create, update, delete, like, save/unsave and search;
- the comment controller: list by post, create, delete and like;
- the authentication middleware that puts a user on the request.

The handlers run on a document database with three collections: users, posts and comments.

Here the database is a class `Database.Db`:
- three maps from `Id` (the ObjectId, an abstract type with equality only) to the documents of `Model`;
- a log `emitted` of the real-time events sent to post channels.

Each handler is a method over one `Db`. It works in one atomic step:
1. It reads the documents it needs.
2. It either answers early with an error outcome, or applies the database update operators and answers `Ok`.

The outcomes are:
- `Ok(payload)`;
- `NotFound`, `Forbidden`, `BadRequest` and `Unauthorized`, each carrying the error `name`;
- `Internal`, for anything thrown.

The update operators are functions in module `Ops`:
- `$push` is `Push`;
- `$pull` is `Pull`;
- the like toggle is `Toggle`;
- `countDocuments` is `CommentCount`;
- `deleteMany` is `DeleteCommentsOf`;
- `updateMany` is `PullSaved`.

`Query` holds the post filters and the newest-first ordering of query results.

The authentication gate is in `Auth`:
- `Decide` is the branch-ordered decision.
- `Authenticate` is the middleware that sets `req.user` and calls `next`.
- `Split` models `split(' ')`, with its inverse `Join`.

Token verification and the user lookup are parameters of `Decide` and `Authenticate`.

Ownership checks read `post.authorId` and `comment.userId`. The create handlers do not set these fields unless the request body carries them, so both are `Option`s. For a non-admin caller, a missing field makes the `.equals` call throw, and the handler answers `Internal` (`Model.AccessOf`).

The handlers test `req.user`, the record the gate attached to the request. Save and unsave write to the stored record that has the caller's id.

The model keeps the code's own answers in these cases:
- A duplicate save or a redundant unsave answers 400 `BadRequest`, not a conflict.
- A token whose user no longer exists answers 404 `NotFound`, not 401.
- Deleting a comment does not resynchronise the post's comment count and emits no `removeComment` event (see Findings).
- The slug search is case-sensitive in this model; the source matches case-insensitively (see Left out).

## Model

| member | source | states |
|---|---|---|
| `Model.AccessOf` | src/controllers/postCtrl.js:75 | the owner-or-admin rule: allowed iff the caller is admin or the owner id equals the caller's id; throws (500) iff a non-admin meets a document with no owner field; denied otherwise |
| `Model.MergePost` | src/controllers/postCtrl.js:161-165 | `$set: formData` overwrites exactly the fields present in the form and keeps every other field, including id, author snapshot and creation time |
| `Model.MergeEmptyIsIdentity` | src/controllers/postCtrl.js:161-165 | an update with an empty body leaves the post unchanged |
| `Model.MergeIdempotent` | src/controllers/postCtrl.js:161-165 | repeating the same update gives the same post |
| `Ops.Push` | src/controllers/postCtrl.js:251 | `$push` appends exactly one occurrence and keeps the prefix |
| `Ops.Pull` | src/controllers/postCtrl.js:279 | `$pull` removes every occurrence, keeps every other element and its multiplicity, shortens by the number removed, and is the identity when the element is absent |
| `Ops.PushThenPull` | src/controllers/postCtrl.js:244-279 | pushing an id absent from the list and pulling it again restores the list exactly (save then unsave) |
| `Ops.Toggle` | src/controllers/postCtrl.js:216-219 | after a like the caller is in the list iff it was not before; no other user's membership changes |
| `Ops.ToggleTwice` | src/controllers/commentCtrl.js:103-109 | toggling twice restores every user's membership, the two counter increments cancel, and the list is restored exactly when the caller was not in it |
| `Ops.ToggleKeepsCount` | src/controllers/postCtrl.js:216-219 | on a duplicate-free like list the toggle keeps it duplicate-free and changes its length by exactly the `$inc` applied to `likeCount` |
| `Ops.CountAfterInsert` | src/controllers/commentCtrl.js:42-44 | saving a new comment raises its post's live count by one and leaves every other post's count unchanged |
| `Ops.CountAfterDelete` | src/controllers/commentCtrl.js:77-79 | deleting a comment lowers its post's live count by one and leaves every other post's count unchanged |
| `Ops.DeleteCommentsOf` | src/controllers/postCtrl.js:194 | `deleteMany({ postId })` keeps exactly the comments of other posts, unchanged, and leaves the post a live count of zero |
| `Ops.PullSaved` | src/controllers/postCtrl.js:195 | `updateMany` with `$pull` keeps every user, removes the post id from every saved list, and changes no other saved entry |
| `Query.GenerateFilter` | src/controllers/postCtrl.js:7-18 | at most one criterion, with priority search over username over hashtag; the empty filter iff none of the three is truthy |
| `Query.NoCriteriaMatchesAll` | src/controllers/postCtrl.js:17 | with no criterion the filter matches every post |
| `Query.SearchCriteria` | src/controllers/postCtrl.js:289-291 | the single-key object `{ [searchFor]: searchTerm }` sets a criterion only when `searchFor` names it, and when `searchFor` is `search`, `username` or `hashtag` that criterion alone is set and carries `searchTerm` |
| `Query.SlugSearchSelectsSlug` | src/controllers/postCtrl.js:8-14 | a slug search with a non-empty term matches exactly the posts whose slug contains the term |
| `Query.UsernameSearchSelectsAuthor` | src/controllers/postCtrl.js:15 | a username search with a non-empty name matches exactly the posts whose author snapshot has that username |
| `Query.UnknownSearchMatchesAll` | src/controllers/postCtrl.js:289-291 | a search on an unrecognised field, or with an empty term, yields the empty filter, which matches every post |
| `Query.HashtagSearchSelectsTag` | src/controllers/postCtrl.js:16 | a hashtag search matches exactly the posts whose tags contain the term |
| `Query.MyListFilter` | src/controllers/postCtrl.js:93 | the "my posts" filter matches exactly the posts whose `authorId` is the caller |
| `Query.SavedFilter` | src/controllers/postCtrl.js:107 | the "saved posts" filter matches exactly the posts whose id is in the caller's saved list |
| `Query.NewestExists` | src/controllers/postCtrl.js:293 | every non-empty result set has a document with the latest creation time |
| `Query.NewestFirst` | src/controllers/postCtrl.js:293 | sorting newest-first yields every document of the set exactly once, in non-increasing creation time |
| `PostCtrl.GetBySlug` | src/controllers/postCtrl.js:33-60 | missing slug: 404 `postNotFound` and nothing changes; otherwise the answer is the stored post with its pre-increment view count and the live comment count; the stored view count rises by exactly one and nothing else changes |
| `PostCtrl.GetForEdit` | src/controllers/postCtrl.js:62-86 | 404 `postNotFound` for a missing post; then the post for its owner or an admin, 403 `notAllowedEditPost` for anyone else, 500 when a non-admin meets a post without `authorId` |
| `PostCtrl.Create` | src/controllers/postCtrl.js:116-138 | the new post is stored under its fresh id with the body's fields and the caller's profile as `author`; `authorId` is set only if the body carries it; the body's `hashtags` (none if absent) are stored; no other post changes |
| `PostCtrl.Update` | src/controllers/postCtrl.js:140-171 | 404, 403 `notAllowedEditPost` or 500 leave the posts unchanged; an allowed update stores and answers the merged post and changes no other post |
| `PostCtrl.Remove` | src/controllers/postCtrl.js:173-201 | 404, 403 `notAllowedDeletePost` or 500 change nothing; an allowed delete removes the post, every comment of the post, and the id from every saved list |
| `PostCtrl.RemoveCascadeComplete` | src/controllers/postCtrl.js:193-195 | after the cascade no comment and no saved list refers to the deleted post, and a database without dangling references keeps none |
| `PostCtrl.Like` | src/controllers/postCtrl.js:203-229 | 404 for a missing post; otherwise only that post changes: the caller's id is toggled in `likes` and `likeCount` moves by one in the same direction |
| `PostCtrl.LikeTwiceRestores` | src/controllers/postCtrl.js:216-223 | liking twice restores the like-set membership and the statistics, and the whole post when the first like added the caller |
| `PostCtrl.LikeKeepsCountInSync` | src/controllers/postCtrl.js:216-223 | a duplicate-free like list whose `likeCount` equals its length keeps both properties through a like |
| `PostCtrl.Save` | src/controllers/postCtrl.js:231-257 | 404 `postNotFound`, then 400 `postSaved` if already saved, both changing nothing; otherwise only the caller's stored record changes, by appending the id |
| `PostCtrl.Unsave` | src/controllers/postCtrl.js:259-285 | 404 `postNotFound`, then 400 `postNotSaved` if not saved, both changing nothing; otherwise only the caller's stored record changes, by pulling the id |
| `PostCtrl.SaveThenUnsave` | src/controllers/postCtrl.js:231-285 | a successful save followed by an unsave leaves the users collection as it was |
| `PostCtrl.Search` | src/controllers/postCtrl.js:287-299 | the result holds exactly the stored posts that match the generated filter, each once, newest first |
| `PostCtrl.SearchUnknownFieldReturnsAll` | src/controllers/postCtrl.js:289-293 | a search on an unrecognised field returns every stored post |
| `CommentCtrl.GetByPostId` | src/controllers/commentCtrl.js:6-16 | the result holds exactly the stored comments of the post, each once, newest first; all comments when no `postId` is given (see Left out) |
| `CommentCtrl.ListingMatchesCount` | src/controllers/commentCtrl.js:10 | the listing for a post has as many comments as the post's live comment count |
| `CommentCtrl.Create` | src/controllers/commentCtrl.js:18-55 | 404 `postNotFound`, with nothing added, when the body names no stored post; otherwise the comment is stored with the caller's `_id`, `name`, `avatar`, `username` and `bio` as `user`; the post's count is set to the live count (one more than before), and exactly one `createComment` is emitted on that post's channel |
| `CommentCtrl.RemoveAsWritten` | src/controllers/commentCtrl.js:57-88 | 404 `commentNotFound`, 403 `notAllowedDeleteComment` or 500 change nothing; an allowed delete removes the comment and then answers 500, with no count written back and no event |
| `CommentCtrl.Remove` | src/controllers/commentCtrl.js:77-84 | the intended delete: the comment is removed, its post's count becomes the live count (one less), and one `removeComment` is emitted |
| `CommentCtrl.StaleCountWitness` | src/controllers/commentCtrl.js:77-80 | on a post with one comment, deleted by an admin, the post keeps a count of 1 as written and gets 0 as intended, with 0 comments left |
| `CommentCtrl.Like` | src/controllers/commentCtrl.js:90-115 | 404 `commentNotFound` for a missing comment; otherwise only that comment changes, by toggling the caller's id in `likes` |
| `Auth.Split` | src/middlewares/auth.js:16 | `split(' ')` gives one more piece than there are spaces, and no piece contains a space |
| `Auth.JoinSplit` | src/middlewares/auth.js:16 | joining the pieces with single spaces gives back the header |
| `Auth.SplitJoin` | src/middlewares/auth.js:16 | splitting a join of space-free pieces gives back the pieces |
| `Auth.BearerToken` | src/middlewares/auth.js:16 | the token is absent exactly when the header holds no space, and contains no space |
| `Auth.BearerTokenOfScheme` | src/middlewares/auth.js:16 | for a header `scheme token`, the token is the part after the space |
| `Auth.NoHeaderConsultsNothing` | src/middlewares/auth.js:8-14 | without a (truthy) header the answer is 401 `accessDenied`, whatever the verifier and the lookup would do |
| `Auth.DecisionKinds` | src/middlewares/auth.js:8-39 | 401 only for a missing header or a falsy decode; 500 exactly when verification or the lookup throws; 404 `userNotFound` exactly when no user has the decoded id; acceptance exactly when the lookup finds a user, who is the one accepted |
| `Auth.Authenticate` | src/middlewares/auth.js:6-40 | on rejection the answer is sent and neither `req.user` nor `next` is touched; on acceptance `req.user` is the found user, `next` is called exactly once and nothing is sent |

## Left out

- Pagination of the list handlers is not modelled: `getAll`, `getMyList` and `getSaved` hand their filter to `getPostResponse`, and `src/utils/mongoose.js` is not part of this model. Only the filters are modelled (`GenerateFilter`, `MyListFilter`, `SavedFilter`).
- `Query.Matches`: the slug criterion is a case-sensitive plain substring test. `new RegExp(search)` with option `i` (regular-expression syntax, case folding) is not modelled.
- Token verification is an arrow-typed parameter returning a throw, a falsy value or a subject. Signature and expiry checks (`jsonwebtoken`) and a payload without `_id` are not modelled.
- The user lookup in the gate is a parameter as well.
- Socket.io delivery is not modelled. Emitted events are only appended to `Db.emitted`.
- Error message texts and HTTP status plumbing are not modelled; only the outcome kind and the error `name` are.
- Concurrent requests and races are not modelled. Each handler is one atomic step.
- Database and Mongoose failures inside the handlers are not modelled. These include casting a malformed id, schema validation, unique-index violations and lost connections; the source answers 500 for each. The gate's thrown cases are modelled.
- Id comparison uses one `Id` type with equality. The source compares ids with ObjectId `.equals` in the ownership checks (src/controllers/postCtrl.js:75, 154, 186, 216 and src/controllers/commentCtrl.js:70, 103) and with `Array.prototype.includes` (strict equality) on `saved` in the save and unsave handlers.
- `PostCtrl.Save`, `PostCtrl.Unsave`: assume a request's post id and a stored saved entry compare equal when they name the same post. If the schema stores `saved` as ObjectIds, `includes` never matches the string from the URL, and the checks would always take the "not saved" path.
- `PostCtrl.Create`, `CommentCtrl.Create`: the ObjectId and the creation timestamp are parameters. The schemas are not part of this model, so fields the body leaves out take assumed defaults: empty slug and likes, zero statistics, no `authorId`/`userId`.
- `PostCtrl.GetBySlug`: when several posts share a slug, any one of them is taken. A unique index on `slug` is not modelled.
- `PostCtrl.Search`, `CommentCtrl.GetByPostId`: the order among documents with equal creation times is unspecified, as it is for the database's sort.
- `Model.PostForm`: a request body can set `slug`, `authorId`, `hashtags`, `likes`, `statistics` and other string fields. A body `_id`, `createdAt` or `author` is not modelled: `Model.MergePost` drops it from the `$set` of `PostCtrl.Update`, and `PostCtrl.Create` and `CommentCtrl.Create` drop it from the spread body too (the id and time are their parameters, the snapshot is the caller's).
- `CommentCtrl.GetByPostId`: assumes that a `postId` of `undefined` is dropped from the filter, so a request without `postId` lists every comment. If the key were sent as `postId: null` instead, it would match no comment; that reading is not modelled.

## Findings

| source | as written | input that shows it | evidently intended | confidence | as-written member | corrected member |
|---|---|---|---|---|---|---|
| src/controllers/commentCtrl.js:80 | the count resync calls `Post.findByIdAndUpdate(postId, …)`, but no `postId` is declared in `remove`; the ReferenceError lands in the `catch` after `deleteOne` has run, so the answer is 500, the count is never written back and `removeComment` is never emitted | an admin deletes the only comment of a post whose stored `commentCount` is 1: the comment is gone, the answer is 500, the stored count stays 1 while the live count is 0 | update `comment.postId`'s count to the live count, emit `removeComment`, answer 200 | high; not executed | `CommentCtrl.RemoveAsWritten` (witness `CommentCtrl.StaleCountWitness`) | `CommentCtrl.Remove` |
