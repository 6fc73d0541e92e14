/** The documents of the blog's three collections (users, posts, comments),
    the form bodies the handlers receive, and the outcomes a handler answers
    with. Identifiers are MongoDB ObjectIds, of which only equality matters. */
module Model {

  /** A document identifier. */
  type Id(==, !new)

  datatype Option<+T> = None | Some(value: T)

  /** Overwrites a field when the form supplies it (one key of a `$set` or of
      an object spread). */
  function SetIfGiven<T>(current: T, given: Option<T>): T
  {
    if given.Some? then given.value else current
  }

  /** The public profile copied into a post's `author` or a comment's `user`:
      a snapshot, never kept in sync with later profile edits. */
  datatype Profile = Profile(id: Id, name: string, avatar: string, username: string, bio: string)

  datatype User = User(
    id: Id,
    name: string,
    avatar: string,
    username: string,
    bio: string,
    role: string,
    saved: seq<Id>)

  predicate IsAdmin(u: User)
  {
    u.role == "admin"
  }

  function SnapshotOf(u: User): Profile
  {
    Profile(u.id, u.name, u.avatar, u.username, u.bio)
  }

  datatype Statistics = Statistics(viewCount: int, likeCount: int, commentCount: int)

  /** A post. `authorId` is optional: the create handler writes only the
      `author` snapshot, and sets `authorId` only when the body carries it.
      `fields` holds the remaining body fields (title, content, thumbnail...). */
  datatype Post = Post(
    id: Id,
    slug: string,
    authorId: Option<Id>,
    author: Option<Profile>,
    hashtags: seq<string>,
    likes: seq<Id>,
    statistics: Statistics,
    createdAt: int,
    fields: map<string, string>)

  /** A comment; like `Post.authorId`, `userId` is only there when the body
      that created the comment carried it. */
  datatype Comment = Comment(
    id: Id,
    postId: Id,
    userId: Option<Id>,
    user: Option<Profile>,
    likes: seq<Id>,
    createdAt: int,
    fields: map<string, string>)

  /** The body of a post create or update: every key is optional. */
  datatype PostForm = PostForm(
    slug: Option<string>,
    authorId: Option<Id>,
    hashtags: Option<seq<string>>,
    likes: Option<seq<Id>>,
    statistics: Option<Statistics>,
    fields: map<string, string>)

  /** The body of a comment create. */
  datatype CommentForm = CommentForm(
    postId: Option<Id>,
    userId: Option<Id>,
    likes: Option<seq<Id>>,
    fields: map<string, string>)

  /** The `name` of an error response. */
  datatype ErrorName =
    | PostNotFound
    | CommentNotFound
    | UserNotFound
    | NotAllowedEditPost
    | NotAllowedDeletePost
    | NotAllowedDeleteComment
    | PostSaved
    | PostNotSaved
    | AccessDenied
    | InvalidAuthen

  /** What a handler answers: 200 with a payload, 404, 403, 400, 401, or 500
      for anything thrown. */
  datatype Outcome<+T> =
    | Ok(payload: T)
    | NotFound(name: ErrorName)
    | Forbidden(name: ErrorName)
    | BadRequest(name: ErrorName)
    | Unauthorized(name: ErrorName)
    | Internal

  /** The three results of `user.role !== 'admin' && !owner.equals(user._id)`. */
  datatype Access = Allowed | Denied | Throws

  /** The owner-or-admin rule. An admin never reaches the comparison; for
      anyone else, calling `.equals` on a missing owner field throws. */
  function AccessOf(user: User, owner: Option<Id>): (a: Access)
    ensures a == Allowed <==> IsAdmin(user) || owner == Some(user.id)
    ensures a == Throws <==> !IsAdmin(user) && owner.None?
    ensures a == Denied <==> !IsAdmin(user) && owner.Some? && owner.value != user.id
  {
    if IsAdmin(user) then Allowed
    else if owner.None? then Throws
    else if owner.value == user.id then Allowed
    else Denied
  }

  /** `$set: form` on a post: exactly the keys present in the form are
      overwritten. */
  function MergePost(p: Post, form: PostForm): (r: Post)
    ensures r.id == p.id && r.author == p.author && r.createdAt == p.createdAt
    ensures r.slug == (if form.slug.Some? then form.slug.value else p.slug)
    ensures r.authorId == (if form.authorId.Some? then form.authorId else p.authorId)
    ensures r.hashtags == (if form.hashtags.Some? then form.hashtags.value else p.hashtags)
    ensures r.likes == (if form.likes.Some? then form.likes.value else p.likes)
    ensures r.statistics == (if form.statistics.Some? then form.statistics.value else p.statistics)
    ensures r.fields.Keys == p.fields.Keys + form.fields.Keys
    ensures forall k :: k in form.fields ==> r.fields[k] == form.fields[k]
    ensures forall k :: k in p.fields && k !in form.fields ==> r.fields[k] == p.fields[k]
  {
    p.(slug := SetIfGiven(p.slug, form.slug),
       authorId := if form.authorId.Some? then form.authorId else p.authorId,
       hashtags := SetIfGiven(p.hashtags, form.hashtags),
       likes := SetIfGiven(p.likes, form.likes),
       statistics := SetIfGiven(p.statistics, form.statistics),
       fields := p.fields + form.fields)
  }

  /** The empty body: a `$set` of nothing. */
  const EmptyPostForm := PostForm(None, None, None, None, None, map[])

  lemma MergeEmptyIsIdentity(p: Post)
    ensures MergePost(p, EmptyPostForm) == p
  {
    assert p.fields + map[] == p.fields;
  }

  /** Applying the same `$set` twice is the same as applying it once. */
  lemma MergeIdempotent(p: Post, form: PostForm)
    ensures MergePost(MergePost(p, form), form) == MergePost(p, form)
  {
    var once := MergePost(p, form);
    assert once.fields + form.fields == once.fields;
  }

  ghost predicate PostsKeyed(posts: map<Id, Post>)
  {
    forall k :: k in posts ==> posts[k].id == k
  }

  ghost predicate CommentsKeyed(comments: map<Id, Comment>)
  {
    forall k :: k in comments ==> comments[k].id == k
  }

  ghost predicate UsersKeyed(users: map<Id, User>)
  {
    forall k :: k in users ==> users[k].id == k
  }
}
