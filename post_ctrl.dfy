/** The post handlers. Each handler is one atomic step on the shared
    database: it reads the documents it needs, answers early with an error
    outcome, or applies its update operators and answers `Ok`. The caller
    `user` is the record the authentication gate attached to the request. */
module PostCtrl {
  import opened Model
  import opened Ops
  import opened Query
  import opened Database

  predicate HasSlug(posts: map<Id, Post>, slug: string)
  {
    exists k :: k in posts && posts[k].slug == slug
  }

  /** The post with one more view (`$inc: { 'statistics.viewCount': 1 }`). */
  function Viewed(p: Post): Post
  {
    p.(statistics := p.statistics.(viewCount := p.statistics.viewCount + 1))
  }

  /** `getBySlug`: answers the post as it was before this view, with its
      comment count replaced by the live count, and records one view. */
  method GetBySlug(db: Db, slug: string) returns (out: Outcome<Post>)
    requires db.Valid()
    modifies db`posts
    ensures db.Valid()
    ensures !HasSlug(old(db.posts), slug) ==> out == NotFound(PostNotFound) && db.posts == old(db.posts)
    ensures HasSlug(old(db.posts), slug) ==> out.Ok?
    ensures out.Ok? ==>
      && out.payload.id in old(db.posts)
      && var was := old(db.posts)[out.payload.id];
      && was.slug == slug
      && out.payload == was.(statistics := out.payload.statistics)
      && out.payload.statistics.viewCount == was.statistics.viewCount
      && out.payload.statistics.likeCount == was.statistics.likeCount
      && out.payload.statistics.commentCount == CommentCount(db.comments, was.id)
      && db.posts == old(db.posts)[was.id := Viewed(was)]
      && db.posts[was.id].statistics.viewCount == was.statistics.viewCount + 1
  {
    if !HasSlug(db.posts, slug) {
      return NotFound(PostNotFound);
    }
    var id :| id in db.posts && db.posts[id].slug == slug;
    var post := db.posts[id];
    var commentCount := CommentCount(db.comments, id);
    var response := post.(statistics := post.statistics.(commentCount := commentCount));
    db.posts := db.posts[id := Viewed(post)];
    out := Ok(response);
  }

  /** `getForEdit`: the post itself, to its author or to an admin. */
  method GetForEdit(db: Db, postId: Id, user: User) returns (out: Outcome<Post>)
    ensures postId !in db.posts ==> out == NotFound(PostNotFound)
    ensures postId in db.posts ==>
      match AccessOf(user, db.posts[postId].authorId)
      case Allowed => out == Ok(db.posts[postId])
      case Denied => out == Forbidden(NotAllowedEditPost)
      case Throws => out == Internal
  {
    if postId !in db.posts {
      return NotFound(PostNotFound);
    }
    var post := db.posts[postId];
    var access := AccessOf(user, post.authorId);
    if access == Throws {
      return Internal;
    }
    if access == Denied {
      return Forbidden(NotAllowedEditPost);
    }
    out := Ok(post);
  }

  /** The document a create starts from: what the form leaves out takes the
      schema's defaults (no likes, zero statistics, empty slug). */
  function BlankPost(id: Id, now: int): Post
  {
    Post(id, "", None, None, [], [], Statistics(0, 0, 0), now, map[])
  }

  /** `create`: a new post from the body, with the caller's profile as the
      `author` snapshot. `newId` is the ObjectId the database assigns and
      `now` the creation timestamp. */
  method Create(db: Db, form: PostForm, user: User, newId: Id, now: int) returns (out: Outcome<Post>)
    requires db.Valid() && newId !in db.posts
    modifies db`posts
    ensures db.Valid()
    ensures out.Ok? && out.payload.id == newId
    ensures db.posts == old(db.posts)[newId := out.payload]
    ensures out.payload.author == Some(SnapshotOf(user))
    ensures out.payload.authorId == form.authorId
    ensures out.payload.slug == (if form.slug.Some? then form.slug.value else "")
    ensures out.payload.hashtags == (if form.hashtags.Some? then form.hashtags.value else [])
    ensures out.payload.likes == (if form.likes.Some? then form.likes.value else [])
    ensures out.payload.statistics == (if form.statistics.Some? then form.statistics.value else Statistics(0, 0, 0))
    ensures out.payload.createdAt == now && out.payload.fields == form.fields
  {
    var post := MergePost(BlankPost(newId, now), form).(author := Some(SnapshotOf(user)));
    assert post.fields == map[] + form.fields;
    db.posts := db.posts[newId := post];
    out := Ok(post);
  }

  /** `update`: merges the body into the post (`$set`), for its author or
      an admin. */
  method Update(db: Db, postId: Id, form: PostForm, user: User) returns (out: Outcome<Post>)
    requires db.Valid()
    modifies db`posts
    ensures db.Valid()
    ensures postId !in old(db.posts) ==> out == NotFound(PostNotFound) && db.posts == old(db.posts)
    ensures postId in old(db.posts) ==>
      match AccessOf(user, old(db.posts)[postId].authorId)
      case Allowed =>
        && out == Ok(MergePost(old(db.posts)[postId], form))
        && db.posts == old(db.posts)[postId := out.payload]
      case Denied => out == Forbidden(NotAllowedEditPost) && db.posts == old(db.posts)
      case Throws => out == Internal && db.posts == old(db.posts)
  {
    if postId !in db.posts {
      return NotFound(PostNotFound);
    }
    var post := db.posts[postId];
    var access := AccessOf(user, post.authorId);
    if access == Throws {
      return Internal;
    }
    if access == Denied {
      return Forbidden(NotAllowedEditPost);
    }
    var updated := MergePost(post, form);
    db.posts := db.posts[postId := updated];
    out := Ok(updated);
  }

  /** `remove`: deletes the post, then its comments, then pulls its id out
      of every user's saved list; for its author or an admin. */
  method Remove(db: Db, postId: Id, user: User) returns (out: Outcome<()>)
    requires db.Valid()
    modifies db`posts, db`comments, db`users
    ensures db.Valid()
    ensures postId !in old(db.posts) ==>
      && out == NotFound(PostNotFound)
      && db.posts == old(db.posts) && db.comments == old(db.comments) && db.users == old(db.users)
    ensures postId in old(db.posts) ==>
      match AccessOf(user, old(db.posts)[postId].authorId)
      case Allowed =>
        && out == Ok(())
        && db.posts == old(db.posts) - {postId}
        && db.comments == DeleteCommentsOf(old(db.comments), postId)
        && db.users == PullSaved(old(db.users), postId)
      case Denied =>
        && out == Forbidden(NotAllowedDeletePost)
        && db.posts == old(db.posts) && db.comments == old(db.comments) && db.users == old(db.users)
      case Throws =>
        && out == Internal
        && db.posts == old(db.posts) && db.comments == old(db.comments) && db.users == old(db.users)
  {
    if postId !in db.posts {
      return NotFound(PostNotFound);
    }
    var post := db.posts[postId];
    var access := AccessOf(user, post.authorId);
    if access == Throws {
      return Internal;
    }
    if access == Denied {
      return Forbidden(NotAllowedDeletePost);
    }
    db.posts := db.posts - {postId};
    db.comments := DeleteCommentsOf(db.comments, postId);
    db.users := PullSaved(db.users, postId);
    out := Ok(());
  }

  /** Every comment belongs to a stored post and every saved id names a
      stored post. */
  ghost predicate References(posts: map<Id, Post>, comments: map<Id, Comment>, users: map<Id, User>)
  {
    && (forall c :: c in comments ==> comments[c].postId in posts)
    && (forall u, q :: u in users && q in users[u].saved ==> q in posts)
  }

  /** The cascade of `remove` is complete: nothing refers to the deleted post
      afterwards, and a database without dangling references keeps none. */
  lemma RemoveCascadeComplete(posts: map<Id, Post>, comments: map<Id, Comment>, users: map<Id, User>, postId: Id)
    ensures forall c :: c in DeleteCommentsOf(comments, postId) ==> DeleteCommentsOf(comments, postId)[c].postId != postId
    ensures forall u :: u in PullSaved(users, postId) ==> postId !in PullSaved(users, postId)[u].saved
    ensures References(posts, comments, users) ==>
      References(posts - {postId}, DeleteCommentsOf(comments, postId), PullSaved(users, postId))
  {
    var comments', users' := DeleteCommentsOf(comments, postId), PullSaved(users, postId);
    if References(posts, comments, users) {
      forall u, q | u in users' && q in users'[u].saved
        ensures q in posts - {postId}
      {
        assert q != postId;
        assert q in users[u].saved;
      }
    }
  }

  /** The stored post after the like handler's update: the caller's id
      toggled in `likes` and `likeCount` moved by one. */
  function LikeToggled(p: Post, u: Id): Post
  {
    p.(likes := Toggle(p.likes, u),
       statistics := p.statistics.(likeCount := p.statistics.likeCount + ToggleDelta(p.likes, u)))
  }

  /** Liking twice restores every user's membership and the like count, and
      the post itself when the first like added the caller. */
  lemma LikeTwiceRestores(p: Post, u: Id)
    ensures forall v :: v in LikeToggled(LikeToggled(p, u), u).likes <==> v in p.likes
    ensures LikeToggled(LikeToggled(p, u), u).statistics == p.statistics
    ensures u !in p.likes ==> LikeToggled(LikeToggled(p, u), u) == p
  {
    ToggleTwice(p.likes, u);
  }

  /** A post whose like list has no duplicates and whose `likeCount` is its
      length keeps both properties through a like. */
  lemma LikeKeepsCountInSync(p: Post, u: Id)
    requires NoDuplicates(p.likes) && p.statistics.likeCount == |p.likes|
    ensures NoDuplicates(LikeToggled(p, u).likes)
    ensures LikeToggled(p, u).statistics.likeCount == |LikeToggled(p, u).likes|
  {
    ToggleKeepsCount(p.likes, u);
  }

  /** `like`: toggles the caller in the post's like list. */
  method Like(db: Db, postId: Id, user: User) returns (out: Outcome<Post>)
    requires db.Valid()
    modifies db`posts
    ensures db.Valid()
    ensures postId !in old(db.posts) ==> out == NotFound(PostNotFound) && db.posts == old(db.posts)
    ensures postId in old(db.posts) ==>
      && db.posts == old(db.posts)[postId := LikeToggled(old(db.posts)[postId], user.id)]
      && out == Ok(db.posts[postId])
  {
    if postId !in db.posts {
      return NotFound(PostNotFound);
    }
    var post := db.posts[postId];
    var updated := LikeToggled(post, user.id);
    db.posts := db.posts[postId := updated];
    out := Ok(updated);
  }

  /** `save`: appends the post to the caller's saved list unless the
      caller's record (as attached to the request) already lists it. The
      write goes to the stored record with the caller's id, if any. */
  method Save(db: Db, postId: Id, user: User) returns (out: Outcome<()>)
    requires db.Valid()
    modifies db`users
    ensures db.Valid()
    ensures postId !in db.posts ==> out == NotFound(PostNotFound) && db.users == old(db.users)
    ensures postId in db.posts && postId in user.saved ==> out == BadRequest(PostSaved) && db.users == old(db.users)
    ensures postId in db.posts && postId !in user.saved ==>
      && out == Ok(())
      && db.users == if user.id in old(db.users)
                     then old(db.users)[user.id := old(db.users)[user.id].(saved := Push(old(db.users)[user.id].saved, postId))]
                     else old(db.users)
  {
    if postId !in db.posts {
      return NotFound(PostNotFound);
    }
    if postId in user.saved {
      return BadRequest(PostSaved);
    }
    if user.id in db.users {
      var stored := db.users[user.id];
      db.users := db.users[user.id := stored.(saved := Push(stored.saved, postId))];
    }
    out := Ok(());
  }

  /** `unsave`: pulls the post from the caller's saved list, if the caller's
      record (as attached to the request) lists it. */
  method Unsave(db: Db, postId: Id, user: User) returns (out: Outcome<()>)
    requires db.Valid()
    modifies db`users
    ensures db.Valid()
    ensures postId !in db.posts ==> out == NotFound(PostNotFound) && db.users == old(db.users)
    ensures postId in db.posts && postId !in user.saved ==> out == BadRequest(PostNotSaved) && db.users == old(db.users)
    ensures postId in db.posts && postId in user.saved ==>
      && out == Ok(())
      && db.users == if user.id in old(db.users)
                     then old(db.users)[user.id := old(db.users)[user.id].(saved := Pull(old(db.users)[user.id].saved, postId))]
                     else old(db.users)
  {
    if postId !in db.posts {
      return NotFound(PostNotFound);
    }
    if postId !in user.saved {
      return BadRequest(PostNotSaved);
    }
    if user.id in db.users {
      var stored := db.users[user.id];
      db.users := db.users[user.id := stored.(saved := Pull(stored.saved, postId))];
    }
    out := Ok(());
  }

  /** A save followed by an unsave in a later request (whose gate attaches
      the caller's refreshed record) leaves the users collection as it was.
      When the save fails, no unsave is made: the second result then only
      repeats the first. */
  method SaveThenUnsave(db: Db, postId: Id, userId: Id) returns (saved: Outcome<()>, unsaved: Outcome<()>)
    requires db.Valid() && userId in db.users
    modifies db`users
    ensures db.Valid()
    ensures saved.Ok? ==> unsaved.Ok? && db.users == old(db.users)
    ensures !saved.Ok? ==> unsaved == saved && db.users == old(db.users)
  {
    saved := Save(db, postId, db.users[userId]);
    if !saved.Ok? {
      return saved, saved;
    }
    PushThenPull(old(db.users)[userId].saved, postId);
    unsaved := Unsave(db, postId, db.users[userId]);
    assert db.users[userId] == old(db.users)[userId];
  }

  /** `search`: the posts matching `{ [searchFor]: searchTerm }`, newest
      first. */
  ghost function Search(db: Db, searchFor: Option<string>, searchTerm: Option<string>): (r: seq<Post>)
    requires db.Valid()
    reads db
    ensures forall p :: p in r <==> p in db.posts.Values && Matches(GenerateFilter(SearchCriteria(searchFor, searchTerm)), p)
    ensures forall i, j :: 0 <= i < j < |r| ==> r[i] != r[j]
    ensures forall i, j :: 0 <= i < j < |r| ==> r[i].createdAt >= r[j].createdAt
  {
    var f := GenerateFilter(SearchCriteria(searchFor, searchTerm));
    NewestFirst(set p | p in db.posts.Values && Matches(f, p), (p: Post) => p.createdAt)
  }

  /** A search on an unknown field returns every post. */
  lemma SearchUnknownFieldReturnsAll(db: Db, searchFor: Option<string>, searchTerm: Option<string>)
    requires db.Valid()
    requires searchFor !in {Some("search"), Some("username"), Some("hashtag")}
    ensures forall p :: p in Search(db, searchFor, searchTerm) <==> p in db.posts.Values
  {
    forall p ensures Matches(GenerateFilter(SearchCriteria(searchFor, searchTerm)), p) {
      UnknownSearchMatchesAll(searchFor, searchTerm, p);
    }
  }
}
