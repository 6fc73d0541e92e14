/** The comment handlers: list by post, create (with the comment-count
    resync and the `createComment` event), delete, and like. */
module CommentCtrl {
  import opened Model
  import opened Ops
  import opened Query
  import opened Database

  /** `Comment.find({ postId })`: an absent `postId` leaves the filter
      empty, and the empty filter matches every comment. */
  predicate Listed(postId: Option<Id>, c: Comment)
  {
    postId.None? || c.postId == postId.value
  }

  /** `getByPostId`: the comments of the post, newest first. */
  ghost function GetByPostId(db: Db, postId: Option<Id>): (r: seq<Comment>)
    requires db.Valid()
    reads db
    ensures forall c :: c in r <==> c in db.comments.Values && Listed(postId, c)
    ensures forall i, j :: 0 <= i < j < |r| ==> r[i] != r[j]
    ensures forall i, j :: 0 <= i < j < |r| ==> r[i].createdAt >= r[j].createdAt
  {
    NewestFirst(set c | c in db.comments.Values && Listed(postId, c), (c: Comment) => c.createdAt)
  }

  /** With a `postId`, the listing holds exactly as many comments as the
      post's live count. */
  lemma ListingMatchesCount(db: Db, postId: Id)
    requires db.Valid()
    ensures |GetByPostId(db, Some(postId))| == CommentCount(db.comments, postId)
  {
    var docs := set c | c in db.comments.Values && Listed(Some(postId), c);
    var ids := CommentsOf(db.comments, postId);
    assert ids == set c | c in docs :: c.id;
    SameSize(docs, ids, db.comments);
  }

  /** Taking the `id` of each comment in a set is one-to-one. */
  lemma {:induction false} SameSize(docs: set<Comment>, ids: set<Id>, comments: map<Id, Comment>)
    requires CommentsKeyed(comments)
    requires forall c :: c in docs ==> c.id in comments && comments[c.id] == c
    requires ids == set c | c in docs :: c.id
    ensures |docs| == |ids|
    decreases docs
  {
    if docs != {} {
      var c :| c in docs;
      var rest := docs - {c};
      var restIds := set d | d in rest :: d.id;
      assert ids == restIds + {c.id};
      assert c.id !in restIds;
      SameSize(rest, restIds, comments);
    }
  }

  /** The comment a create builds: the body, with the caller's profile as
      the `user` snapshot; what the body leaves out takes the schema's
      defaults (no likes, no `userId`). */
  function NewComment(id: Id, postId: Id, form: CommentForm, user: User, now: int): Comment
  {
    Comment(id, postId, form.userId, Some(SnapshotOf(user)), SetIfGiven([], form.likes), now, form.fields)
  }

  /** The post with its stored comment count replaced (`$set`). */
  function WithCommentCount(p: Post, n: int): Post
  {
    p.(statistics := p.statistics.(commentCount := n))
  }

  /** `create`: saves the comment under the post named in the body, writes
      the post's live comment count back, and emits `createComment` on the
      post's channel. `newId` is the ObjectId the database assigns and `now`
      the creation timestamp. */
  method Create(db: Db, form: CommentForm, user: User, newId: Id, now: int) returns (out: Outcome<Comment>)
    requires db.Valid() && newId !in db.comments
    modifies db`posts, db`comments, db`emitted
    ensures db.Valid()
    ensures form.postId.None? || form.postId.value !in old(db.posts) ==>
      && out == NotFound(PostNotFound)
      && db.posts == old(db.posts) && db.comments == old(db.comments) && db.emitted == old(db.emitted)
    ensures form.postId.Some? && form.postId.value in old(db.posts) ==>
      var postId := form.postId.value;
      && out.Ok?
      && out.payload == NewComment(newId, postId, form, user, now)
      && out.payload.user == Some(Profile(user.id, user.name, user.avatar, user.username, user.bio))
      && db.comments == old(db.comments)[newId := out.payload]
      && db.posts == old(db.posts)[postId := WithCommentCount(old(db.posts)[postId], CommentCount(db.comments, postId))]
      && db.posts[postId].statistics.commentCount == CommentCount(old(db.comments), postId) + 1
      && db.emitted == old(db.emitted) + [CreateComment(postId, out.payload)]
  {
    if form.postId.None? || form.postId.value !in db.posts {
      return NotFound(PostNotFound);
    }
    var postId := form.postId.value;
    var comment := NewComment(newId, postId, form, user, now);
    db.comments := db.comments[newId := comment];
    CountAfterInsert(old(db.comments), newId, comment, postId);
    var commentCount := CommentCount(db.comments, postId);
    db.posts := db.posts[postId := WithCommentCount(db.posts[postId], commentCount)];
    db.emitted := db.emitted + [CreateComment(postId, comment)];
    out := Ok(comment);
  }

  /** `remove` as written: once the comment is deleted, the resync names an
      undeclared `postId`, which throws; the handler answers 500, the post's
      comment count is never written and no `removeComment` is emitted. */
  method RemoveAsWritten(db: Db, commentId: Id, user: User) returns (out: Outcome<()>)
    requires db.Valid()
    modifies db`comments
    ensures db.Valid()
    ensures commentId !in old(db.comments) ==> out == NotFound(CommentNotFound) && db.comments == old(db.comments)
    ensures commentId in old(db.comments) ==>
      match AccessOf(user, old(db.comments)[commentId].userId)
      case Allowed => out == Internal && db.comments == old(db.comments) - {commentId}
      case Denied => out == Forbidden(NotAllowedDeleteComment) && db.comments == old(db.comments)
      case Throws => out == Internal && db.comments == old(db.comments)
  {
    if commentId !in db.comments {
      return NotFound(CommentNotFound);
    }
    var comment := db.comments[commentId];
    var access := AccessOf(user, comment.userId);
    if access == Throws {
      return Internal;
    }
    if access == Denied {
      return Forbidden(NotAllowedDeleteComment);
    }
    db.comments := db.comments - {commentId};
    // The count is computed, then the update of an undeclared binding throws.
    out := Internal;
  }

  /** `remove` as evidently intended: the resync targets the comment's own
      post, so the stored count equals the live count afterwards, and
      `removeComment` is emitted on that post's channel. */
  method Remove(db: Db, commentId: Id, user: User) returns (out: Outcome<()>)
    requires db.Valid()
    modifies db`posts, db`comments, db`emitted
    ensures db.Valid()
    ensures commentId !in old(db.comments) ==>
      && out == NotFound(CommentNotFound)
      && db.posts == old(db.posts) && db.comments == old(db.comments) && db.emitted == old(db.emitted)
    ensures commentId in old(db.comments) ==>
      var comment := old(db.comments)[commentId];
      match AccessOf(user, comment.userId)
      case Allowed =>
        && out == Ok(())
        && db.comments == old(db.comments) - {commentId}
        && db.posts == (if comment.postId in old(db.posts)
                        then old(db.posts)[comment.postId := WithCommentCount(old(db.posts)[comment.postId], CommentCount(db.comments, comment.postId))]
                        else old(db.posts))
        && CommentCount(db.comments, comment.postId) == CommentCount(old(db.comments), comment.postId) - 1
        && db.emitted == old(db.emitted) + [RemoveComment(comment.postId, commentId)]
      case Denied =>
        && out == Forbidden(NotAllowedDeleteComment)
        && db.posts == old(db.posts) && db.comments == old(db.comments) && db.emitted == old(db.emitted)
      case Throws =>
        && out == Internal
        && db.posts == old(db.posts) && db.comments == old(db.comments) && db.emitted == old(db.emitted)
  {
    if commentId !in db.comments {
      return NotFound(CommentNotFound);
    }
    var comment := db.comments[commentId];
    var access := AccessOf(user, comment.userId);
    if access == Throws {
      return Internal;
    }
    if access == Denied {
      return Forbidden(NotAllowedDeleteComment);
    }
    db.comments := db.comments - {commentId};
    CountAfterDelete(old(db.comments), commentId, comment.postId);
    var commentCount := CommentCount(db.comments, comment.postId);
    if comment.postId in db.posts {
      db.posts := db.posts[comment.postId := WithCommentCount(db.posts[comment.postId], commentCount)];
    }
    db.emitted := db.emitted + [RemoveComment(comment.postId, commentId)];
    out := Ok(());
  }

  /** One post whose stored count is 1 and its single comment, deleted by an
      admin: as written the post keeps the count 1 although no comment is
      left; the intended handler writes 0. */
  method StaleCountWitness(p: Id, c: Id, u: Id) returns (asWritten: int, intended: int, live: nat)
    ensures asWritten == 1 && intended == 0 && live == 0
  {
    var admin := User(u, "", "", "", "", "admin", []);
    var post := Post(p, "hello-world", None, None, [], [], Statistics(0, 0, 1), 0, map[]);
    var comment := Comment(c, p, None, None, [], 0, map[]);
    var db := new Db(map[p := post], map[c := comment], map[u := admin]);
    var out := RemoveAsWritten(db, c, admin);
    assert out == Internal;
    asWritten := db.posts[p].statistics.commentCount;
    assert db.comments == map[];
    live := CommentCount(db.comments, p);
    var db' := new Db(map[p := post], map[c := comment], map[u := admin]);
    out := Remove(db', c, admin);
    assert out == Ok(());
    assert db'.comments == map[];
    intended := db'.posts[p].statistics.commentCount;
  }

  /** `like`: toggles the caller in the comment's like list; comments keep
      no like counter. */
  method Like(db: Db, commentId: Id, user: User) returns (out: Outcome<Comment>)
    requires db.Valid()
    modifies db`comments
    ensures db.Valid()
    ensures commentId !in old(db.comments) ==> out == NotFound(CommentNotFound) && db.comments == old(db.comments)
    ensures commentId in old(db.comments) ==>
      var was := old(db.comments)[commentId];
      && db.comments == old(db.comments)[commentId := was.(likes := Toggle(was.likes, user.id))]
      && out == Ok(db.comments[commentId])
  {
    if commentId !in db.comments {
      return NotFound(CommentNotFound);
    }
    var comment := db.comments[commentId];
    var updated := comment.(likes := Toggle(comment.likes, user.id));
    db.comments := db.comments[commentId := updated];
    out := Ok(updated);
  }
}
