/** The MongoDB update operators and collection-wide operations the handlers
    use, as functions on the in-memory tables: `$push`, `$pull`, the like
    toggle built from them, `countDocuments`, `deleteMany` and `updateMany`. */
module Ops {
  import opened Model

  /** No element occurs twice (the intended shape of a like list). */
  ghost predicate NoDuplicates<T(!new)>(s: seq<T>)
  {
    forall x :: multiset(s)[x] <= 1
  }

  /** `$push`: append one element. */
  function Push<T>(s: seq<T>, x: T): (r: seq<T>)
    ensures multiset(r) == multiset(s) + multiset{x}
    ensures |r| == |s| + 1 && r[|s|] == x && r[..|s|] == s
  {
    s + [x]
  }

  /** `$pull`: remove every occurrence of `x`, keeping the rest in order. */
  function Pull<T(==, !new)>(s: seq<T>, x: T): (r: seq<T>)
    ensures x !in r
    ensures multiset(r) == multiset(s)[x := 0]
    ensures |r| == |s| - multiset(s)[x]
    ensures forall y :: y != x ==> (y in r <==> y in s)
    ensures x !in s ==> r == s
  {
    if s == [] then []
    else
      assert s == [s[0]] + s[1..];
      if s[0] == x then Pull(s[1..], x)
      else [s[0]] + Pull(s[1..], x)
  }

  /** `$pull` distributes over concatenation. */
  lemma {:induction false} PullAppend<T(!new)>(a: seq<T>, b: seq<T>, x: T)
    ensures Pull(a + b, x) == Pull(a, x) + Pull(b, x)
  {
    if a == [] {
      assert a + b == b;
    } else {
      assert (a + b)[0] == a[0] && (a + b)[1..] == a[1..] + b;
      PullAppend(a[1..], b, x);
      if a[0] != x {
        assert Pull(a + b, x) == [a[0]] + (Pull(a[1..], x) + Pull(b, x));
      }
    }
  }

  /** Pushing an absent element and pulling it again restores the sequence. */
  lemma PushThenPull<T(!new)>(s: seq<T>, x: T)
    requires x !in s
    ensures Pull(Push(s, x), x) == s
  {
    PullAppend(s, [x], x);
    assert Pull([x], x) == [];
  }

  /** The membership toggle of a like handler: pull the caller if present,
      push otherwise. */
  function Toggle(likes: seq<Id>, u: Id): (r: seq<Id>)
    ensures u in r <==> u !in likes
    ensures forall v :: v != u ==> (v in r <==> v in likes)
  {
    if u in likes then Pull(likes, u) else Push(likes, u)
  }

  /** The `$inc` applied to `likeCount` next to a toggle. */
  function ToggleDelta(likes: seq<Id>, u: Id): int
  {
    if u in likes then -1 else 1
  }

  /** Toggling twice restores membership of every user, and restores the
      list itself when the user was not in it to begin with. */
  lemma ToggleTwice(likes: seq<Id>, u: Id)
    ensures forall v :: v in Toggle(Toggle(likes, u), u) <==> v in likes
    ensures ToggleDelta(likes, u) + ToggleDelta(Toggle(likes, u), u) == 0
    ensures u !in likes ==> Toggle(Toggle(likes, u), u) == likes
  {
    if u !in likes {
      PushThenPull(likes, u);
    }
  }

  /** On a list without duplicates the toggle keeps it duplicate-free and
      changes its length by exactly the counter's increment. */
  lemma ToggleKeepsCount(likes: seq<Id>, u: Id)
    requires NoDuplicates(likes)
    ensures NoDuplicates(Toggle(likes, u))
    ensures |Toggle(likes, u)| == |likes| + ToggleDelta(likes, u)
  {
    var r := Toggle(likes, u);
    if u in likes {
      assert multiset(likes)[u] == 1;
      forall v ensures multiset(r)[v] <= 1 {
        assert multiset(r)[v] == if v == u then 0 else multiset(likes)[v];
      }
    } else {
      assert multiset(likes)[u] == 0;
      forall v ensures multiset(r)[v] <= 1 {
        assert multiset(r)[v] == multiset(likes)[v] + multiset{u}[v];
      }
    }
  }

  /** The identifiers of the comments whose `postId` is `postId`. */
  function CommentsOf(comments: map<Id, Comment>, postId: Id): (ids: set<Id>)
    ensures forall c :: c in ids <==> c in comments && comments[c].postId == postId
  {
    set c | c in comments && comments[c].postId == postId
  }

  /** `Comment.countDocuments({ postId })`. */
  function CommentCount(comments: map<Id, Comment>, postId: Id): nat
  {
    |CommentsOf(comments, postId)|
  }

  /** Inserting a new comment adds one to its post's count and leaves every
      other post's count alone. */
  lemma CountAfterInsert(comments: map<Id, Comment>, k: Id, c: Comment, p: Id)
    requires k !in comments
    ensures CommentCount(comments[k := c], p)
         == CommentCount(comments, p) + (if c.postId == p then 1 else 0)
  {
    var before, after := CommentsOf(comments, p), CommentsOf(comments[k := c], p);
    if c.postId == p {
      assert after == before + {k};
    } else {
      assert after == before;
    }
  }

  /** Deleting one comment takes one off its post's count and leaves every
      other post's count alone. */
  lemma CountAfterDelete(comments: map<Id, Comment>, k: Id, p: Id)
    requires k in comments
    ensures CommentCount(comments - {k}, p)
         == CommentCount(comments, p) - (if comments[k].postId == p then 1 else 0)
  {
    var before, after := CommentsOf(comments, p), CommentsOf(comments - {k}, p);
    if comments[k].postId == p {
      assert before == after + {k};
    } else {
      assert after == before;
    }
  }

  /** `Comment.deleteMany({ postId })`. */
  function DeleteCommentsOf(comments: map<Id, Comment>, postId: Id): (r: map<Id, Comment>)
    ensures forall c :: c in r <==> c in comments && comments[c].postId != postId
    ensures forall c :: c in r ==> r[c] == comments[c]
    ensures CommentCount(r, postId) == 0
  {
    var r := map c | c in comments && comments[c].postId != postId :: comments[c];
    assert CommentsOf(r, postId) == {};
    r
  }

  /** `User.updateMany({ saved: { $in: [postId] } }, { $pull: { saved: postId } })`. */
  function PullSaved(users: map<Id, User>, postId: Id): (r: map<Id, User>)
    ensures r.Keys == users.Keys
    ensures forall u :: u in r ==> postId !in r[u].saved
    ensures forall u :: u in r ==> r[u] == users[u].(saved := Pull(users[u].saved, postId))
    ensures forall u, q :: u in r && q != postId ==> (q in r[u].saved <==> q in users[u].saved)
  {
    map u | u in users :: if postId in users[u].saved then users[u].(saved := Pull(users[u].saved, postId)) else users[u]
  }
}
