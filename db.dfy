/** The database the controllers share: the posts, comments and users
    collections keyed by `_id`, and the log of real-time events emitted to
    post channels. */
module Database {
  import opened Model

  /** A socket emission on the channel named by a post id. */
  datatype Event =
    | CreateComment(channel: Id, comment: Comment)
    | RemoveComment(channel: Id, commentId: Id)

  class Db {
    var posts: map<Id, Post>
    var comments: map<Id, Comment>
    var users: map<Id, User>
    var emitted: seq<Event>

    /** Every document is stored under its own `_id`. */
    ghost predicate Valid()
      reads this
    {
      PostsKeyed(posts) && CommentsKeyed(comments) && UsersKeyed(users)
    }

    constructor (posts: map<Id, Post>, comments: map<Id, Comment>, users: map<Id, User>)
      requires PostsKeyed(posts) && CommentsKeyed(comments) && UsersKeyed(users)
      ensures Valid()
      ensures this.posts == posts && this.comments == comments && this.users == users
      ensures emitted == []
    {
      this.posts := posts;
      this.comments := comments;
      this.users := users;
      emitted := [];
    }
  }
}
