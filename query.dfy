/** The post filters the list, search, "my posts" and "saved posts" handlers
    build, what each filter matches, and the newest-first ordering of query
    results. */
module Query {
  import opened Model

  /** A query parameter counts only when it is truthy: present and not "". */
  predicate Truthy(v: Option<string>)
  {
    v.Some? && v.value != ""
  }

  /** The three criteria `generateFilter` looks at. */
  datatype Criteria = Criteria(search: Option<string>, username: Option<string>, hashtag: Option<string>)

  datatype Filter =
    | MatchAll                   // {}
    | SlugContains(pattern: string)  // { slug: { $regex: search } }
    | AuthorUsername(name: string)   // { 'author.username': username }
    | Hashtag(tag: string)           // { hashtags: hashtag }
    | AuthorIs(id: Id)               // { authorId: user._id }
    | IdIn(ids: seq<Id>)             // { _id: { $in: saved } }

  /** `pattern` occurs somewhere in `s`: it is a prefix of some suffix. */
  predicate IsSubstring(pattern: string, s: string)
  {
    pattern <= s || (s != [] && IsSubstring(pattern, s[1..]))
  }

  /** Whether a post satisfies a filter. A hashtag filter on an array field
      matches when the array contains the tag. */
  predicate Matches(f: Filter, p: Post)
  {
    match f
    case MatchAll => true
    case SlugContains(pattern) => IsSubstring(pattern, p.slug)
    case AuthorUsername(name) => p.author.Some? && p.author.value.username == name
    case Hashtag(tag) => tag in p.hashtags
    case AuthorIs(id) => p.authorId == Some(id)
    case IdIn(ids) => p.id in ids
  }

  /** `generateFilter`: at most one criterion, with priority search, then
      username, then hashtag. */
  function GenerateFilter(c: Criteria): (f: Filter)
    ensures Truthy(c.search) ==> f == SlugContains(c.search.value)
    ensures !Truthy(c.search) && Truthy(c.username) ==> f == AuthorUsername(c.username.value)
    ensures !Truthy(c.search) && !Truthy(c.username) && Truthy(c.hashtag) ==> f == Hashtag(c.hashtag.value)
    ensures f == MatchAll <==> !Truthy(c.search) && !Truthy(c.username) && !Truthy(c.hashtag)
  {
    if Truthy(c.search) then SlugContains(c.search.value)
    else if Truthy(c.username) then AuthorUsername(c.username.value)
    else if Truthy(c.hashtag) then Hashtag(c.hashtag.value)
    else MatchAll
  }

  /** With no criterion set the filter matches every post. */
  lemma NoCriteriaMatchesAll(c: Criteria, p: Post)
    requires !Truthy(c.search) && !Truthy(c.username) && !Truthy(c.hashtag)
    ensures Matches(GenerateFilter(c), p)
  {
  }

  /** The criteria object `{ [searchFor]: searchTerm }` of the search
      handler: a single key, named by `searchFor` (an absent `searchFor`
      becomes the key "undefined"). */
  function SearchCriteria(searchFor: Option<string>, searchTerm: Option<string>): (c: Criteria)
    ensures c.search.Some? ==> searchFor == Some("search")
    ensures c.username.Some? ==> searchFor == Some("username")
    ensures c.hashtag.Some? ==> searchFor == Some("hashtag")
    ensures searchFor == Some("search") ==> c == Criteria(searchTerm, None, None)
    ensures searchFor == Some("username") ==> c == Criteria(None, searchTerm, None)
    ensures searchFor == Some("hashtag") ==> c == Criteria(None, None, searchTerm)
  {
    var key := if searchFor.Some? then searchFor.value else "undefined";
    Criteria(
      if key == "search" then searchTerm else None,
      if key == "username" then searchTerm else None,
      if key == "hashtag" then searchTerm else None)
  }

  /** A search on any other field, or with an empty term, matches every post. */
  lemma UnknownSearchMatchesAll(searchFor: Option<string>, searchTerm: Option<string>, p: Post)
    requires searchFor !in {Some("search"), Some("username"), Some("hashtag")} || !Truthy(searchTerm)
    ensures GenerateFilter(SearchCriteria(searchFor, searchTerm)) == MatchAll
    ensures Matches(GenerateFilter(SearchCriteria(searchFor, searchTerm)), p)
  {
  }

  /** A slug search matches exactly the posts whose slug contains the term. */
  lemma SlugSearchSelectsSlug(term: string, p: Post)
    requires term != ""
    ensures Matches(GenerateFilter(SearchCriteria(Some("search"), Some(term))), p) <==> IsSubstring(term, p.slug)
  {
  }

  /** A username search matches exactly the posts whose author snapshot
      carries that username. */
  lemma UsernameSearchSelectsAuthor(name: string, p: Post)
    requires name != ""
    ensures Matches(GenerateFilter(SearchCriteria(Some("username"), Some(name))), p)
        <==> p.author.Some? && p.author.value.username == name
  {
  }

  /** A hashtag search matches exactly the posts carrying that tag. */
  lemma HashtagSearchSelectsTag(tag: string, p: Post)
    requires tag != ""
    ensures Matches(GenerateFilter(SearchCriteria(Some("hashtag"), Some(tag))), p) <==> tag in p.hashtags
  {
  }

  /** The filter of "my posts": posts whose `authorId` is the caller. */
  function MyListFilter(user: User): (f: Filter)
    ensures forall p :: Matches(f, p) <==> p.authorId == Some(user.id)
  {
    AuthorIs(user.id)
  }

  /** The filter of "saved posts": posts whose id is in the caller's list. */
  function SavedFilter(user: User): (f: Filter)
    ensures forall p :: Matches(f, p) <==> p.id in user.saved
  {
    IdIn(user.saved)
  }

  /** Some element of a non-empty set has the largest stamp. */
  lemma {:induction false} NewestExists<T>(s: set<T>, stamp: T -> int)
    requires s != {}
    ensures exists x :: x in s && forall y :: y in s ==> stamp(y) <= stamp(x)
  {
    var z :| z in s;
    if s != {z} {
      NewestExists(s - {z}, stamp);
      var x :| x in s - {z} && forall y :: y in s - {z} ==> stamp(y) <= stamp(x);
      if stamp(z) > stamp(x) {
        assert forall y :: y in s ==> stamp(y) <= stamp(z);
      } else {
        assert forall y :: y in s ==> stamp(y) <= stamp(x);
      }
    }
  }

  /** The documents of `s` ordered by `.sort({ createdAt: -1 })`: every
      document once, largest stamp first. Documents with equal stamps come
      in an unspecified order. */
  ghost function NewestFirst<T(!new)>(s: set<T>, stamp: T -> int): (r: seq<T>)
    ensures forall x :: x in r <==> x in s
    ensures |r| == |s|
    ensures forall i, j :: 0 <= i < j < |r| ==> r[i] != r[j]
    ensures forall i, j :: 0 <= i < j < |r| ==> stamp(r[i]) >= stamp(r[j])
    decreases s
  {
    if s == {} then []
    else
      NewestExists(s, stamp);
      var x :| x in s && forall y :: y in s ==> stamp(y) <= stamp(x);
      [x] + NewestFirst(s - {x}, stamp)
  }
}
