/** The authentication gate run ahead of every handler that needs a caller:
    Authorization header, then token, then verification, then user lookup,
    then the user is attached to the request and the next handler runs.
    Token verification (signature and expiry) and the user lookup are
    parameters: `verify` stands for `jwt.verify` with the configured secret,
    `findUser` for `User.findOne({ _id })`. */
module Auth {
  import opened Model
  import opened Query

  /** `s.split(' ')`: the pieces between single spaces, empty pieces
      included. */
  function Split(s: string): (fields: seq<string>)
    ensures |fields| == 1 + multiset(s)[' ']
    ensures forall i :: 0 <= i < |fields| ==> ' ' !in fields[i]
  {
    if s == [] then [""]
    else
      assert s == [s[0]] + s[1..];
      var rest := Split(s[1..]);
      if s[0] == ' ' then [""] + rest
      else [[s[0]] + rest[0]] + rest[1..]
  }

  /** `fields.join(' ')`. */
  function Join(fields: seq<string>): string
    requires |fields| >= 1
  {
    if |fields| == 1 then fields[0] else fields[0] + " " + Join(fields[1..])
  }

  lemma SpacedAssoc(a: string, b: string, c: string)
    ensures (a + b) + " " + c == a + (b + " " + c)
  {
  }

  /** Gluing a prefix onto the first piece glues it onto the join. */
  lemma JoinGlue(prefix: string, fields: seq<string>)
    requires |fields| >= 1
    ensures Join([prefix + fields[0]] + fields[1..]) == prefix + Join(fields)
  {
    var glued := [prefix + fields[0]] + fields[1..];
    if |fields| == 1 {
      assert glued == [prefix + fields[0]];
    } else {
      assert glued[1..] == fields[1..];
      var rest := Join(fields[1..]);
      assert Join(glued) == (prefix + fields[0]) + " " + rest;
      SpacedAssoc(prefix, fields[0], rest);
    }
  }

  /** Joining the pieces of a split gives back the string. */
  lemma {:induction false} JoinSplit(s: string)
    ensures Join(Split(s)) == s
  {
    if s != [] {
      var rest := Split(s[1..]);
      JoinSplit(s[1..]);
      assert s == [s[0]] + s[1..];
      if s[0] == ' ' {
        var fields := [""] + rest;
        assert Split(s) == fields;
        assert fields[0] == "" && fields[1..] == rest;
        assert Join(fields) == "" + " " + Join(rest);
      } else {
        assert Split(s) == [[s[0]] + rest[0]] + rest[1..];
        JoinGlue([s[0]], rest);
      }
    }
  }

  /** One unfolding of `Split` on a leading non-space character. */
  lemma SplitCons(c: char, t: string)
    requires c != ' '
    ensures Split([c] + t) == [[c] + Split(t)[0]] + Split(t)[1..]
  {
    assert ([c] + t)[0] == c && ([c] + t)[1..] == t;
  }

  /** Splitting a string that starts with a space-free piece. */
  lemma {:induction false} SplitAfterPiece(piece: string, s: string)
    requires ' ' !in piece
    ensures Split(piece + s) == [piece + Split(s)[0]] + Split(s)[1..]
  {
    var fields := Split(s);
    if piece == [] {
      assert piece + s == s && piece + fields[0] == fields[0];
      assert fields == [fields[0]] + fields[1..];
    } else {
      var c, more := piece[0], piece[1..];
      assert piece == [c] + more;
      assert piece + s == [c] + (more + s);
      SplitAfterPiece(more, s);
      var inner := Split(more + s);
      assert inner[0] == more + fields[0] && inner[1..] == fields[1..];
      SplitCons(c, more + s);
      assert [c] + inner[0] == piece + fields[0];
    }
  }

  /** Splitting a join of space-free pieces gives back the pieces. */
  lemma {:induction false} SplitJoin(fields: seq<string>)
    requires |fields| >= 1
    requires forall i :: 0 <= i < |fields| ==> ' ' !in fields[i]
    ensures Split(Join(fields)) == fields
  {
    if |fields| == 1 {
      SplitAfterPiece(fields[0], "");
      assert fields[0] + "" == fields[0];
      assert Split("") == [""];
      assert fields == [fields[0]];
    } else {
      var tail := Join(fields[1..]);
      SplitJoin(fields[1..]);
      var spaced := " " + tail;
      assert Join(fields) == fields[0] + spaced;
      SplitAfterPiece(fields[0], spaced);
      assert spaced[0] == ' ' && spaced[1..] == tail;
      assert Split(spaced) == [""] + fields[1..];
      assert fields[0] + "" == fields[0];
      assert fields == [fields[0]] + fields[1..];
    }
  }

  /** `headerAuthorization.split(' ')[1]`: the second piece, absent
      (undefined) when the header holds no space. */
  function BearerToken(header: string): (token: Option<string>)
    ensures token.None? <==> ' ' !in header
    ensures token.Some? ==> ' ' !in token.value
  {
    var fields := Split(header);
    if |fields| >= 2 then Some(fields[1]) else None
  }

  /** The usual header shape: a scheme, one space, the token. */
  lemma BearerTokenOfScheme(scheme: string, token: string)
    requires ' ' !in scheme && ' ' !in token
    ensures BearerToken(scheme + " " + token) == Some(token)
  {
    SplitJoin([scheme, token]);
    assert Join([scheme, token]) == scheme + " " + token;
  }

  /** What `jwt.verify` yields: it throws, returns a falsy value, or
      returns a payload whose `_id` names a user. */
  datatype Decoded = VerifyThrows | Falsy | Claims(sub: Id)

  /** What the user lookup yields. */
  datatype Lookup = LookupThrows | NoSuchUser | Found(user: User)

  /** The gate's decision: reject with an answer, or accept with the user. */
  datatype Verdict = Reject(reply: Outcome<()>) | Accept(user: User)

  /** The gate, branch by branch in the order the middleware takes them;
      anything thrown is caught and answered with 500. */
  function Decide(header: Option<string>, verify: Option<string> -> Decoded, findUser: Id -> Lookup): Verdict
  {
    if !Truthy(header) then Reject(Unauthorized(AccessDenied))
    else
      match verify(BearerToken(header.value))
      case VerifyThrows => Reject(Internal)
      case Falsy => Reject(Unauthorized(InvalidAuthen))
      case Claims(sub) =>
        match findUser(sub)
        case LookupThrows => Reject(Internal)
        case NoSuchUser => Reject(NotFound(UserNotFound))
        case Found(user) => Accept(user)
  }

  /** Without a header the gate denies access without verifying or looking
      up anything: its answer does not depend on either. */
  lemma NoHeaderConsultsNothing(header: Option<string>, verify: Option<string> -> Decoded, findUser: Id -> Lookup,
                                verify': Option<string> -> Decoded, findUser': Id -> Lookup)
    requires !Truthy(header)
    ensures Decide(header, verify, findUser) == Reject(Unauthorized(AccessDenied))
    ensures Decide(header, verify, findUser) == Decide(header, verify', findUser')
  {
  }

  /** Which answer the gate gives when. A 401 comes only from a missing
      header or a falsy decode, a 404 only from a missing user, and a
      thrown exception always gives 500. */
  lemma DecisionKinds(header: Option<string>, verify: Option<string> -> Decoded, findUser: Id -> Lookup)
    ensures var v := Decide(header, verify, findUser);
      v.Reject? && v.reply.Unauthorized? <==>
        !Truthy(header) || verify(BearerToken(header.value)) == Falsy
    ensures var v := Decide(header, verify, findUser);
      v == Reject(Internal) <==>
        && Truthy(header)
        && var d := verify(BearerToken(header.value));
        && (d == VerifyThrows || (d.Claims? && findUser(d.sub) == LookupThrows))
    ensures var v := Decide(header, verify, findUser);
      v == Reject(NotFound(UserNotFound)) <==>
        && Truthy(header)
        && var d := verify(BearerToken(header.value));
        && d.Claims? && findUser(d.sub) == NoSuchUser
    ensures var v := Decide(header, verify, findUser);
      v.Accept? <==>
        && Truthy(header)
        && var d := verify(BearerToken(header.value));
        && d.Claims? && findUser(d.sub).Found?
    ensures var v := Decide(header, verify, findUser);
      v.Accept? ==> findUser(verify(BearerToken(header.value)).sub) == Found(v.user)
  {
  }

  /** The request and response of one call through the gate: `req.user`,
      the answer sent, if any, and how often `next` was called. */
  class Exchange {
    var user: Option<User>
    var reply: Option<Outcome<()>>
    var nextCalls: nat

    constructor ()
      ensures user == None && reply == None && nextCalls == 0
    {
      user := None;
      reply := None;
      nextCalls := 0;
    }
  }

  /** The middleware: either sends the rejection and stops, or attaches the
      user and calls `next` once without sending anything. */
  method Authenticate(ex: Exchange, header: Option<string>, verify: Option<string> -> Decoded, findUser: Id -> Lookup)
    modifies ex
    ensures Decide(header, verify, findUser).Reject? ==>
      && ex.reply == Some(Decide(header, verify, findUser).reply)
      && ex.user == old(ex.user) && ex.nextCalls == old(ex.nextCalls)
    ensures Decide(header, verify, findUser).Accept? ==>
      && ex.user == Some(Decide(header, verify, findUser).user)
      && ex.reply == old(ex.reply) && ex.nextCalls == old(ex.nextCalls) + 1
  {
    if !Truthy(header) {
      ex.reply := Some(Unauthorized(AccessDenied));
      return;
    }
    var token := BearerToken(header.value);
    var decoded := verify(token);
    if decoded == VerifyThrows {
      ex.reply := Some(Internal);
      return;
    }
    if decoded == Falsy {
      ex.reply := Some(Unauthorized(InvalidAuthen));
      return;
    }
    var found := findUser(decoded.sub);
    if found == LookupThrows {
      ex.reply := Some(Internal);
      return;
    }
    if found == NoSuchUser {
      ex.reply := Some(NotFound(UserNotFound));
      return;
    }
    ex.user := Some(found.user);
    ex.nextCalls := ex.nextCalls + 1;
  }
}
