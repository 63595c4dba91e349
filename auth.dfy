/**
 * The authentication middleware: it reads the `Authorization` header, requires the "Bearer "
 * prefix, takes the second field of the header split on single spaces as the token, and lets the
 * request through to the next handler only when the token verifies. Token verification (a JWT
 * checked against a fixed secret) is a library call outside this model; it is the parameter
 * `verify`, which yields the id carried by a valid token.
 */
module AuthMiddleware {
  import opened Wrappers
  import opened Http
  import opened Database

  const BearerPrefix: string := "Bearer "
  const NoTokenMessage: string := "No token, authorization denied"
  const InvalidTokenMessage: string := "Invalid token"

  // ---------------------------------------------------------------------------------------------
  // `String.prototype.split` on a one-character separator

  /** `s.split(sep)`: the fields between separators, empty fields included. */
  function Split(s: string, sep: char): (fields: seq<string>)
    ensures |fields| >= 1
    ensures forall k :: 0 <= k < |fields| ==> sep !in fields[k]
  {
    if s == [] then [""]
    else
      var rest := Split(s[1..], sep);
      if s[0] == sep then [""] + rest
      else [[s[0]] + rest[0]] + rest[1..]
  }

  /** `fields.join(sep)`, the inverse of `Split`. */
  function Join(fields: seq<string>, sep: char): string
    requires |fields| >= 1
  {
    if |fields| == 1 then fields[0] else fields[0] + [sep] + Join(fields[1..], sep)
  }

  /** Joining the fields of a split gives back the string. */
  lemma {:induction false} JoinSplit(s: string, sep: char)
    ensures Join(Split(s, sep), sep) == s
  {
    if s != [] {
      var rest := Split(s[1..], sep);
      JoinSplit(s[1..], sep);
      if s[0] == sep {
        assert Split(s, sep)[1..] == rest;
      } else {
        var fields := Split(s, sep);
        assert fields[1..] == rest[1..];
        if |rest| > 1 {
          assert rest[0] + [sep] + Join(rest[1..], sep) == s[1..];
        }
      }
    }
  }

  /** A field free of the separator, followed by the separator, is split off as the first field. */
  lemma {:induction false} SplitAfterField(field: string, sep: char, rest: string)
    requires sep !in field
    ensures Split(field + [sep] + rest, sep) == [field] + Split(rest, sep)
  {
    if field == [] {
      assert field + [sep] + rest == [sep] + rest;
    } else {
      assert (field + [sep] + rest)[1..] == field[1..] + [sep] + rest;
      SplitAfterField(field[1..], sep, rest);
      assert [field[0]] + field[1..] == field;
    }
  }

  /** Splitting a join of separator-free fields gives back the fields. */
  lemma {:induction false} SplitJoin(fields: seq<string>, sep: char)
    requires |fields| >= 1
    requires forall k :: 0 <= k < |fields| ==> sep !in fields[k]
    ensures Split(Join(fields, sep), sep) == fields
  {
    if |fields| == 1 {
      SplitField(fields[0], sep);
    } else {
      SplitJoin(fields[1..], sep);
      SplitAfterField(fields[0], sep, Join(fields[1..], sep));
      assert [fields[0]] + fields[1..] == fields;
    }
  }

  /** A string without the separator splits into itself alone. */
  lemma {:induction false} SplitField(field: string, sep: char)
    requires sep !in field
    ensures Split(field, sep) == [field]
  {
    if field != [] {
      SplitField(field[1..], sep);
      assert [field[0]] + field[1..] == field;
    }
  }

  // ---------------------------------------------------------------------------------------------
  // The gate

  /**
   * `authHeader.split(" ")[1]` on a header that starts with "Bearer ": the text after the prefix
   * up to the next space or the end of the header.
   */
  function BearerToken(header: string): (token: string)
    requires BearerPrefix <= header
    ensures ' ' !in token
    ensures |BearerPrefix| + |token| <= |header|
    ensures header[|BearerPrefix|..|BearerPrefix| + |token|] == token
    ensures |BearerPrefix| + |token| == |header| || header[|BearerPrefix| + |token|] == ' '
  {
    SecondField(header);
    Split(header, ' ')[1]
  }

  /** The second field of a "Bearer " header is the first field of the text after the prefix. */
  lemma SecondField(header: string)
    requires BearerPrefix <= header
    ensures |Split(header, ' ')| >= 2
    ensures var token := Split(header, ' ')[1];
      && |BearerPrefix| + |token| <= |header|
      && header[|BearerPrefix|..|BearerPrefix| + |token|] == token
      && (|BearerPrefix| + |token| == |header| || header[|BearerPrefix| + |token|] == ' ')
  {
    var rest := header[|BearerPrefix|..];
    assert header == "Bearer" + [' '] + rest;
    SplitAfterField("Bearer", ' ', rest);
    var fields := Split(rest, ' ');
    assert Split(header, ' ')[1] == fields[0];
    JoinSplit(rest, ' ');
    var token := fields[0];
    if |fields| > 1 {
      assert rest == token + [' '] + Join(fields[1..], ' ');
      assert rest[..|token|] == token && rest[|token|] == ' ';
    } else {
      assert rest == token;
    }
    assert header[|BearerPrefix|..|BearerPrefix| + |token|] == rest[..|token|];
  }

  /** What the middleware does with a request: pass it on for a user, or answer with a status. */
  datatype AuthOutcome = Next(userId: UserId) | Reject(status: int, message: string)

  /**
   * The middleware's decision. A missing header or one without the "Bearer " prefix is refused
   * with 401 "No token, authorization denied"; a token that fails verification with 401 "Invalid
   * token"; a token that verifies lets the request through as the user it names.
   */
  function Authorize(header: Option<string>, verify: string -> Option<UserId>): (o: AuthOutcome)
    ensures o.Reject? ==> o.status == Unauthorized
    ensures header.None? || !(BearerPrefix <= header.value) ==> o == Reject(Unauthorized, NoTokenMessage)
    ensures o.Next? <==> header.Some? && BearerPrefix <= header.value && verify(BearerToken(header.value)).Some?
    ensures o.Next? ==> Some(o.userId) == verify(BearerToken(header.value))
    ensures o.Reject? && header.Some? && BearerPrefix <= header.value ==> o.message == InvalidTokenMessage
  {
    if header.Some? && BearerPrefix <= header.value then
      match verify(BearerToken(header.value))
      case Some(id) => Next(id)
      case None => Reject(Unauthorized, InvalidTokenMessage)
    else Reject(Unauthorized, NoTokenMessage)
  }

  /** A space-free token sent after the "Bearer " prefix is exactly the token the middleware reads. */
  lemma BearerHeaderToken(token: string)
    requires ' ' !in token
    ensures BearerToken(BearerPrefix + token) == token
  {
    var header := BearerPrefix + token;
    assert header == "Bearer" + [' '] + token;
    SplitAfterField("Bearer", ' ', token);
    SplitField(token, ' ');
  }

  /** A token signed for a user, sent with the "Bearer " prefix, lets that user through. */
  lemma SignedTokenAuthenticates(id: UserId, token: string, verify: string -> Option<UserId>)
    requires ' ' !in token && verify(token) == Some(id)
    ensures Authorize(Some(BearerPrefix + token), verify) == Next(id)
  {
    BearerHeaderToken(token);
  }

  /**
   * A well-formed "Bearer " header whose token does not verify (expired, forged, or signed with
   * another secret) is refused with 401 "Invalid token", never with the missing-token answer.
   */
  lemma ForeignTokenRejected(token: string, verify: string -> Option<UserId>)
    requires ' ' !in token && verify(token).None?
    ensures Authorize(Some(BearerPrefix + token), verify) == Reject(Unauthorized, InvalidTokenMessage)
  {
    BearerHeaderToken(token);
  }

  // ---------------------------------------------------------------------------------------------
  // The request and response the middleware acts on

  /**
   * One request as it passes through the middleware: its header, the user it attaches, the
   * response it may send, and how often it called the next handler.
   */
  class Exchange {
    const authorization: Option<string>
    var user: Option<UserId>
    var status: Option<int>
    var message: string
    var nextCalls: nat

    constructor (authorization: Option<string>)
      ensures this.authorization == authorization
      ensures user == None && status == None && message == "" && nextCalls == 0
    {
      this.authorization := authorization;
      user := None;
      status := None;
      message := "";
      nextCalls := 0;
    }
  }

  /**
   * `authMiddleware(req, res, next)`. On success `req.user` is set to the verified id and the next
   * handler is called once, with no response sent; otherwise a 401 response is sent and the next
   * handler is not called.
   */
  method Authenticate(x: Exchange, verify: string -> Option<UserId>)
    modifies x
    ensures match Authorize(x.authorization, verify)
      case Next(id) =>
        && x.user == Some(id)
        && x.nextCalls == old(x.nextCalls) + 1
        && x.status == old(x.status) && x.message == old(x.message)
      case Reject(code, text) =>
        && x.status == Some(code) && x.message == text
        && x.user == old(x.user)
        && x.nextCalls == old(x.nextCalls)
  {
    var header := x.authorization;
    if header.Some? && BearerPrefix <= header.value {
      SecondField(header.value);
      var token := Split(header.value, ' ')[1];
      var decoded := verify(token);
      if decoded.Some? {
        x.user := Some(decoded.value);
        x.nextCalls := x.nextCalls + 1;
      } else {
        x.status, x.message := Some(Unauthorized), InvalidTokenMessage;
      }
    } else {
      x.status, x.message := Some(Unauthorized), NoTokenMessage;
    }
  }
}
