/** The authentication gate (backend/src/middleware/auth.js): `protect`
    reads a bearer token from the Authorization header, verifies it, looks
    up the user it names and attaches that user to the request; every
    other path ends the request with 401, except a verification failure
    of an unexpected kind, which goes on to the error handler. Token
    verification is foreign code and is a parameter here. */
module AuthGate {
  import opened Base
  import opened Text
  import opened UserModel
  import ErrorHandler

  /** What `jwt.verify(token, secret)` does: return the decoded id, or
      throw a JsonWebTokenError, a TokenExpiredError or another error. */
  datatype VerifyResult =
    | Verified(id: UserId)
    | InvalidToken
    | ExpiredToken
    | OtherFailure(name: string, message: string)

  const NoTokenMessage := "Not authorized — no token provided"
  const UserGoneMessage := "Not authorized — user no longer exists"
  const InvalidTokenMessage := "Not authorized — invalid token"
  const ExpiredTokenMessage := "Not authorized — token expired"

  /** Every rejection `protect` itself sends is a 401. */
  const RejectStatus := 401

  /** The three ways `protect` ends: a 401 with a message, `next()` with
      `req.user` set, or `next(error)`. */
  datatype GateOutcome =
    | Reject(message: string)
    | Next(user: User)
    | PassOn(error: ErrorHandler.AppError)

  function StartsWith(s: string, prefix: string): bool
  {
    |prefix| <= |s| && s[..|prefix|] == prefix
  }

  /** `s.split(' ')`: the words between single spaces, empty ones included. */
  function Split(s: string): (words: seq<string>)
    ensures |words| >= 1
    ensures forall k :: 0 <= k < |words| ==> ' ' !in words[k]
    ensures |words| >= 2 <==> ' ' in s
    decreases |s|
  {
    var i := IndexFrom(s, ' ', 0);
    if i == |s| then [s] else [s[..i]] + Split(s[i + 1..])
  }

  /** `words.join(' ')`. */
  function Join(words: seq<string>): string
    requires |words| >= 1
  {
    if |words| == 1 then words[0] else words[0] + " " + Join(words[1..])
  }

  /** Splitting loses nothing: joining the words again gives the input. */
  lemma {:induction false} SplitJoin(s: string)
    ensures Join(Split(s)) == s
    decreases |s|
  {
    var i := IndexFrom(s, ' ', 0);
    if i < |s| {
      SplitJoin(s[i + 1..]);
      assert s == s[..i] + " " + s[i + 1..];
    }
  }

  /** The first space of a word followed by a space, or by nothing, is
      right after the word. */
  lemma FirstSpace(w: string, tail: string)
    requires ' ' !in w
    requires tail == [] || tail[0] == ' '
    ensures IndexFrom(w + tail, ' ', 0) == |w|
  {
    var s := w + tail;
    forall k | 0 <= k < |w| ensures s[k] != ' ' { assert s[k] == w[k]; }
    if tail != [] { assert s[|w|] == tail[0]; }
  }

  /** The word after the first space and before the next one. */
  lemma SecondWord(first: string, second: string, rest: string)
    requires ' ' !in first && ' ' !in second
    ensures Split(first + " " + second + rest)[1] == second
      <== rest == [] || rest[0] == ' '
  {
    if rest == [] || rest[0] == ' ' {
      var s := first + " " + second + rest;
      var t := second + rest;
      assert s == first + (" " + t);
      FirstSpace(first, " " + t);
      assert s[|first| + 1..] == t;
      SplitAtSpace(s, |first|);
      FirstSpace(second, rest);
      FirstWordOf(t, |second|);
      assert t[..|second|] == second;
    }
  }

  /** Splitting at the first space: the word before it, then the words of
      what follows it. */
  lemma SplitAtSpace(s: string, i: nat)
    requires i < |s| && IndexFrom(s, ' ', 0) == i
    ensures Split(s) == [s[..i]] + Split(s[i + 1..])
  {
  }

  /** The first word runs up to the first space. */
  lemma FirstWordOf(s: string, i: nat)
    requires i <= |s| && IndexFrom(s, ' ', 0) == i
    ensures Split(s)[0] == s[..i]
  {
  }

  /** The token `protect` uses: only a non-empty header that starts with
      `Bearer` is read, the token is its second space-separated word, and
      a missing or empty word counts as no token. */
  function ExtractToken(header: Option<string>): (token: Option<string>)
    ensures token.Some? ==> header.Some? && StartsWith(header.value, "Bearer")
    ensures token.Some? ==> token.value != "" && ' ' !in token.value
    ensures token.Some? ==> |Split(header.value)| >= 2 && token.value == Split(header.value)[1]
    ensures header.Some? && StartsWith(header.value, "Bearer") && |Split(header.value)| >= 2 && Split(header.value)[1] != "" ==>
      token == Some(Split(header.value)[1])
  {
    if header.Some? && header.value != "" && StartsWith(header.value, "Bearer") then
      var words := Split(header.value);
      if |words| >= 2 && words[1] != "" then Some(words[1]) else None
    else None
  }

  /** `Bearer <token>` yields the token; a header without the scheme, or
      with nothing after it, yields none. */
  lemma ExtractTokenCases(token: string, other: string)
    requires token != "" && ' ' !in token
    requires !StartsWith(other, "Bearer")
    ensures ExtractToken(Some("Bearer " + token)) == Some(token)
    ensures ExtractToken(Some("Bearer")) == None
    ensures ExtractToken(Some("Bearer ")) == None
    ensures ExtractToken(Some(other)) == None
    ensures ExtractToken(None) == None
  {
    assert "Bearer " + token == "Bearer" + " " + token + [];
    SecondWord("Bearer", token, []);
    assert "Bearer " == "Bearer" + " " + [] + [];
    SecondWord("Bearer", [], []);
  }

  /** Words after the token are ignored: `Bearer <token> <extra>` yields
      the token. */
  lemma ExtraWordsAreIgnored(token: string, extra: string)
    requires token != "" && ' ' !in token
    ensures ExtractToken(Some("Bearer " + token + " " + extra)) == Some(token)
  {
    var header := "Bearer " + token + " " + extra;
    assert header == "Bearer" + " " + token + (" " + extra);
    SecondWord("Bearer", token, " " + extra);
    assert header[..6] == "Bearer";
  }

  /** The decision `protect` takes: no token, then an invalid or expired
      token, then a user that no longer exists, and only then success. */
  function Authenticate(header: Option<string>, verify: string -> VerifyResult,
                        users: map<UserId, User>): (o: GateOutcome)
    ensures ExtractToken(header).None? ==> o == Reject(NoTokenMessage)
    ensures o.Next? <==>
      && ExtractToken(header).Some?
      && verify(ExtractToken(header).value).Verified?
      && verify(ExtractToken(header).value).id in users
    ensures o.Next? ==> o.user == users[verify(ExtractToken(header).value).id]
    ensures ExtractToken(header).Some? ==> match verify(ExtractToken(header).value)
      case InvalidToken => o == Reject(InvalidTokenMessage)
      case ExpiredToken => o == Reject(ExpiredTokenMessage)
      case OtherFailure(name, message) => o == PassOn(ErrorHandler.PlainError(name, message))
      case Verified(id) => id !in users ==> o == Reject(UserGoneMessage)
  {
    match ExtractToken(header)
    case None => Reject(NoTokenMessage)
    case Some(token) =>
      match verify(token)
      case InvalidToken => Reject(InvalidTokenMessage)
      case ExpiredToken => Reject(ExpiredTokenMessage)
      case OtherFailure(name, message) => PassOn(ErrorHandler.PlainError(name, message))
      case Verified(id) => if id in users then Next(users[id]) else Reject(UserGoneMessage)
  }

  /** The request as the middleware chain sees it: the Authorization header
      and `req.user`, which `protect` sets. */
  class Request {
    const authorization: Option<string>
    var user: Option<User>

    constructor (authorization: Option<string>)
      ensures this.authorization == authorization && user == None
    {
      this.authorization := authorization;
      user := None;
    }
  }

  /** `protect(req, res, next)`: `req.user` is set exactly when the request
      goes on to the next handler, and then to the user the token names. */
  method Protect(req: Request, verify: string -> VerifyResult, users: map<UserId, User>)
    returns (outcome: GateOutcome)
    modifies req
    ensures outcome == Authenticate(req.authorization, verify, users)
    ensures req.user == (if outcome.Next? then Some(outcome.user) else old(req.user))
  {
    var token: Option<string> := None;
    var header := req.authorization;
    if header.Some? && header.value != "" && StartsWith(header.value, "Bearer") {
      var words := Split(header.value);
      token := if |words| >= 2 then Some(words[1]) else None;
    }

    if token.None? || token.value == "" {
      return Reject(NoTokenMessage);
    }

    var decoded := verify(token.value);
    if decoded.InvalidToken? {
      return Reject(InvalidTokenMessage);
    }
    if decoded.ExpiredToken? {
      return Reject(ExpiredTokenMessage);
    }
    if decoded.OtherFailure? {
      return PassOn(ErrorHandler.PlainError(decoded.name, decoded.message));
    }

    if decoded.id !in users {
      return Reject(UserGoneMessage);
    }
    req.user := Some(users[decoded.id]);
    return Next(users[decoded.id]);
  }
}
