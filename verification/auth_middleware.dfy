/**
 * `verifyToken`: the middleware that reads the bearer token from the
 * `Authorization` header, verifies it and attaches the payload to the
 * request. The signature check is the parameter `verify` (None when the
 * token is invalid or expired).
 */
module AuthMiddleware {
  import opened Js
  import opened Schema

  const Scheme: string := "Bearer "

  /**
   * The token the middleware passes to the verifier: `None` when the header
   * is missing, empty or does not start with exactly "Bearer ", otherwise
   * piece 1 of the header split on single spaces.
   */
  function BearerToken(header: Option<string>): (r: Option<string>)
    ensures r.Some? <==> Truthy(header) && IsPrefix(Scheme, header.value)
    ensures r.Some? ==> ' ' !in r.value
  {
    if !Truthy(header) || !IsPrefix(Scheme, header.value) then None
    else
      var h := header.value;
      assert h == "Bearer" + [' '] + h[7..];
      SplitAtFirst("Bearer", ' ', h[7..]);
      Some(Split(h, ' ')[1])
  }

  /** The token is everything after "Bearer " up to the next space. */
  lemma BearerTokenUpToSpace(t: string, rest: string)
    requires ' ' !in t
    ensures BearerToken(Some(Scheme + t + [' '] + rest)) == Some(t)
  {
    var tail := t + [' '] + rest;
    var h := Scheme + t + [' '] + rest;
    assert h == "Bearer" + [' '] + tail;
    assert h[..7] == Scheme;
    SplitAtFirst("Bearer", ' ', tail);
    SplitAtFirst(t, ' ', rest);
    assert Split(h, ' ') == ["Bearer"] + ([t] + Split(rest, ' '));
  }

  /** A token without spaces after "Bearer " is extracted unchanged. */
  lemma BearerTokenOf(t: string)
    requires ' ' !in t
    ensures BearerToken(Some(Scheme + t)) == Some(t)
  {
    var h := Scheme + t;
    assert h == "Bearer" + [' '] + t;
    assert h[..7] == Scheme;
    SplitAtFirst("Bearer", ' ', t);
    assert Split(h, ' ') == ["Bearer"] + [t];
  }

  /** Splitting on single spaces: "Bearer  x" (two spaces) yields the empty token. */
  lemma BearerTokenDoubleSpace(x: string)
    ensures BearerToken(Some("Bearer  " + x)) == Some("")
  {
    BearerTokenUpToSpace([], x);
    assert Scheme + [] + [' '] + x == "Bearer  " + x;
  }

  /**
   * The prefix test is case-sensitive, although section 2.1 of RFC 6750
   * (through section 2.1 of RFC 7235) lets the scheme name be written in
   * any case: "bearer <token>" is refused.
   */
  lemma LowerCaseSchemeRefused(t: string)
    ensures BearerToken(Some("bearer " + t)) == None
  {
    assert ("bearer " + t)[0] == 'b';
  }

  /** The Express request as far as the middleware touches it: `req.user` and the calls made to `next`. */
  class Request {
    var user: Option<TokenUser>
    var nextCalls: nat

    constructor ()
      ensures user == None && nextCalls == 0
    {
      user := None;
      nextCalls := 0;
    }
  }

  /**
   * `verifyToken(req, res, next)`: answers 401 "No token provided" without
   * a usable header, 401 "Invalid or expired token" when verification
   * fails, and otherwise sets `req.user` and calls `next` once
   * (`rejection == None`).
   */
  method VerifyToken(req: Request, header: Option<string>, verify: string -> Option<TokenUser>)
    returns (rejection: Option<Reply<()>>)
    modifies req
    ensures BearerToken(header).None? ==>
      rejection == Some(Fail(401, "No token provided")) && req.user == old(req.user) && req.nextCalls == old(req.nextCalls)
    ensures BearerToken(header).Some? && verify(BearerToken(header).value).None? ==>
      rejection == Some(Fail(401, "Invalid or expired token")) && req.user == old(req.user) && req.nextCalls == old(req.nextCalls)
    ensures BearerToken(header).Some? && verify(BearerToken(header).value).Some? ==>
      rejection == None && req.user == verify(BearerToken(header).value) && req.nextCalls == old(req.nextCalls) + 1
  {
    var token := BearerToken(header);
    if token.None? {
      return Some(Fail(401, "No token provided"));
    }
    var decoded := verify(token.value);
    if decoded.None? {
      return Some(Fail(401, "Invalid or expired token"));
    }
    req.user := decoded;
    req.nextCalls := req.nextCalls + 1;
    rejection := None;
  }
}
