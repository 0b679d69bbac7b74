/** `verifyToken(req)`: reads the bearer token of the `Authorization`
    header and verifies it with `jwt.verify`, which is the parameter
    `verify` (it decodes the payload or fails with a message). */
module AuthMiddleware {
  import opened Wrappers
  import opened Text
  import opened Tokens

  const Prefix := "Bearer "
  const MalformedMessage := "Authorization header is missing or malformed"
  const FailedPrefix := "Failed to authenticate token: "

  datatype Outcome = Authenticated(userData: Claims) | Rejected(message: string)

  datatype Result = Result(status: int, outcome: Outcome)

  /** `authHeader.split(' ')[1]`: the second space-separated segment, or
      `None` (`undefined`) when there is none. */
  function BearerToken(header: string): (t: Option<string>)
    ensures t.Some? ==> ' ' !in t.value
  {
    var parts := Split(header, ' ');
    SplitSegments(header, ' ');
    if |parts| > 1 then Some(parts[1]) else None
  }

  /** After the prefix, the token runs up to the next space. */
  lemma BearerTokenAfterPrefix(rest: string)
    ensures BearerToken(Prefix + rest) == Some(Split(rest, ' ')[0])
    ensures ' ' !in rest ==> BearerToken(Prefix + rest) == Some(rest)
  {
    assert Prefix + rest == "Bearer" + [' '] + rest;
    SplitAtFirstSeparator("Bearer", rest, ' ');
    if ' ' !in rest {
      SplitNoSeparator(rest, ' ');
    }
  }

  /** The middleware; `header` is `None` when the request has none, and
      `verify` stands for `jwt.verify(token, JWT_SECRET)` applied to the
      token (`None` is an `undefined` token). */
  function VerifyToken(header: Option<string>, verify: Option<string> -> Verified): (r: Result)
    ensures r.status == 400 <==> !Truthy(header) || !StartsWith(header.value, Prefix)
    ensures r.status == 400 ==> r.outcome == Rejected(MalformedMessage)
    ensures r.status != 400 ==>
      var v := verify(BearerToken(header.value));
      && (r.status == 200 <==> v.Decoded?)
      && (v.Decoded? ==> r.outcome == Authenticated(v.claims))
      && (v.Failed? ==> r == Result(401, Rejected(FailedPrefix + v.reason)))
  {
    if !Truthy(header) || !StartsWith(header.value, Prefix) then Result(400, Rejected(MalformedMessage))
    else
      match verify(BearerToken(header.value))
      case Decoded(claims) => Result(200, Authenticated(claims))
      case Failed(reason) => Result(401, Rejected(FailedPrefix + reason))
  }

  /** A header `Bearer <token>` reaches `jwt.verify` with exactly that token,
      for any token without spaces (which is every token `jwt.sign` makes). */
  lemma VerifiesTheBearerToken(token: string, verify: Option<string> -> Verified)
    requires ' ' !in token
    ensures VerifyToken(Some(Prefix + token), verify).status != 400
    ensures VerifyToken(Some(Prefix + token), verify) ==
      match verify(Some(token))
      case Decoded(claims) => Result(200, Authenticated(claims))
      case Failed(reason) => Result(401, Rejected(FailedPrefix + reason))
  {
    BearerTokenAfterPrefix(token);
    assert (Prefix + token)[..|Prefix|] == Prefix;
  }
}

/** `GET /api/check-auth`: a stand-in check that calls the caller an
    administrator only for one fixed header. */
module CheckAuth {
  import opened Wrappers

  const AdminHeader := "Bearer admin-token"

  /** The role reported, always with status 200. */
  function Get(header: Option<string>): (r: (int, string))
    ensures r.0 == 200
    ensures r.1 == "admin" <==> header == Some(AdminHeader)
    ensures r.1 == "admin" || r.1 == "user"
  {
    (200, if header == Some(AdminHeader) then "admin" else "user")
  }
}
