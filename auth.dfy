/**
 * Token extraction from src/lib/auth.ts and the way every protected API
 * route turns a request into the caller's claims.
 *
 * JWT signing and verification are foreign cryptography: they are modelled
 * as a total oracle `Verifier` that answers `Some(claims)` for a token it
 * accepts and `None` otherwise (`verifyToken` catches every failure and
 * returns `null`, so it never throws).
 */
module Auth {
  import opened Wrappers
  import opened Text

  /** An HTTP request as the handlers see it. Header names are lower case. */
  datatype Request = Request(
    path: string,
    headers: map<string, string>,
    cookies: map<string, string>)

  /**
   * The JWT payload. An absent claim is the empty string; JavaScript treats
   * `undefined` and `""` alike in every test the portal makes on claims.
   */
  datatype Claims = Claims(userId: string, email: string, role: string, teamCode: string)

  type Verifier = string -> Option<Claims>

  const BearerPrefix: string := "Bearer "
  const AuthCookie: string := "auth-token"

  /**
   * `getTokenFromRequest`: a `Bearer ` authorization header wins and yields
   * what follows the 7-character prefix (possibly ""); otherwise the
   * `auth-token` cookie, where a missing or empty cookie gives `null`.
   */
  function GetTokenFromRequest(req: Request): (t: Option<string>)
    ensures t == Some("") ==> "authorization" in req.headers && req.headers["authorization"] == BearerPrefix
    ensures ("authorization" !in req.headers || !StartsWith(req.headers["authorization"], BearerPrefix))
            ==> t == (if AuthCookie in req.cookies && req.cookies[AuthCookie] != "" then Some(req.cookies[AuthCookie]) else None)
  {
    if "authorization" in req.headers && StartsWith(req.headers["authorization"], BearerPrefix) then
      Some(req.headers["authorization"][|BearerPrefix|..])
    else if AuthCookie in req.cookies && req.cookies[AuthCookie] != "" then
      Some(req.cookies[AuthCookie])
    else
      None
  }

  /** A token sent as `Bearer <token>` is read back unchanged, whatever the cookie holds. */
  lemma BearerRoundTrip(req: Request, token: string)
    ensures GetTokenFromRequest(req.(headers := req.headers["authorization" := BearerPrefix + token]))
            == Some(token)
  {
    var h := BearerPrefix + token;
    assert h[..|BearerPrefix|] == BearerPrefix;
    assert h[|BearerPrefix|..] == token;
  }

  /**
   * What a route does with the request before anything else:
   * `const payload = token ? verifyToken(token) : null`. The empty token is
   * falsy and never reaches the verifier.
   */
  function Caller(req: Request, verify: Verifier): (c: Option<Claims>)
    ensures c.Some? ==> exists tok :: tok != "" && verify(tok) == c
  {
    var t := GetTokenFromRequest(req);
    if t.Some? && t.value != "" then verify(t.value) else None
  }

  /** The administrators' gate: `payload && payload.role === "admin"`. */
  predicate IsAdmin(caller: Option<Claims>) {
    caller.Some? && caller.value.role == "admin"
  }

  /** A `Bearer ` header takes precedence: the cookies do not matter then. */
  lemma HeaderPrecedence(req: Request, cookies: map<string, string>)
    requires "authorization" in req.headers && StartsWith(req.headers["authorization"], BearerPrefix)
    ensures GetTokenFromRequest(req.(cookies := cookies)) == GetTokenFromRequest(req)
    ensures GetTokenFromRequest(req).Some?
  {
  }

  /**
   * The caller is decided by the request's own token: the claims of what
   * follows `Bearer `, else those of the `auth-token` cookie, and no caller
   * at all without a token or with an empty one.
   */
  lemma CallerFromRequest(req: Request, verify: Verifier)
    ensures "authorization" in req.headers && StartsWith(req.headers["authorization"], BearerPrefix) ==>
              Caller(req, verify) == (if req.headers["authorization"] == BearerPrefix then None
                                      else verify(req.headers["authorization"][|BearerPrefix|..]))
    ensures ("authorization" !in req.headers || !StartsWith(req.headers["authorization"], BearerPrefix)) ==>
              Caller(req, verify) == (if AuthCookie in req.cookies && req.cookies[AuthCookie] != ""
                                      then verify(req.cookies[AuthCookie]) else None)
  {
    if "authorization" in req.headers && StartsWith(req.headers["authorization"], BearerPrefix) {
      var h := req.headers["authorization"];
      assert h == h[..|BearerPrefix|] + h[|BearerPrefix|..];
    }
  }
}
