/**
 * The edge middleware of src/middleware.ts: a pure decision over the path,
 * the `auth-token` cookie and the `authorization` header. It lets public
 * routes through, sends requests without a verifiable token to /login,
 * keeps non-staff out of /admin, and forwards the caller's claims to the
 * API routes as `x-user-id`, `x-user-role` and `x-team-code` headers.
 */
module Middleware {
  import opened Wrappers
  import opened Text
  import opened Auth

  datatype Decision =
    | Next(headers: map<string, string>)  // NextResponse.next, with the request headers to forward
    | Redirect(location: string)          // NextResponse.redirect

  const PublicRoutes: seq<string> := ["/", "/login", "/register"]

  /** `publicRoutes.some(route => pathname === route || pathname.startsWith("/api/auth"))`. */
  predicate IsPublic(path: string) {
    exists i :: 0 <= i < |PublicRoutes| && (path == PublicRoutes[i] || StartsWith(path, "/api/auth"))
  }

  /**
   * The middleware's own token lookup, cookie first: a non-empty
   * `auth-token` cookie, else what follows `Bearer ` in the header.
   */
  function MiddlewareToken(req: Request): (t: Option<string>)
    ensures AuthCookie in req.cookies && req.cookies[AuthCookie] != "" ==> t == Some(req.cookies[AuthCookie])
  {
    if AuthCookie in req.cookies && req.cookies[AuthCookie] != "" then
      Some(req.cookies[AuthCookie])
    else if "authorization" in req.headers && StartsWith(req.headers["authorization"], BearerPrefix) then
      Some(req.headers["authorization"][|BearerPrefix|..])
    else
      None
  }

  /**
   * `new Headers(request.headers)` followed by the three conditional `set`
   * calls: each `x-` header is set exactly when its claim is present, and
   * every other header, including an `x-` header whose claim is absent, is
   * passed on as the client sent it.
   */
  function Forward(headers: map<string, string>, c: Claims): (f: map<string, string>)
    ensures c.userId != "" ==> "x-user-id" in f && f["x-user-id"] == c.userId
    ensures c.role != "" ==> "x-user-role" in f && f["x-user-role"] == c.role
    ensures c.teamCode != "" ==> "x-team-code" in f && f["x-team-code"] == c.teamCode
    ensures forall k :: k in headers ==> k in f
    ensures forall k :: k in f && !(k == "x-user-id" && c.userId != "") && !(k == "x-user-role" && c.role != "")
                         && !(k == "x-team-code" && c.teamCode != "") ==>
              k in headers && f[k] == headers[k]
  {
    var h1 := if c.userId != "" then headers["x-user-id" := c.userId] else headers;
    var h2 := if c.role != "" then h1["x-user-role" := c.role] else h1;
    if c.teamCode != "" then h2["x-team-code" := c.teamCode] else h2
  }

  predicate IsStaff(role: string) {
    role == "admin" || role == "mentor"
  }

  function Decide(req: Request, verify: Verifier): (d: Decision)
    ensures IsPublic(req.path) ==> d == Next(req.headers)
  {
    if IsPublic(req.path) then
      Next(req.headers)
    else
      var token := MiddlewareToken(req);
      if token.None? || token.value == "" then
        Redirect("/login")
      else
        match verify(token.value)
        case None => Redirect("/login")
        case Some(c) =>
          if StartsWith(req.path, "/admin") && !IsStaff(c.role) then Redirect("/dashboard")
          else Next(Forward(req.headers, c))
  }

  /** Exactly "/", "/login", "/register" and the /api/auth subtree are public. */
  lemma PublicIff(path: string)
    ensures IsPublic(path) <==> path in {"/", "/login", "/register"} || StartsWith(path, "/api/auth")
  {
    if path in {"/", "/login", "/register"} || StartsWith(path, "/api/auth") {
      var i := if path == "/login" then 1 else if path == "/register" then 2 else 0;
      assert path == PublicRoutes[i] || StartsWith(path, "/api/auth");
    }
  }

  /**
   * A non-public request passes only with a non-empty token the oracle
   * accepts, and then its claims are the verified ones.
   */
  lemma PassNeedsVerifiedToken(req: Request, verify: Verifier)
    requires !IsPublic(req.path) && Decide(req, verify).Next?
    ensures MiddlewareToken(req).Some? && MiddlewareToken(req).value != ""
    ensures verify(MiddlewareToken(req).value).Some?
    ensures Decide(req, verify).headers == Forward(req.headers, verify(MiddlewareToken(req).value).value)
  {
  }

  /** No request without a token, or with one the oracle rejects, gets past a protected path. */
  lemma UnverifiedGoesToLogin(req: Request, verify: Verifier)
    requires !IsPublic(req.path)
    requires MiddlewareToken(req).None? || MiddlewareToken(req) == Some("")
             || verify(MiddlewareToken(req).value).None?
    ensures Decide(req, verify) == Redirect("/login")
  {
  }

  /** Under /admin only staff pass; everyone else with a valid token is sent to /dashboard. */
  lemma AdminAreaGuard(req: Request, verify: Verifier)
    requires !IsPublic(req.path) && StartsWith(req.path, "/admin")
    requires MiddlewareToken(req).Some? && MiddlewareToken(req).value != ""
    requires verify(MiddlewareToken(req).value).Some?
    ensures Decide(req, verify).Next? <==> IsStaff(verify(MiddlewareToken(req).value).value.role)
    ensures !Decide(req, verify).Next? ==> Decide(req, verify) == Redirect("/dashboard")
  {
  }

  /**
   * The two token readers differ only when both a non-empty cookie and a
   * `Bearer ` header are sent: without a usable cookie they return the same
   * token on every request.
   */
  lemma TokenReadersAgreeWithoutCookie(req: Request)
    requires AuthCookie !in req.cookies || req.cookies[AuthCookie] == ""
    ensures MiddlewareToken(req) == GetTokenFromRequest(req)
  {
  }

  lemma TokenReadersDisagree(req: Request)
    requires AuthCookie in req.cookies && req.cookies[AuthCookie] != ""
    requires "authorization" in req.headers && StartsWith(req.headers["authorization"], BearerPrefix)
    requires req.headers["authorization"][|BearerPrefix|..] != req.cookies[AuthCookie]
    ensures MiddlewareToken(req) != GetTokenFromRequest(req)
  {
  }

  /**
   * A protected path with a verified token passes, carrying the claims as
   * forwarded headers, unless it lies under /admin and the role is not staff.
   */
  lemma VerifiedPasses(req: Request, verify: Verifier)
    requires !IsPublic(req.path)
    requires MiddlewareToken(req).Some? && MiddlewareToken(req).value != ""
    requires verify(MiddlewareToken(req).value).Some?
    requires !StartsWith(req.path, "/admin") || IsStaff(verify(MiddlewareToken(req).value).value.role)
    ensures Decide(req, verify) == Next(Forward(req.headers, verify(MiddlewareToken(req).value).value))
  {
  }
}
