/** The front ends' route protection: the Next.js middleware of each front
  * end (a role check on the dashboard prefixes and an `authorized`
  * callback that demands a session token there), and the client-side
  * `AuthChecker` that sends a signed-out visitor of a private page to the
  * sign-in page. */
module RouteGuards {
  import opened Wrappers
  import opened JsStrings
  import opened Seqs

  /** The session token: its own `role` and the `role` of its `user`. */
  datatype Token = Token(role: Option<string>, userRole: Option<string>)

  /** `token?.role || token?.user?.role`. */
  function TokenRole(token: Option<Token>): (r: Option<string>)
    ensures token.None? ==> r.None?
    ensures token.Some? && Truthy(token.value.role) ==> r == token.value.role
    ensures token.Some? && !Truthy(token.value.role) ==> r == token.value.userRole
  {
    if token.None? then None else Or(token.value.role, token.value.userRole)
  }

  /** The middleware's answer: let the request through, or redirect. */
  datatype Decision = Pass | Redirect(url: string)

  const AdminPrefix := "/admindashboard"
  const CandidatePrefix := "/candidatedashboard"
  const RecruiterPrefix := "/recruiterdashboard"
  const CompanyJobsPrefix := "/companyjobs"

  /** The prefixes the newer front end guards, each with the one role
    * allowed under it. */
  const ProxyGuards: seq<(string, string)> :=
    [(AdminPrefix, "ADMIN"), (CandidatePrefix, "CANDIDATE"),
     (RecruiterPrefix, "RECRUITER"), (CompanyJobsPrefix, "RECRUITER")]

  predicate ProxyGuarded(path: string) {
    StartsWith(path, AdminPrefix) || StartsWith(path, CandidatePrefix)
    || StartsWith(path, RecruiterPrefix) || StartsWith(path, CompanyJobsPrefix)
  }

  /** No path lies under two guarded prefixes, so the order of the checks
    * does not matter. */
  lemma GuardedPrefixesExclusive(path: string)
    ensures StartsWith(path, AdminPrefix) ==>
              !StartsWith(path, CandidatePrefix) && !StartsWith(path, RecruiterPrefix) && !StartsWith(path, CompanyJobsPrefix)
    ensures StartsWith(path, CandidatePrefix) ==> !StartsWith(path, RecruiterPrefix) && !StartsWith(path, CompanyJobsPrefix)
    ensures StartsWith(path, RecruiterPrefix) ==> !StartsWith(path, CompanyJobsPrefix)
  {
    if StartsWith(path, AdminPrefix) { assert path[1] == AdminPrefix[1] == 'a'; }
    if StartsWith(path, CandidatePrefix) { assert path[1] == 'c' && path[2] == CandidatePrefix[2] == 'a'; }
    if StartsWith(path, RecruiterPrefix) { assert path[1] == RecruiterPrefix[1] == 'r'; }
    if StartsWith(path, CompanyJobsPrefix) { assert path[1] == 'c' && path[2] == CompanyJobsPrefix[2] == 'o'; }
  }

  /** The newer front end's middleware (`proxy`). Under each guarded
    * prefix the request passes exactly when the token's role is the
    * prefix's role, and is otherwise sent to the home page; every other
    * path passes. */
  function Proxy(path: string, token: Option<Token>): (d: Decision)
    ensures d.Redirect? ==> d.url == "/"
    ensures !ProxyGuarded(path) ==> d == Pass
    ensures StartsWith(path, AdminPrefix) ==> (d == Pass <==> TokenRole(token) == Some("ADMIN"))
    ensures StartsWith(path, CandidatePrefix) ==> (d == Pass <==> TokenRole(token) == Some("CANDIDATE"))
    ensures StartsWith(path, RecruiterPrefix) || StartsWith(path, CompanyJobsPrefix) ==>
              (d == Pass <==> TokenRole(token) == Some("RECRUITER"))
  {
    GuardedPrefixesExclusive(path);
    var role := TokenRole(token);
    if StartsWith(path, AdminPrefix) && role != Some("ADMIN") then Redirect("/")
    else if StartsWith(path, CandidatePrefix) && role != Some("CANDIDATE") then Redirect("/")
    else if StartsWith(path, RecruiterPrefix) && role != Some("RECRUITER") then Redirect("/")
    else if StartsWith(path, CompanyJobsPrefix) && role != Some("RECRUITER") then Redirect("/")
    else Pass
  }

  /** The newer front end's `authorized` callback: a token is needed under
    * the guarded prefixes and nowhere else. */
  function ProxyAuthorized(path: string, token: Option<Token>): (ok: bool)
    ensures ok <==> !ProxyGuarded(path) || token.Some?
  {
    if StartsWith(path, AdminPrefix) then token.Some?
    else if StartsWith(path, CandidatePrefix) then token.Some?
    else if StartsWith(path, RecruiterPrefix) then token.Some?
    else if StartsWith(path, CompanyJobsPrefix) then token.Some?
    else true
  }

  /** The `matcher` of the newer front end: each guarded prefix exactly, or
    * followed by `/` and more. */
  predicate ProxyMatched(path: string) {
    exists k :: 0 <= k < |ProxyGuards| &&
      (path == ProxyGuards[k].0 || StartsWith(path, ProxyGuards[k].0 + "/"))
  }

  /** Every path the middleware runs on is guarded, so the matcher never
    * runs it for nothing. */
  lemma MatchedPathsGuarded(path: string)
    requires ProxyMatched(path)
    ensures ProxyGuarded(path)
  {
    var k :| 0 <= k < |ProxyGuards| && (path == ProxyGuards[k].0 || StartsWith(path, ProxyGuards[k].0 + "/"));
    assert StartsWith(path, ProxyGuards[k].0);
    assert k == 0 || k == 1 || k == 2 || k == 3;
  }

  /** The older front end's middleware: only the admin prefix is guarded,
    * and a role other than ADMIN is sent to the home page. */
  function Middleware(path: string, token: Option<Token>): (d: Decision)
    ensures d.Redirect? <==> StartsWith(path, AdminPrefix) && TokenRole(token) != Some("ADMIN")
    ensures d.Redirect? ==> d.url == "/"
  {
    if StartsWith(path, AdminPrefix) && TokenRole(token) != Some("ADMIN") then Redirect("/") else Pass
  }

  function MiddlewareAuthorized(path: string, token: Option<Token>): (ok: bool)
    ensures ok <==> !StartsWith(path, AdminPrefix) || token.Some?
  {
    if StartsWith(path, AdminPrefix) then token.Some? else true
  }

  /** The two front ends treat the admin dashboard alike, and the newer one
    * is at least as strict everywhere. */
  lemma ProxyStricterThanMiddleware(path: string, token: Option<Token>)
    ensures StartsWith(path, AdminPrefix) ==> Proxy(path, token) == Middleware(path, token)
    ensures Proxy(path, token) == Pass ==> Middleware(path, token) == Pass
    ensures ProxyAuthorized(path, token) ==> MiddlewareAuthorized(path, token)
  {
    GuardedPrefixesExclusive(path);
  }

  // --------------------------------------------------------- AuthChecker

  const PublicRoutes: seq<string> := ["/", "/api/auth/signin", "/api/auth/signout", "/jobs"]

  /** One entry of `PUBLIC_ROUTES.some(...)`: the home page and the job list
    * match only exactly, the sign-in and sign-out routes as prefixes; no
    * route matches while the path name is unknown. */
  predicate RouteMatches(pathname: Option<string>, route: string) {
    if route == "/" then pathname == Some("/")
    else if route == "/jobs" then pathname == Some("/jobs")
    else pathname.Some? && StartsWith(pathname.value, route)
  }

  function PublicMatcher(pathname: Option<string>): string -> bool {
    (route: string) => RouteMatches(pathname, route)
  }

  function IsPublicRoute(pathname: Option<string>): (pub: bool)
    ensures pub <==> || pathname == Some("/") || pathname == Some("/jobs")
                     || (pathname.Some? && (StartsWith(pathname.value, "/api/auth/signin")
                                            || StartsWith(pathname.value, "/api/auth/signout")))
  {
    PublicRouteCases(pathname);
    Any(PublicMatcher(pathname), PublicRoutes)
  }

  lemma PublicRouteCases(pathname: Option<string>)
    ensures Any(PublicMatcher(pathname), PublicRoutes) <==>
              || pathname == Some("/") || pathname == Some("/jobs")
              || (pathname.Some? && (StartsWith(pathname.value, "/api/auth/signin")
                                     || StartsWith(pathname.value, "/api/auth/signout")))
  {
    var f := PublicMatcher(pathname);
    if Any(f, PublicRoutes) {
      var i :| 0 <= i < |PublicRoutes| && f(PublicRoutes[i]);
      assert i == 0 || i == 1 || i == 2 || i == 3;
    } else {
      assert !f(PublicRoutes[0]) && !f(PublicRoutes[1]) && !f(PublicRoutes[2]) && !f(PublicRoutes[3]);
    }
  }

  /** A job's own page is not public, while a provider's sign-in page is. */
  lemma JobDetailIsPrivate()
    ensures !IsPublicRoute(Some("/jobs/42"))
    ensures IsPublicRoute(Some("/api/auth/signin/google"))
  {
    assert !StartsWith("/jobs/42", "/api/auth/signin") by { assert "/jobs/42"[1] != "/api/auth/signin"[1]; }
    assert !StartsWith("/jobs/42", "/api/auth/signout") by { assert "/jobs/42"[1] != "/api/auth/signout"[1]; }
    assert "/api/auth/signin/google"[..16] == "/api/auth/signin";
  }

  datatype SessionStatus = Loading | Authenticated | Unauthenticated

  /** The characters `encodeURIComponent` keeps. */
  predicate Unreserved(c: char) {
    'A' <= c <= 'Z' || 'a' <= c <= 'z' || '0' <= c <= '9'
    || c == '-' || c == '_' || c == '.' || c == '!' || c == '~' || c == '*' || c == '\'' || c == '(' || c == ')'
  }

  predicate UpperHex(c: char) { '0' <= c <= '9' || 'A' <= c <= 'F' }

  function HexDigit(d: nat): (c: char)
    requires d < 16
    ensures UpperHex(c)
  {
    if d < 10 then ('0' as int + d) as char else ('A' as int + d - 10) as char
  }

  /** `%XX` for one byte. */
  function PercentByte(b: nat): (r: string)
    requires b < 256
    ensures |r| == 3 && r[0] == '%' && UpperHex(r[1]) && UpperHex(r[2])
  {
    ['%', HexDigit(b / 16), HexDigit(b % 16)]
  }

  /** The UTF-8 bytes of a character. */
  function Utf8(c: char): (bytes: seq<nat>)
    ensures 1 <= |bytes| <= 4
    ensures forall i :: 0 <= i < |bytes| ==> bytes[i] < 256
    ensures c as int < 0x80 ==> bytes == [c as int]
  {
    var n := c as int;
    if n < 0x80 then [n]
    else if n < 0x800 then [0xC0 + n / 64, 0x80 + n % 64]
    else if n < 0x10000 then [0xE0 + n / 4096, 0x80 + (n / 64) % 64, 0x80 + n % 64]
    else [0xF0 + n / 262144, 0x80 + (n / 4096) % 64, 0x80 + (n / 64) % 64, 0x80 + n % 64]
  }

  function PercentBytes(bytes: seq<nat>): (r: string)
    requires forall i :: 0 <= i < |bytes| ==> bytes[i] < 256
    ensures |r| == 3 * |bytes|
    ensures forall i :: 0 <= i < |r| ==> r[i] == '%' || UpperHex(r[i])
  {
    if |bytes| == 0 then [] else PercentByte(bytes[0]) + PercentBytes(bytes[1..])
  }

  predicate EncodedChar(c: char) { Unreserved(c) || c == '%' || UpperHex(c) }

  /** `encodeURIComponent`: unreserved characters are kept, every other
    * character becomes the percent escapes of its UTF-8 bytes. The result
    * holds no `?`, `&`, `=`, `#` or `/`, so it stays one query value. */
  function EncodeUriComponent(s: string): (r: string)
    ensures forall i :: 0 <= i < |r| ==> EncodedChar(r[i])
    ensures (forall i :: 0 <= i < |s| ==> Unreserved(s[i])) ==> r == s
  {
    if |s| == 0 then ""
    else
      var head := if Unreserved(s[0]) then [s[0]] else PercentBytes(Utf8(s[0]));
      head + EncodeUriComponent(s[1..])
  }

  lemma SlashEncoded()
    ensures EncodeUriComponent("/") == "%2F"
  {
    assert PercentBytes([47]) == "%2F";
  }

  /** The effect: a signed-out visitor of a private page, once the path is
    * known, is sent to sign in with the page as the callback. */
  function RedirectTarget(pathname: Option<string>, status: SessionStatus): (r: Option<string>)
    ensures r.Some? <==> !IsPublicRoute(pathname) && status == Unauthenticated && Truthy(pathname)
    ensures r.Some? ==> r.value == "/api/auth/signin?callbackUrl=" + EncodeUriComponent(pathname.value)
  {
    if !IsPublicRoute(pathname) && status == Unauthenticated && Truthy(pathname) then
      Some("/api/auth/signin?callbackUrl=" + EncodeUriComponent(pathname.value))
    else None
  }

  /** Whether the children are rendered: always on a public page, and on a
    * private page only once the session is authenticated. */
  function RendersChildren(pathname: Option<string>, status: SessionStatus): (shown: bool)
    ensures shown <==> IsPublicRoute(pathname) || status == Authenticated
  {
    if IsPublicRoute(pathname) then true
    else
      match status
      case Loading => false
      case Unauthenticated => false
      case Authenticated => true
  }

  /** A page never both shows its content and sends the visitor away. */
  lemma RedirectHidesContent(pathname: Option<string>, status: SessionStatus)
    ensures RedirectTarget(pathname, status).Some? ==> !RendersChildren(pathname, status)
  {
  }
}
