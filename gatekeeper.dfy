/**
 * The request gatekeeper that runs before every page and API handler
 * (`middleware` in src/middleware.ts). It decides from the request path and
 * the `auth-token` cookie whether the request passes, is redirected, or is
 * answered with a JSON 401. Verifying the token's signature and expiry is
 * the JWT library's business: it enters the model as the predicate `verify`.
 */
module Gatekeeper {
  import opened Common
  import opened Text

  /** Paths that never need a session. */
  const PublicPaths: seq<string> := ["/login", "/api/auth/login"]

  datatype Decision =
    | Pass                                // NextResponse.next()
    | Redirect(location: string)          // NextResponse.redirect(new URL(location, request.url))
    | Reject(status: int, message: string) // NextResponse.json({ message }, { status })

  predicate IsPublic(pathname: string)
  {
    StartsWithAny(pathname, PublicPaths)
  }

  /** `publicPaths.some(...)` is exactly the two prefix tests. */
  lemma PublicPathsUnfold(pathname: string)
    ensures IsPublic(pathname) <==> StartsWith(pathname, "/login") || StartsWith(pathname, "/api/auth/login")
  {
    var rest := PublicPaths[1..];
    assert PublicPaths[0] == "/login" && rest == ["/api/auth/login"] && rest[1..] == [];
    assert StartsWithAny(pathname, rest) == (StartsWith(pathname, rest[0]) || StartsWithAny(pathname, rest[1..]));
  }

  /** Next.js internals and anything that looks like a file. */
  predicate IsStatic(pathname: string)
  {
    StartsWith(pathname, "/_next") || StartsWith(pathname, "/favicon") || '.' in pathname
  }

  predicate IsApi(pathname: string)
  {
    StartsWith(pathname, "/api/")
  }

  /** A cookie value is only used when it is present and non-empty (JavaScript truthiness). */
  predicate HasToken(cookie: Option<string>)
  {
    cookie.Some? && cookie.value != ""
  }

  /** The gatekeeper's decision for one request. */
  function Middleware(pathname: string, cookie: Option<string>, verify: string -> bool): (d: Decision)
    // the only redirect targets are the login page and the dashboard
    ensures d.Redirect? ==> d.location == "/login" || d.location == "/dashboard"
    // a JSON 401 is only ever produced for API paths
    ensures d.Reject? ==> IsApi(pathname) && d.status == 401
    // only a verified session on exactly `/login` is sent to the dashboard
    ensures d == Redirect("/dashboard") <==> pathname == "/login" && HasToken(cookie) && verify(cookie.value)
    // a request without a usable token never passes a protected path
    ensures !HasToken(cookie) && d == Pass ==> IsPublic(pathname) || IsStatic(pathname)
    // a present token that fails verification never passes a protected path either
    ensures HasToken(cookie) && !verify(cookie.value) && d == Pass ==> IsPublic(pathname) || IsStatic(pathname)
  {
    if IsPublic(pathname) then
      if HasToken(cookie) && pathname == "/login" && verify(cookie.value) then Redirect("/dashboard")
      else Pass
    else if IsStatic(pathname) then
      Pass
    else if !HasToken(cookie) then
      if IsApi(pathname) then Reject(401, "Unauthorized") else Redirect("/login")
    else if verify(cookie.value) then
      Pass
    else if IsApi(pathname) then
      Reject(401, "Invalid token")
    else
      Redirect("/login")
  }

  /**
   * The route matcher `/((?!_next/static|_next/image|favicon.ico).*)` keeps
   * the middleware from running on these paths at all; its `.` is an
   * unescaped regular-expression dot and matches any character.
   */
  predicate ExcludedByMatcher(pathname: string)
  {
    StartsWith(pathname, "/_next/static")
    || StartsWith(pathname, "/_next/image")
    || (StartsWith(pathname, "/favicon") && |pathname| >= 12 && pathname[9..12] == "ico")
  }

  /** What a request meets: nothing for matcher-excluded paths, the middleware otherwise. */
  function Gate(pathname: string, cookie: Option<string>, verify: string -> bool): Decision
  {
    if ExcludedByMatcher(pathname) then Pass else Middleware(pathname, cookie, verify)
  }

  lemma PrefixOfPrefix(s: string, p: string, q: string)
    requires StartsWith(s, p) && StartsWith(p, q)
    ensures StartsWith(s, q)
  {
    assert s[..|q|] == s[..|p|][..|q|];
  }

  lemma NotBothPrefixes(s: string, p: string, q: string, k: nat)
    requires StartsWith(s, p) && k < |p| && k < |q| && p[k] != q[k]
    ensures !StartsWith(s, q)
  {
    assert s[k] == p[k];
  }

  /** The matcher changes nothing: every path it excludes the middleware would pass anyway. */
  lemma MatcherIsRedundant(pathname: string, cookie: Option<string>, verify: string -> bool)
    ensures Gate(pathname, cookie, verify) == Middleware(pathname, cookie, verify)
  {
    if ExcludedByMatcher(pathname) {
      if StartsWith(pathname, "/_next/static") {
        PrefixOfPrefix(pathname, "/_next/static", "/_next");
      } else if StartsWith(pathname, "/_next/image") {
        PrefixOfPrefix(pathname, "/_next/image", "/_next");
      }
      if StartsWith(pathname, "/_next") {
        NotBothPrefixes(pathname, "/_next", "/login", 1);
        NotBothPrefixes(pathname, "/_next", "/api/auth/login", 1);
      } else {
        NotBothPrefixes(pathname, "/favicon", "/login", 1);
        NotBothPrefixes(pathname, "/favicon", "/api/auth/login", 1);
      }
    }
  }

  /**
   * Public paths pass, except that exactly `/login` with a verifying token is
   * sent to the dashboard; a failing token on `/login` falls back to passing.
   */
  lemma PublicPathsPass(pathname: string, cookie: Option<string>, verify: string -> bool)
    requires StartsWith(pathname, "/login") || StartsWith(pathname, "/api/auth/login")
    ensures Middleware(pathname, cookie, verify)
            == if pathname == "/login" && HasToken(cookie) && verify(cookie.value) then Redirect("/dashboard") else Pass
  {
    PublicPathsUnfold(pathname);
  }

  /** The login endpoint is never blocked, whatever the cookie holds. */
  lemma LoginEndpointNeverBlocked(cookie: Option<string>, verify: string -> bool)
    ensures Middleware("/api/auth/login", cookie, verify) == Pass
  {
    NotBothPrefixes("/api/auth/login", "/api/auth/login", "/login", 1);
  }

  /** A non-public static path passes without looking at the token. */
  lemma StaticPathsSkipTokenCheck(pathname: string, cookie: Option<string>, verify: string -> bool)
    requires !IsPublic(pathname) && IsStatic(pathname)
    ensures Middleware(pathname, cookie, verify) == Pass
  {
  }

  /** Without a token an API path gets 401 "Unauthorized" and a page is redirected to `/login`. */
  lemma MissingTokenOutcome(pathname: string, cookie: Option<string>, verify: string -> bool)
    requires !IsPublic(pathname) && !IsStatic(pathname) && !HasToken(cookie)
    ensures Middleware(pathname, cookie, verify)
            == if IsApi(pathname) then Reject(401, "Unauthorized") else Redirect("/login")
  {
  }

  /**
   * With a token, a verifying one passes; a failing one gets 401 "Invalid
   * token" on API paths and a redirect to `/login` elsewhere.
   */
  lemma PresentTokenOutcome(pathname: string, cookie: Option<string>, verify: string -> bool)
    requires !IsPublic(pathname) && !IsStatic(pathname) && HasToken(cookie)
    ensures Middleware(pathname, cookie, verify)
            == if verify(cookie.value) then Pass
               else if IsApi(pathname) then Reject(401, "Invalid token")
               else Redirect("/login")
  {
  }
}
