/** The request middleware: it lets a request through or redirects it to
    the sign-in page, from the request path and the `user` cookie alone. */
module Proxy {
  import opened Common

  /** The pages reachable without signing in. */
  const PublicRoutes: seq<string> := ["/auth/sign-in", "/auth/sign-up", "/auth/forgot-password", "/auth/reset-password"]

  /** Prefixes of API routes and static assets. */
  const InternalPrefixes: seq<string> := ["/api", "/_next", "/favicon"]

  const SignInPage: string := "/auth/sign-in"
  const DashboardPrefix: string := "/dashboard"

  /** What `JSON.parse` of the cookie yields, as far as the middleware looks
      at it: whether `id` and whether `_id` are truthy. */
  datatype CookieFields = CookieFields(id: bool, underscoreId: bool)

  /** The parts of a request the middleware may read. */
  datatype Request = Request(pathname: string, userCookie: Option<string>, authorization: Option<string>)

  datatype Decision = Next | Redirect(location: string)

  predicate IsPublic(path: string)
  {
    exists i :: 0 <= i < |PublicRoutes| && StartsWith(path, PublicRoutes[i])
  }

  predicate IsInternal(path: string)
  {
    exists i :: 0 <= i < |InternalPrefixes| && StartsWith(path, InternalPrefixes[i])
  }

  /** The cookie holds a user: it parses (`parse` gives `None` where
      `JSON.parse` or the property access throws) and names an `id` or `_id`. */
  predicate SignedIn(cookie: Option<string>, parse: string -> Option<CookieFields>)
  {
    cookie.Some? && parse(cookie.value).Some? && (parse(cookie.value).value.id || parse(cookie.value).value.underscoreId)
  }

  /** The middleware: public and internal paths pass; `/` and a dashboard
      path without a signed-in cookie go to sign-in; everything else passes. */
  function Middleware(req: Request, parse: string -> Option<CookieFields>): (d: Decision)
    ensures d == Next || d == Redirect(SignInPage)
    ensures d == Redirect(SignInPage) <==>
              !IsPublic(req.pathname) && !IsInternal(req.pathname)
              && (req.pathname == "/" || (StartsWith(req.pathname, DashboardPrefix) && !SignedIn(req.userCookie, parse)))
  {
    if IsPublic(req.pathname) then Next
    else if IsInternal(req.pathname) then Next
    else if req.pathname == "/" then Redirect(SignInPage)
    else if StartsWith(req.pathname, DashboardPrefix) then
      match req.userCookie
      case None => Redirect(SignInPage)
      case Some(value) =>
        match parse(value)
        case None => Redirect(SignInPage)
        case Some(fields) => if !fields.id && !fields.underscoreId then Redirect(SignInPage) else Next
    else Next
  }

  /** Any path below a public page passes, whatever the cookie. */
  lemma PublicSubpathsPass(i: nat, suffix: string, cookie: Option<string>, auth: Option<string>, parse: string -> Option<CookieFields>)
    requires i < |PublicRoutes|
    ensures Middleware(Request(PublicRoutes[i] + suffix, cookie, auth), parse) == Next
  {
    assert (PublicRoutes[i] + suffix)[..|PublicRoutes[i]|] == PublicRoutes[i];
  }

  /** API and static paths pass without any cookie. */
  lemma InternalPathsPass(i: nat, suffix: string, auth: Option<string>, parse: string -> Option<CookieFields>)
    requires i < |InternalPrefixes|
    ensures Middleware(Request(InternalPrefixes[i] + suffix, None, auth), parse) == Next
  {
    assert (InternalPrefixes[i] + suffix)[..|InternalPrefixes[i]|] == InternalPrefixes[i];
  }

  /** The root always goes to sign-in. */
  lemma RootRedirects(cookie: Option<string>, auth: Option<string>, parse: string -> Option<CookieFields>)
    ensures Middleware(Request("/", cookie, auth), parse) == Redirect(SignInPage)
  {
    assert !StartsWith("/", "/api") && !StartsWith("/", "/_next") && !StartsWith("/", "/favicon");
    assert forall i :: 0 <= i < |PublicRoutes| ==> !StartsWith("/", PublicRoutes[i]);
  }

  /** A dashboard page needs a cookie that parses to a user with an id. */
  lemma DashboardNeedsUser(suffix: string, cookie: Option<string>, auth: Option<string>, parse: string -> Option<CookieFields>)
    ensures Middleware(Request(DashboardPrefix + suffix, cookie, auth), parse) == Next <==> SignedIn(cookie, parse)
  {
    var path := DashboardPrefix + suffix;
    assert path[..|DashboardPrefix|] == DashboardPrefix;
    assert path[1] == 'd';
    assert forall i :: 0 <= i < |PublicRoutes| ==> !StartsWith(path, PublicRoutes[i]);
    assert forall i :: 0 <= i < |InternalPrefixes| ==> !StartsWith(path, InternalPrefixes[i]);
  }

  /** The authorization header never changes the decision. */
  lemma AuthorizationIgnored(req: Request, auth: Option<string>, parse: string -> Option<CookieFields>)
    ensures Middleware(req.(authorization := auth), parse) == Middleware(req, parse)
  {
  }
}
