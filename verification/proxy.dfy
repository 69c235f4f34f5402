/** The server-side route guard: public path prefixes pass, every other path needs a
    plausible `auth_token` cookie, and is otherwise redirected to the login page. */
module Proxy {
  import opened Js
  import Http
  import AuthStorage
  import TokenRefresh

  const PublicPrefixes: seq<string> := ["/login", "/signup", "/static", "/_next", "/api"]

  /** The cookie values that `isValidToken` refuses although they are present. */
  const Placeholders: set<string> := {"", "undefined", "null"}

  /** `isValidToken`: the trailing length test is subsumed by the truthiness test. */
  function IsValidToken(token: Option<string>): (r: bool)
    ensures r <==> token.Some? && token.value !in Placeholders
  {
    token.Some? && token.value != "" && token.value != "undefined" && token.value != "null" && |token.value| > 0
  }

  predicate IsPublic(pathname: string) {
    exists i :: 0 <= i < |PublicPrefixes| && StartsWith(pathname, PublicPrefixes[i])
  }

  /** `NextResponse.next()` or a redirect to "/login", with the original path and query carried in
      `redirect_to` when there is one worth returning to. */
  datatype Decision = Pass | Redirect(redirectTo: Option<string>, clearCookies: bool)

  function RedirectToAuth(pathname: string, search: string, clearCookies: bool): (d: Decision)
    ensures d.Redirect? && d.clearCookies == clearCookies
    ensures d.redirectTo.Some? <==> pathname + search !in {"", "/login", "/"}
    ensures d.redirectTo.Some? ==> d.redirectTo.value == pathname + search
  {
    var path := pathname + search;
    Redirect(if path != "" && path != "/login" && path != "/" then Some(path) else None, clearCookies)
  }

  function Route(pathname: string, search: string, cookieToken: Option<string>): (d: Decision)
    ensures d.Pass? <==> IsPublic(pathname) || IsValidToken(cookieToken)
    ensures d.Redirect? ==> d == RedirectToAuth(pathname, search, false)
  {
    if StartsWith(pathname, "/login") || StartsWith(pathname, "/signup") || StartsWith(pathname, "/static")
       || StartsWith(pathname, "/_next") || StartsWith(pathname, "/api") then
      assert IsPublic(pathname) by {
        if StartsWith(pathname, "/login") { assert StartsWith(pathname, PublicPrefixes[0]); }
        else if StartsWith(pathname, "/signup") { assert StartsWith(pathname, PublicPrefixes[1]); }
        else if StartsWith(pathname, "/static") { assert StartsWith(pathname, PublicPrefixes[2]); }
        else if StartsWith(pathname, "/_next") { assert StartsWith(pathname, PublicPrefixes[3]); }
        else { assert StartsWith(pathname, PublicPrefixes[4]); }
      }
      Pass
    else if !IsValidToken(cookieToken) then RedirectToAuth(pathname, search, false)
    else Pass
  }

  /** The guard never redirects the login page itself, so its own redirect cannot loop. */
  lemma LoginNeverRedirected(search: string, cookieToken: Option<string>)
    ensures Route("/login", search, cookieToken) == Pass
  {
    assert StartsWith("/login", PublicPrefixes[0]);
  }

  /** The public test is a plain prefix test, not a path-segment test: "/apiary" passes unauthenticated. */
  lemma PrefixIsNotSegmentAware()
    ensures Route("/apiary", "", None) == Pass
  {
    assert StartsWith("/apiary", PublicPrefixes[4]);
  }

  /** The stringified placeholders are treated as no cookie on every path: a public path passes
      either way, and any other path is redirected with `redirect_to`. */
  lemma PlaceholderTokensRejected(pathname: string, search: string)
    ensures Route(pathname, search, Some("undefined")) == Route(pathname, search, None)
    ensures Route(pathname, search, Some("null")) == Route(pathname, search, None)
    ensures !IsPublic(pathname) ==> Route(pathname, search, Some("undefined")) == RedirectToAuth(pathname, search, false)
  {
  }

  /** For the root page the guard drops `redirect_to`, while the client-side exit on a lost
      session carries "/" back to the login page. */
  lemma RootHandledDifferently(env: AuthStorage.Env, token: Option<string>)
    requires env.browser && !IsValidToken(token)
    ensures Route("/", "", token) == Redirect(None, false)
    ensures TokenRefresh.HandleAuthFailure(env, Http.Location("/", "")).1 == Some(Http.LoginWithRedirect("/"))
  {
    assert !StartsWith("/", "/login") && !StartsWith("/", "/signup") && !StartsWith("/", "/static");
    assert !StartsWith("/", "/_next") && !StartsWith("/", "/api");
  }
}
