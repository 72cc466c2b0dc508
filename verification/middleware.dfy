/**
 * The request gate (middleware.ts): admin pages need a session cookie, the login page
 * sends a signed-in admin to the dashboard, and API responses carry CORS headers.
 * A redirect's location is written as the path; the code resolves it against the
 * request's own origin.
 */
module Middleware {
  import opened Wrappers
  import opened JsText

  datatype Decision =
    | Redirect(location: string)
    /** `NextResponse.next()` with the headers it sets. */
    | Next(headers: seq<(string, string)>)

  const LoginPath := "/admin/login"
  const DashboardPath := "/admin/dashboard"

  const CorsHeaders: seq<(string, string)> := [
    ("Access-Control-Allow-Origin", "*"),
    ("Access-Control-Allow-Methods", "GET, POST, PUT, DELETE, OPTIONS"),
    ("Access-Control-Allow-Headers", "Content-Type, Authorization")]

  /** The `admin_id` cookie is set to a non-empty value. */
  predicate SignedIn(adminId: Option<string>) {
    adminId.Some? && adminId.value != ""
  }

  /** A path the session check covers: under "/admin" but not the login page. */
  predicate Guarded(path: string) {
    StartsWith(path, "/admin") && path != LoginPath
  }

  function Decide(path: string, adminId: Option<string>): (d: Decision)
    ensures d == Redirect(LoginPath) <==> Guarded(path) && !SignedIn(adminId)
    ensures d == Redirect(DashboardPath) <==> path == LoginPath && SignedIn(adminId)
    ensures d.Next? && StartsWith(path, "/api/") ==> d.headers == CorsHeaders
    ensures d.Next? && !StartsWith(path, "/api/") ==> d.headers == []
    ensures d.Redirect? ==> d.location != path
  {
    if Guarded(path) && !SignedIn(adminId) then Redirect(LoginPath)
    else if path == LoginPath && SignedIn(adminId) then Redirect(DashboardPath)
    else if StartsWith(path, "/api/") then Next(CorsHeaders)
    else Next([])
  }

  /** The cookie's value is never examined: any two non-empty values decide alike. */
  lemma CookieValueUnchecked(path: string, v1: string, v2: string)
    requires v1 != "" && v2 != ""
    ensures Decide(path, Some(v1)) == Decide(path, Some(v2))
  {
  }

  /** An empty cookie counts as no cookie. */
  lemma EmptyCookieIsNoCookie(path: string)
    ensures Decide(path, Some("")) == Decide(path, None)
  {
  }

  /** An API path is never redirected, whatever the cookie. */
  lemma ApiNeverRedirected(path: string, adminId: Option<string>)
    requires StartsWith(path, "/api/")
    ensures Decide(path, adminId) == Next(CorsHeaders)
  {
    assert path[2] == "/api/"[2] == 'p';
    assert "/admin"[2] == 'd';
  }

  /** Following a redirect, with the cookie unchanged, never redirects again. */
  lemma RedirectSettles(path: string, adminId: Option<string>)
    requires Decide(path, adminId).Redirect?
    ensures Decide(Decide(path, adminId).location, adminId).Next?
  {
    assert StartsWith(DashboardPath, "/admin");
  }
}
