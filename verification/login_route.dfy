/**
 * The login endpoint (app/api/admin/login/route.ts). Only one fixed pair of credentials
 * is ever looked up; a row found for it signs that admin in, no row is a refusal, and a
 * failed lookup signs in the known admin 2 anyway. The session is written to the
 * response cookies, a `CookieJar`; the lookup's answer is a parameter.
 */
module LoginRoute {
  import opened Wrappers
  import opened JsText
  import opened AdminActions
  import Middleware

  /** The parsed JSON body: the two fields when they are strings (`None` when a field is
      missing or of another type), or a body that does not parse or destructure. */
  datatype LoginBody = Json(username: Option<string>, password: Option<string>) | Malformed

  datatype AdminUser = AdminUser(id: nat, username: string, isSuperAdmin: bool)

  /** What `executeQuery` gives for the admin row lookup. */
  datatype Lookup = Rows(users: seq<AdminUser>) | DbError

  datatype Reply =
    | SignedIn(user: AdminUser, warning: Option<string>)
    | Refused(error: string)

  datatype Response = Response(status: nat, reply: Reply)

  const FixedUsername := "admin"
  const FixedPassword := "password123"
  const FallbackWarning := "Logged in with fallback method due to database connection issues"
  const FallbackUser := AdminUser(2, "admin", true)

  predicate FixedCredentials(body: LoginBody) {
    body == Json(Some(FixedUsername), Some(FixedPassword))
  }

  /** The response and the `admin_id` cookie value the handler sets, if any. */
  function Login(body: LoginBody, lookup: Lookup): (r: (Response, Option<string>))
    ensures r.0.status == 200 <==> r.0.reply.SignedIn?
    ensures r.1.Some? <==> r.0.reply.SignedIn?
    ensures r.0.reply.SignedIn? <==> FixedCredentials(body) && (lookup.DbError? || |lookup.users| > 0)
    ensures body.Malformed? ==> r == (Response(500, Refused("An error occurred during login")), None)
    ensures body.Json? && !r.0.reply.SignedIn? ==> r == (Response(401, Refused(InvalidCredentials)), None)
    ensures FixedCredentials(body) && lookup.Rows? && |lookup.users| > 0 ==>
      r == (Response(200, SignedIn(lookup.users[0], None)), Some(NatToString(lookup.users[0].id)))
    ensures FixedCredentials(body) && lookup.DbError? ==>
      r == (Response(200, SignedIn(FallbackUser, Some(FallbackWarning))), Some("2"))
  {
    match body
    case Malformed => (Response(500, Refused("An error occurred during login")), None)
    case Json(username, password) =>
      if username == Some(FixedUsername) && password == Some(FixedPassword) then
        match lookup
        case DbError => (Response(200, SignedIn(FallbackUser, Some(FallbackWarning))), Some("2"))
        case Rows(users) =>
          if |users| > 0 then (Response(200, SignedIn(users[0], None)), Some(NatToString(users[0].id)))
          else (Response(401, Refused(InvalidCredentials)), None)
      else (Response(401, Refused(InvalidCredentials)), None)
  }

  /** `POST`: the handler with its cookie write. Both sign-in paths set a one-week,
      HTTP-only session cookie on the root path. */
  method Post(body: LoginBody, lookup: Lookup, jar: CookieJar) returns (response: Response)
    modifies jar
    ensures response == Login(body, lookup).0
    ensures Login(body, lookup).1.None? ==> jar.cookies == old(jar.cookies)
    ensures Login(body, lookup).1.Some? ==>
      jar.cookies == old(jar.cookies)["admin_id" := Cookie(Login(body, lookup).1.value, true, jar.production, OneWeek, "/")]
    ensures Login(body, lookup).1.Some? ==> jar.cookies["admin_id"].maxAge == 604800
  {
    var r := Login(body, lookup);
    if r.1.Some? {
      jar.SetSession(r.1.value);
    }
    response := r.0;
  }

  /** Whatever the lookup, a sign-in sets a cookie the request gate accepts: the admin
      pages open and the login page sends the admin on to the dashboard. */
  lemma SignInPassesGate(body: LoginBody, lookup: Lookup, path: string)
    requires Login(body, lookup).0.reply.SignedIn?
    requires Middleware.Guarded(path)
    ensures Middleware.Decide(path, Login(body, lookup).1) == Middleware.Next([])
    ensures Middleware.Decide(Middleware.LoginPath, Login(body, lookup).1) == Middleware.Redirect(Middleware.DashboardPath)
  {
    assert StartsWith(path, "/admin");
    assert !StartsWith(path, "/api/") by {
      assert path[2] == 'd';
    }
  }
}
