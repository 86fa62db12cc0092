/** The request gate that runs in front of the pages and the admin API.
    For a request path and the optional `token` cookie it decides, in a fixed
    order, between passing the request on, redirecting it, or answering it
    with a JSON error: public prefixes first, then the protected API prefixes
    with their role lists, then the protected pages, then everything else.
    Checking a token's signature and expiry (HS256 JSON Web Tokens) belongs to
    a library and is the parameter `verify`: it yields the token's claims, or
    nothing when the library would throw. */
module Middleware {
  import opened Wrappers
  import opened Text

  /** The claims the gate reads from a verified token. `role` is absent when
      the token carries no `role` claim, or one that is not a string. */
  datatype Payload = Payload(role: Option<string>)

  /** `NextResponse.next()`, `NextResponse.redirect(...)` and `NextResponse.json(...)`. */
  datatype Decision = Next | Redirect(target: string) | Reject(status: int, error: string)

  datatype ApiRoute = ApiRoute(path: string, roles: seq<string>)

  const PublicRoutes: seq<string> := ["/login", "/api/auth/login", "/favicon.ico", "/_next/static"]

  const ProtectedFrontendRoutes: seq<string> := ["/", "/dashboard", "/settings"]

  const ProtectedApiRoutes: seq<ApiRoute> := [
    ApiRoute("/api/admin/users", ["SUPER_ADMIN"]),
    ApiRoute("/api/admin/employees", ["SUPER_ADMIN", "ADMIN"])
  ]

  const MissingTokenError := "Unauthorized: Missing token"
  const ForbiddenError := "Forbidden: Insufficient privileges"
  const InvalidTokenError := "Invalid token"

  /** The module-level check on `JWT_SECRET_KEY`: loading the gate throws unless
      the variable is set to a non-empty string. */
  function LoadSecret(env: Option<string>): (secret: Option<string>)
    ensures secret.Some? <==> env.Some? && env.value != ""
    ensures secret.Some? ==> secret == env
  {
    if env.None? || env.value == "" then None else env
  }

  /** The cookie test `token && ...`: an empty cookie value counts as no token. */
  predicate HasToken(token: Option<string>) {
    token.Some? && token.value != ""
  }

  /** `publicRoutes.some(route => pathname.startsWith(route))` */
  predicate IsPublicRoute(path: string)
    ensures IsPublicRoute(path) <==>
              StartsWith(path, "/login") || StartsWith(path, "/api/auth/login")
              || StartsWith(path, "/favicon.ico") || StartsWith(path, "/_next/static")
  {
    assert forall route | route in PublicRoutes ::
             route == "/login" || route == "/api/auth/login" || route == "/favicon.ico" || route == "/_next/static";
    exists route | route in PublicRoutes :: StartsWith(path, route)
  }

  /** `routes.find(route => pathname.startsWith(route.path))`: the first entry whose
      path is a prefix of `path`. */
  function FindApiRoute(routes: seq<ApiRoute>, path: string): (r: Option<ApiRoute>)
    ensures r.None? <==> forall route | route in routes :: !StartsWith(path, route.path)
    ensures r.Some? ==> exists k :: 0 <= k < |routes| && routes[k] == r.value
                          && StartsWith(path, routes[k].path)
                          && forall j :: 0 <= j < k ==> !StartsWith(path, routes[j].path)
  {
    if routes == [] then None
    else if StartsWith(path, routes[0].path) then Some(routes[0])
    else
      var r := FindApiRoute(routes[1..], path);
      assert r.Some? ==> r.value in routes[1..];
      r
  }

  /** Step 1 for a public path: a `/login...` request that carries a token is sent to
      the dashboard; every other public request passes. */
  function PublicDecision(path: string, token: Option<string>): Decision {
    if HasToken(token) && StartsWith(path, "/login") then Redirect("/dashboard") else Next
  }

  /** Step 3: protected pages, matched exactly. */
  function PageDecision(path: string, token: Option<string>, verify: string -> Option<Payload>): Decision {
    if path in ProtectedFrontendRoutes then
      if !HasToken(token) then Redirect("/login")
      else if verify(token.value).None? then Redirect("/login")
      else Next
    else Next
  }

  /** Steps 2 to 4, for a path that is not public. An API request whose role is
      admitted is not answered here: it goes on to the page check. */
  function ProtectedDecision(path: string, token: Option<string>, verify: string -> Option<Payload>): Decision {
    match FindApiRoute(ProtectedApiRoutes, path)
    case Some(route) =>
      if !HasToken(token) then Reject(401, MissingTokenError)
      else (
        match verify(token.value)
        case None => Reject(401, InvalidTokenError)
        case Some(payload) =>
          if payload.role.None? || payload.role.value !in route.roles then Reject(403, ForbiddenError)
          else PageDecision(path, token, verify)
      )
    case None => PageDecision(path, token, verify)
  }

  /** `middleware(request)` as written. */
  function Middleware(path: string, token: Option<string>, verify: string -> Option<Payload>): (d: Decision)
    ensures d.Reject? ==> !IsPublicRoute(path) && FindApiRoute(ProtectedApiRoutes, path).Some?
    ensures d.Reject? ==> (d.status == 401 || d.status == 403)
    ensures d.Reject? && d.status == 403 ==> HasToken(token) && verify(token.value).Some?
    ensures d.Redirect? ==> d.target == "/dashboard" || d.target == "/login"
  {
    if IsPublicRoute(path) then PublicDecision(path, token) else ProtectedDecision(path, token, verify)
  }

  /** A request to the gate once the module has loaded: `None` when loading threw
      because the secret is missing. `verifyWith(secret, token)` is the library's check. */
  function Serve(env: Option<string>, path: string, token: Option<string>,
                 verifyWith: (string, string) -> Option<Payload>): (r: Option<Decision>)
    ensures r.Some? <==> env.Some? && env.value != ""
    ensures r.Some? ==> r.value == Middleware(path, token, t => verifyWith(env.value, t))
  {
    match LoadSecret(env)
    case None => None
    case Some(secret) => Some(Middleware(path, token, t => verifyWith(secret, t)))
  }

  // ---------------------------------------------------------------------------
  // Route tables

  /** Two prefixes that differ at a position both cover cannot both start `path`. */
  lemma PrefixesDiffer(path: string, p: string, q: string, i: nat)
    requires StartsWith(path, p) && i < |p| && i < |q| && p[i] != q[i]
    ensures !StartsWith(path, q)
  {
    assert path[i] == p[i];
  }

  /** A path under `/api/admin/` is not public. */
  lemma AdminPathNotPublic(path: string)
    requires StartsWith(path, "/api/admin/")
    ensures !IsPublicRoute(path)
  {
    PrefixesDiffer(path, "/api/admin/", "/login", 1);
    PrefixesDiffer(path, "/api/admin/", "/api/auth/login", 6);
    PrefixesDiffer(path, "/api/admin/", "/favicon.ico", 1);
    PrefixesDiffer(path, "/api/admin/", "/_next/static", 1);
  }

  /** No protected page is a protected API path. */
  lemma AdminPathNotPage(path: string)
    requires StartsWith(path, "/api/admin/")
    ensures path !in ProtectedFrontendRoutes
  {
  }

  /** Every path under `/api/admin/users` is governed by the first table entry,
      which admits SUPER_ADMIN only. */
  lemma UsersRoute(path: string)
    requires StartsWith(path, "/api/admin/users")
    ensures !IsPublicRoute(path)
    ensures FindApiRoute(ProtectedApiRoutes, path) == Some(ApiRoute("/api/admin/users", ["SUPER_ADMIN"]))
  {
    StartsWithTrans(path, "/api/admin/users", "/api/admin/");
    AdminPathNotPublic(path);
  }

  /** Every path under `/api/admin/employees`, `/api/admin/employees/attendance`
      included, is governed by the second entry, which admits SUPER_ADMIN and ADMIN. */
  lemma EmployeesRoute(path: string)
    requires StartsWith(path, "/api/admin/employees")
    ensures !IsPublicRoute(path)
    ensures FindApiRoute(ProtectedApiRoutes, path) == Some(ApiRoute("/api/admin/employees", ["SUPER_ADMIN", "ADMIN"]))
  {
    StartsWithTrans(path, "/api/admin/employees", "/api/admin/");
    AdminPathNotPublic(path);
    PrefixesDiffer(path, "/api/admin/employees", "/api/admin/users", 11);
  }

  // ---------------------------------------------------------------------------
  // Step 1: public prefixes

  /** A public path is never rejected: it passes, unless it starts with `/login` and a
      token is present, in which case it goes to `/dashboard`. */
  lemma PublicPathOutcome(path: string, token: Option<string>, verify: string -> Option<Payload>)
    requires IsPublicRoute(path)
    ensures !Middleware(path, token, verify).Reject?
    ensures Middleware(path, token, verify) == Redirect("/dashboard") <==> HasToken(token) && StartsWith(path, "/login")
    ensures Middleware(path, token, verify) == Next <==> !(HasToken(token) && StartsWith(path, "/login"))
  {
  }

  /** The `/login` redirect looks only at whether a token is present, not at whether
      it verifies: any two verifiers give the same decision on a public path. */
  lemma PublicPathIgnoresVerifier(path: string, token: Option<string>, v1: string -> Option<Payload>, v2: string -> Option<Payload>)
    requires IsPublicRoute(path)
    ensures Middleware(path, token, v1) == Middleware(path, token, v2)
  {
  }

  /** `/api/auth/login` is public but does not start with `/login`, so it passes even
      with a token. */
  lemma LoginApiNeverRedirected(token: Option<string>, verify: string -> Option<Payload>)
    ensures Middleware("/api/auth/login", token, verify) == Next
  {
    assert StartsWith("/api/auth/login", "/api/auth/login");
    PrefixesDiffer("/api/auth/login", "/api/auth/login", "/login", 1);
  }

  /** Any `/login...` path with a token goes to `/dashboard`, whatever the verifier says. */
  lemma LoginWithTokenRedirects(path: string, token: Option<string>, verify: string -> Option<Payload>)
    requires StartsWith(path, "/login") && HasToken(token)
    ensures Middleware(path, token, verify) == Redirect("/dashboard")
  {
    assert "/login" in PublicRoutes;
  }

  // ---------------------------------------------------------------------------
  // Step 2: protected API prefixes

  /** A protected API path without a token gets 401 "Unauthorized: Missing token". */
  lemma ApiMissingToken(path: string, token: Option<string>, verify: string -> Option<Payload>)
    requires !IsPublicRoute(path) && FindApiRoute(ProtectedApiRoutes, path).Some?
    requires !HasToken(token)
    ensures Middleware(path, token, verify) == Reject(401, MissingTokenError)
  {
  }

  /** A protected API path with a token the verifier rejects gets 401 "Invalid token". */
  lemma ApiInvalidToken(path: string, token: Option<string>, verify: string -> Option<Payload>)
    requires !IsPublicRoute(path) && FindApiRoute(ProtectedApiRoutes, path).Some?
    requires HasToken(token) && verify(token.value).None?
    ensures Middleware(path, token, verify) == Reject(401, InvalidTokenError)
  {
  }

  /** A verified token whose role claim is missing, or not in the matched entry's
      list, gets 403; a missing claim is therefore a 403, not a 401. */
  lemma ApiForbidden(path: string, token: Option<string>, verify: string -> Option<Payload>)
    requires !IsPublicRoute(path) && FindApiRoute(ProtectedApiRoutes, path).Some?
    requires HasToken(token) && verify(token.value).Some?
    requires var role := verify(token.value).value.role;
             role.None? || role.value !in FindApiRoute(ProtectedApiRoutes, path).value.roles
    ensures Middleware(path, token, verify) == Reject(403, ForbiddenError)
  {
  }

  /** A request under `/api/admin/` whose role is admitted is passed on: it falls
      through to the page check, which no API path matches. */
  lemma ApiAdmitted(path: string, token: Option<string>, verify: string -> Option<Payload>)
    requires StartsWith(path, "/api/admin/") && FindApiRoute(ProtectedApiRoutes, path).Some?
    requires HasToken(token) && verify(token.value).Some?
    requires var role := verify(token.value).value.role;
             role.Some? && role.value in FindApiRoute(ProtectedApiRoutes, path).value.roles
    ensures Middleware(path, token, verify) == Next
  {
    AdminPathNotPublic(path);
    AdminPathNotPage(path);
  }

  /** Under `/api/admin/users` a verified ADMIN token is refused with 403 and a verified
      SUPER_ADMIN token is passed on. */
  lemma UsersAdminScenario(path: string, token: string, verify: string -> Option<Payload>)
    requires StartsWith(path, "/api/admin/users") && token != ""
    ensures verify(token) == Some(Payload(Some("ADMIN"))) ==>
              Middleware(path, Some(token), verify) == Reject(403, ForbiddenError)
    ensures verify(token) == Some(Payload(Some("SUPER_ADMIN"))) ==>
              Middleware(path, Some(token), verify) == Next
  {
    UsersRoute(path);
    StartsWithTrans(path, "/api/admin/users", "/api/admin/");
    AdminPathNotPage(path);
  }

  /** Under `/api/admin/employees`, the attendance endpoints included, a verified ADMIN
      token is passed on. */
  lemma EmployeesAdminScenario(path: string, token: string, verify: string -> Option<Payload>)
    requires StartsWith(path, "/api/admin/employees") && token != ""
    requires verify(token) == Some(Payload(Some("ADMIN")))
    ensures Middleware(path, Some(token), verify) == Next
  {
    EmployeesRoute(path);
    StartsWithTrans(path, "/api/admin/employees", "/api/admin/");
    AdminPathNotPage(path);
  }

  // ---------------------------------------------------------------------------
  // Steps 3 and 4: protected pages, everything else

  lemma PagesNotPublicNorApi(path: string)
    requires path in ProtectedFrontendRoutes
    ensures !IsPublicRoute(path) && FindApiRoute(ProtectedApiRoutes, path).None?
  {
    if path == "/dashboard" {
      PrefixesDiffer(path, "/dashboard", "/login", 1);
      PrefixesDiffer(path, "/dashboard", "/api/auth/login", 1);
      PrefixesDiffer(path, "/dashboard", "/_next/static", 1);
      PrefixesDiffer(path, "/dashboard", "/favicon.ico", 1);
    } else if path == "/settings" {
      PrefixesDiffer(path, "/settings", "/login", 1);
      PrefixesDiffer(path, "/settings", "/api/auth/login", 1);
      PrefixesDiffer(path, "/settings", "/_next/static", 1);
      PrefixesDiffer(path, "/settings", "/favicon.ico", 1);
    }
  }

  /** `/`, `/dashboard` and `/settings` redirect to `/login` when the token is missing
      or does not verify, and pass otherwise; any role will do. */
  lemma PageProtection(path: string, token: Option<string>, verify: string -> Option<Payload>)
    requires path in ProtectedFrontendRoutes
    ensures Middleware(path, token, verify) ==
              if HasToken(token) && verify(token.value).Some? then Next else Redirect("/login")
  {
    PagesNotPublicNorApi(path);
  }

  /** A path that is neither public, nor under a protected API prefix, nor exactly a
      protected page passes with no check at all. */
  lemma UnlistedPathPasses(path: string, token: Option<string>, verify: string -> Option<Payload>)
    requires !IsPublicRoute(path) && FindApiRoute(ProtectedApiRoutes, path).None?
    requires path !in ProtectedFrontendRoutes
    ensures Middleware(path, token, verify) == Next
  {
  }

  /** `/dashboard/stocks` is not listed anywhere, so it passes whatever the token. */
  lemma StocksPagePasses(token: Option<string>, verify: string -> Option<Payload>)
    ensures Middleware("/dashboard/stocks", token, verify) == Next
  {
    var path := "/dashboard/stocks";
    PrefixesDiffer(path, "/dashboard", "/login", 1);
    PrefixesDiffer(path, "/dashboard", "/api/auth/login", 1);
    PrefixesDiffer(path, "/dashboard", "/_next/static", 1);
    PrefixesDiffer(path, "/dashboard", "/favicon.ico", 1);
    PrefixesDiffer(path, "/dashboard", "/api/admin/users", 1);
    PrefixesDiffer(path, "/dashboard", "/api/admin/employees", 1);
    assert StartsWith(path, "/dashboard");
  }

  // ---------------------------------------------------------------------------
  // The redirect loop, and the gate as evidently intended

  /** As written, a token that is present but no longer verifies (expired, or signed
      with a rotated secret) sends `/login` to `/dashboard` and `/dashboard` back to
      `/login`: the browser loops. */
  lemma RedirectLoopAsWritten(token: string, verify: string -> Option<Payload>)
    requires token != "" && verify(token).None?
    ensures Middleware("/login", Some(token), verify) == Redirect("/dashboard")
    ensures Middleware("/dashboard", Some(token), verify) == Redirect("/login")
  {
    LoginWithTokenRedirects("/login", Some(token), verify);
    PageProtection("/dashboard", Some(token), verify);
  }

  /** Step 1 as intended: only a token that verifies sends `/login...` to the dashboard. */
  function PublicDecisionIntended(path: string, token: Option<string>, verify: string -> Option<Payload>): Decision {
    if HasToken(token) && verify(token.value).Some? && StartsWith(path, "/login") then Redirect("/dashboard") else Next
  }

  /** The gate with the intended step 1; steps 2 to 4 are those of `Middleware`. */
  function MiddlewareIntended(path: string, token: Option<string>, verify: string -> Option<Payload>): (d: Decision)
    ensures !IsPublicRoute(path) ==> d == Middleware(path, token, verify)
    ensures !HasToken(token) || verify(token.value).Some? ==> d == Middleware(path, token, verify)
  {
    if IsPublicRoute(path) then PublicDecisionIntended(path, token, verify) else ProtectedDecision(path, token, verify)
  }

  /** With the intended step 1, a redirect always lands on a path that the same request
      state lets through: no redirect is followed by another. */
  lemma IntendedRedirectsSettle(path: string, token: Option<string>, verify: string -> Option<Payload>)
    ensures MiddlewareIntended(path, token, verify).Redirect? ==>
              MiddlewareIntended(MiddlewareIntended(path, token, verify).target, token, verify) == Next
  {
    var d := MiddlewareIntended(path, token, verify);
    if d.Redirect? {
      if d.target == "/dashboard" {
        assert HasToken(token) && verify(token.value).Some?;
        PageProtection("/dashboard", token, verify);
      } else {
        assert "/login" in PublicRoutes && StartsWith("/login", "/login");
        assert !HasToken(token) || verify(token.value).None?;
      }
    }
  }
}
