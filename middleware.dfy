/** The route guard of middleware.ts: a decision on the pathname, the signed-in user and the stored role. */
module Middleware {
  import opened Wrappers
  import opened Strings
  import opened Types

  /** `NextResponse.next()` or a redirect; `redirectTo` is the query parameter the login redirect carries. */
  datatype Response = Next | Redirect(path: string, redirectTo: Option<string>)

  /** The only public route prefix. */
  const LoginPath: string := "/login"

  predicate IsPublicRoute(pathname: string) {
    StartsWith(pathname, LoginPath)
  }

  /** `roleRoutes`: each role's own portal. */
  function Portal(r: UserRole): string {
    match r
    case Admin => "/admin"
    case Coordinator => "/coordinator"
    case Tenant => "/tenant"
  }

  /** `userRole && roleRoutes[userRole]`: the portal of a stored role, when it is one of the three. */
  function PortalOf(role: Option<string>): Option<string> {
    if role.Some? && ParseRole(role.value).Some? then Some(Portal(ParseRole(role.value).value)) else None
  }

  /**
   * `middleware(request)`. `user` is the signed-in user's id, if any; `role` is the `role`
   * column of that user's profile row, if the lookup found one. The role is consulted only
   * for a signed-in user.
   */
  function Decide(pathname: string, user: Option<string>, role: Option<string>): (r: Response)
    ensures r.Redirect? ==> r.path != pathname
    ensures r.Redirect? ==> r.path in {LoginPath, "/admin", "/coordinator", "/tenant"}
    ensures r.Redirect? && r.redirectTo.Some? ==> user.None? && r.path == LoginPath && r.redirectTo == Some(pathname)
    ensures user.Some? && r.Redirect? ==> r.redirectTo.None?
  {
    assert StartsWith(LoginPath, LoginPath);
    PrefixesExclusive(pathname);
    if user.None? && !IsPublicRoute(pathname) && pathname != "/" then
      Redirect(LoginPath, Some(pathname))
    else if user.None? then
      Next
    else if pathname == "/" && PortalOf(role).Some? then
      Redirect(PortalOf(role).value, None)
    else if StartsWith(pathname, "/admin") && role != Some("ADMIN") then
      Redirect(PortalOf(role).GetOr("/tenant"), None)
    else if StartsWith(pathname, "/coordinator") && role != Some("COORDINATOR") then
      Redirect(PortalOf(role).GetOr("/tenant"), None)
    else if StartsWith(pathname, "/tenant") && role != Some("TENANT") then
      Redirect(PortalOf(role).GetOr("/admin"), None)
    else
      Next
  }

  /** A signed-out request to a protected path goes to the login page, remembering where it was going. */
  lemma SignedOutProtectedGoesToLogin(pathname: string, role: Option<string>)
    requires !IsPublicRoute(pathname) && pathname != "/"
    ensures Decide(pathname, None, role) == Redirect("/login", Some(pathname))
  {
  }

  /** A signed-out request passes through exactly when it is for a public path or for "/". */
  lemma SignedOutPassesIff(pathname: string, role: Option<string>)
    ensures Decide(pathname, None, role) == Next <==> IsPublicRoute(pathname) || pathname == "/"
  {
  }

  /** At "/", a signed-in user with a known role goes to that role's portal; with any other role "/" passes. */
  lemma HomeRedirect(user: string, role: Option<string>)
    ensures PortalOf(role).Some? ==> Decide("/", Some(user), role) == Redirect(PortalOf(role).value, None)
    ensures PortalOf(role).None? ==> Decide("/", Some(user), role) == Next
  {
  }

  lemma PrefixesExclusive(pathname: string)
    ensures StartsWith(pathname, "/admin") ==> !StartsWith(pathname, "/coordinator") && !StartsWith(pathname, "/tenant")
    ensures StartsWith(pathname, "/coordinator") ==> !StartsWith(pathname, "/tenant")
    ensures StartsWith(pathname, "/admin") || StartsWith(pathname, "/coordinator") || StartsWith(pathname, "/tenant") ==> pathname != "/"
  {
    if StartsWith(pathname, "/admin") {
      assert pathname[1] == 'a';
    }
    if StartsWith(pathname, "/coordinator") {
      assert pathname[1] == 'c';
    }
  }

  /** Under /admin only ADMIN passes; another known role goes to its own portal, an unknown one to /tenant. */
  lemma AdminGuard(pathname: string, user: string, role: Option<string>)
    requires StartsWith(pathname, "/admin")
    ensures Decide(pathname, Some(user), role) ==
      if role == Some("ADMIN") then Next else Redirect(PortalOf(role).GetOr("/tenant"), None)
  {
    PrefixesExclusive(pathname);
  }

  /** Under /coordinator only COORDINATOR passes; another known role goes to its portal, an unknown one to /tenant. */
  lemma CoordinatorGuard(pathname: string, user: string, role: Option<string>)
    requires StartsWith(pathname, "/coordinator")
    ensures Decide(pathname, Some(user), role) ==
      if role == Some("COORDINATOR") then Next else Redirect(PortalOf(role).GetOr("/tenant"), None)
  {
    PrefixesExclusive(pathname);
    assert pathname[1] == 'c';
  }

  /** Under /tenant only TENANT passes; another known role goes to its portal, an unknown one to /admin. */
  lemma TenantGuard(pathname: string, user: string, role: Option<string>)
    requires StartsWith(pathname, "/tenant")
    ensures Decide(pathname, Some(user), role) ==
      if role == Some("TENANT") then Next else Redirect(PortalOf(role).GetOr("/admin"), None)
  {
    PrefixesExclusive(pathname);
    assert pathname[1] == 't';
  }

  /** A signed-in request outside "/" and the three guarded prefixes passes through unchanged. */
  lemma SignedInElsewherePasses(pathname: string, user: string, role: Option<string>)
    requires pathname != "/"
    requires !StartsWith(pathname, "/admin") && !StartsWith(pathname, "/coordinator") && !StartsWith(pathname, "/tenant")
    ensures Decide(pathname, Some(user), role) == Next
  {
  }

  /** A role's own portal, and every path below it, lets that role through. */
  lemma OwnPortalPasses(r: UserRole, user: string, suffix: string)
    ensures Decide(Portal(r) + suffix, Some(user), Some(RoleName(r))) == Next
  {
    var p := Portal(r) + suffix;
    assert StartsWith(p, Portal(r)) by { assert p[..|Portal(r)|] == Portal(r); }
    PrefixesExclusive(p);
    match r
    case Admin =>
    case Coordinator => assert p[1] == 'c';
    case Tenant => assert p[1] == 't';
  }

  /** For a known role every redirect lands on a path that the same request then lets through: one redirect settles it. */
  lemma OneRedirectSettles(pathname: string, user: string, r: UserRole)
    ensures Decide(pathname, Some(user), Some(RoleName(r))).Redirect? ==>
      Decide(pathname, Some(user), Some(RoleName(r))) == Redirect(Portal(r), None)
      && Decide(Portal(r), Some(user), Some(RoleName(r))) == Next
  {
    assert Portal(r) + "" == Portal(r);
    OwnPortalPasses(r, user, "");
  }

  /** The login redirect of a signed-out request is itself let through. */
  lemma LoginRedirectSettles(pathname: string, role: Option<string>)
    ensures Decide(pathname, None, role).Redirect? ==> Decide(Decide(pathname, None, role).path, None, role) == Next
  {
    assert StartsWith(LoginPath, LoginPath);
  }

  /** A signed-in user whose role is missing or unknown is sent from /tenant to /admin and from /admin back to /tenant. */
  lemma UnknownRoleBounces(user: string, role: Option<string>)
    requires PortalOf(role).None?
    ensures Decide("/tenant", Some(user), role) == Redirect("/admin", None)
    ensures Decide("/admin", Some(user), role) == Redirect("/tenant", None)
  {
    assert StartsWith("/tenant", "/tenant");
    assert StartsWith("/admin", "/admin");
    PrefixesExclusive("/tenant");
    assert role != Some("ADMIN") && role != Some("TENANT") && role != Some("COORDINATOR") by {
      if role.Some? { assert ParseRole(role.value).None?; }
    }
  }
}
