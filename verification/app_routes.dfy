/** `AppContent`: what the single-page app renders for a signed-in state and
    a location, through React Router's `Switch`. */
module AppRoutes {
  import opened Common
  import opened Strings
  import opened Store
  import opened AuthMiddleware
  import opened AuthContext
  import opened AuthRoutes
  import DoctorRoutes
  import LogQuery

  const TrackerPaths: seq<string> := ["/dashboard", "/ai-predictions", "/nutritional-audit", "/tables", "/tables2", "/billing"]

  /** An `exact` route's match: the same path up to ASCII case, with an
      optional trailing slash. */
  predicate RouteMatches(path: string, pathname: string)
  {
    Lower(pathname) == path || Lower(pathname) == path + "/"
  }

  /** The first of `paths` matching the location. */
  function FirstMatch(paths: seq<string>, pathname: string): (r: Option<string>)
    ensures r.Some? ==> r.value in paths && RouteMatches(r.value, pathname)
    ensures r.Some? ==> exists k :: 0 <= k < |paths| && paths[k] == r.value
                                   && forall j :: 0 <= j < k ==> !RouteMatches(paths[j], pathname)
    ensures r.None? <==> forall i :: 0 <= i < |paths| ==> !RouteMatches(paths[i], pathname)
  {
    match FirstWhere(paths, (p: string) => RouteMatches(p, pathname))
    case None => None
    case Some(k) => Some(paths[k])
  }

  /** What is on screen: the loading spinner, the sign-in page, the page
      registered for a path, nothing, or a redirect to a path. */
  datatype View = Spinner | SignInPage | Page(path: string) | Blank | Redirect(to: string)

  /** A child of the `Switch`: a fragment of routes, one route, or the
      catch-all redirect. */
  datatype Child = Fragment(paths: seq<string>) | Route(path: string) | RedirectAll(to: string)

  /** React Router 5's `Switch`: the first child that matches is rendered.
      A child without `path` or `from` (a fragment) matches every location;
      inside it the routes render on their own and only a matching one
      shows. */
  function Switch(children: seq<Child>, pathname: string): (v: View)
    ensures v.Page? ==> RouteMatches(v.path, pathname)
    decreases |children|
  {
    if |children| == 0 then Blank
    else
      match children[0]
      case Fragment(paths) =>
        (match FirstMatch(paths, pathname)
         case Some(p) => Page(p)
         case None => Blank)
      case Route(p) => if RouteMatches(p, pathname) then Page(p) else Switch(children[1..], pathname)
      case RedirectAll(to) => Redirect(to)
  }

  /** The target of the default redirect. */
  function DefaultTarget(f: Flags): (t: string)
    ensures f.isDoctor && !f.isAdmin ==> t == "/doctor"
    ensures !f.isDoctor || f.isAdmin ==> t == "/dashboard"
  {
    if f.isAdmin then "/dashboard" else if f.isDoctor then "/doctor" else "/dashboard"
  }

  /** The children `AppContent` gives the `Switch`, as written: the tracker
      routes inside one fragment. */
  function Children(f: Flags): (cs: seq<Child>)
    ensures |cs| >= 1 && cs[|cs| - 1] == RedirectAll(DefaultTarget(f))
  {
    (if f.isPatient || f.isAdmin then [Fragment(TrackerPaths)] else [])
    + (if f.isDoctor || f.isAdmin then [Route("/doctor")] else [])
    + (if f.isAdmin then [Route("/admin")] else [])
    + [RedirectAll(DefaultTarget(f))]
  }

  function Routes(paths: seq<string>): (cs: seq<Child>)
    ensures |cs| == |paths| && forall i :: 0 <= i < |paths| ==> cs[i] == Route(paths[i])
  {
    seq(|paths|, i requires 0 <= i < |paths| => Route(paths[i]))
  }

  /** The children with every fragment spread into its routes, the layout
      under which `Switch` sees each route. */
  function Flatten(cs: seq<Child>): (r: seq<Child>)
    ensures forall i :: 0 <= i < |r| ==> !r[i].Fragment?
    decreases |cs|
  {
    if |cs| == 0 then []
    else
      match cs[0]
      case Fragment(paths) => Routes(paths) + Flatten(cs[1..])
      case _ => [cs[0]] + Flatten(cs[1..])
  }

  /** The paths a role can open. */
  function Reachable(role: Role): (ps: seq<string>)
  {
    match role
    case Patient => TrackerPaths
    case Doctor => ["/doctor"]
    case Admin => TrackerPaths + ["/doctor", "/admin"]
  }

  lemma {:induction false} SwitchOverRoutes(paths: seq<string>, to: string, pathname: string)
    ensures Switch(Routes(paths) + [RedirectAll(to)], pathname) ==
              match FirstMatch(paths, pathname)
              case Some(p) => Page(p)
              case None => Redirect(to)
    decreases |paths|
  {
    var cs := Routes(paths) + [RedirectAll(to)];
    if |paths| > 0 {
      assert cs[1..] == Routes(paths[1..]) + [RedirectAll(to)];
      SwitchOverRoutes(paths[1..], to, pathname);
      if !RouteMatches(paths[0], pathname) {
        var f := FirstMatch(paths, pathname);
        var g := FirstMatch(paths[1..], pathname);
        if g.Some? {
          assert f.Some?;
        }
      }
    }
  }

  lemma FlatChildren(f: Flags, role: Role)
    requires f == FlagsOf(Some(AuthUser("", "", "", role, None, None, "")))
    ensures Flatten(Children(f)) == Routes(Reachable(role)) + [RedirectAll(DefaultTarget(f))]
  {
    var last := [RedirectAll(DefaultTarget(f))];
    assert Flatten(last) == last;
    match role
    case Patient =>
      assert Children(f) == [Fragment(TrackerPaths)] + last;
    case Doctor =>
      assert Children(f) == [Route("/doctor")] + last;
      assert Routes(["/doctor"]) == [Route("/doctor")];
    case Admin =>
      var cs := [Fragment(TrackerPaths), Route("/doctor"), Route("/admin")] + last;
      assert Children(f) == cs;
      assert cs[1..][1..] == [Route("/admin")] + last;
      assert Flatten(cs[1..][1..]) == [Route("/admin")] + last;
      assert Flatten(cs[1..]) == [Route("/doctor"), Route("/admin")] + last;
      assert Routes(Reachable(Admin)) == Routes(TrackerPaths) + [Route("/doctor"), Route("/admin")];
  }

  /** The screen for a client state and location: the spinner while the
      saved session is checked, the sign-in page when signed out, and the
      role's routes otherwise. `route` decides among the routes. */
  function Screen(c: Client, pathname: string, route: (Flags, string) -> View): (v: View)
    ensures c.loading ==> v == Spinner
    ensures !c.loading && c.user.None? ==> v == SignInPage
    ensures !c.loading && c.user.Some? ==> v == route(FlagsOf(c.user), pathname)
  {
    if c.loading then Spinner
    else if !FlagsOf(c.user).isAuthenticated then SignInPage
    else route(FlagsOf(c.user), pathname)
  }

  /** The routing as written: the fragment is one `Switch` child. */
  function RoutedAsWritten(f: Flags, pathname: string): (v: View)
    ensures f.isPatient || f.isAdmin ==> !v.Redirect?
  {
    Switch(Children(f), pathname)
  }

  /** The routing as evidently intended: every route a direct `Switch`
      child, the catch-all redirect last. */
  function Routed(f: Flags, pathname: string): (v: View)
  {
    Switch(Flatten(Children(f)), pathname)
  }

  /** What a page load shows once the saved session has been checked: never
      the spinner; the sign-in page exactly when there was no saved entry
      or `GET /me` rejected it; otherwise a page the stored role can open
      or the role's default redirect. */
  lemma StartupScreen(saved: Option<Saved>, me: string -> Reply<Profile>, pathname: string)
    ensures var v := Screen(Startup(saved, me), pathname, Routed);
            && v != Spinner
            && (v == SignInPage <==> !(saved.Some? && saved.value.Entry? && me(saved.value.user.token).Ok?))
            && (v.Page? ==> v.path in Reachable(me(saved.value.user.token).value.role))
  {
    var c := Startup(saved, me);
    if c.user.Some? {
      RoleTable(c.user.value, pathname);
    }
  }

  /** The role table: a signed-in user sees the page of a path exactly when
      the path is reachable for the role, and is sent to the role's default
      otherwise. */
  lemma RoleTable(u: AuthUser, pathname: string)
    ensures var v := Routed(FlagsOf(Some(u)), pathname);
            && (v.Page? ==> v.path in Reachable(u.role) && RouteMatches(v.path, pathname))
            && (v.Page? <==> exists i :: 0 <= i < |Reachable(u.role)| && RouteMatches(Reachable(u.role)[i], pathname))
            && (!v.Page? ==> v == Redirect(DefaultTarget(FlagsOf(Some(u)))))
  {
    var f := FlagsOf(Some(u));
    FlatChildren(f, u.role);
    SwitchOverRoutes(Reachable(u.role), DefaultTarget(f), pathname);
  }

  /** A lower-case path without a trailing slash opens its own page when
      the role can reach it. */
  lemma OpensReachable(u: AuthUser, path: string)
    requires path in Reachable(u.role) && IsLowerAscii(path)
    requires |path| > 0 && path[|path| - 1] != '/'
    ensures Routed(FlagsOf(Some(u)), path) == Page(path)
  {
    LowerOfLower(path);
    var ps := Reachable(u.role);
    var i :| 0 <= i < |ps| && ps[i] == path;
    assert RouteMatches(ps[i], path);
    RoleTable(u, path);
    var v := Routed(FlagsOf(Some(u)), path);
    assert v.Page? && RouteMatches(v.path, path);
    assert (v.path + "/")[|v.path|] == '/';
  }

  /** The default redirect lands on a page the role can open, so it never
      loops. */
  lemma RedirectLands(u: AuthUser)
    ensures var t := DefaultTarget(FlagsOf(Some(u)));
            t in Reachable(u.role) && Routed(FlagsOf(Some(u)), t) == Page(t)
  {
    var t := DefaultTarget(FlagsOf(Some(u)));
    assert t == Reachable(u.role)[0];
    OpensReachable(u, t);
  }

  /** With the routes spread out, an administrator is shown the doctor
      dashboard, yet every request that page makes is refused by the doctor
      API; as written the administrator sees nothing there at all. */
  lemma AdminDoctorPageRefused(u: AuthUser, db: Db, cr: Credentials, req: DoctorRoutes.Request,
                               parseDate: LogQuery.DateParser)
    requires u.role == Admin
    requires Authenticate(db.users, cr).Pass? && Authenticate(db.users, cr).user.role == Admin
    ensures Routed(FlagsOf(Some(u)), "/doctor") == Page("/doctor")
    ensures RoutedAsWritten(FlagsOf(Some(u)), "/doctor") == Blank
    ensures DoctorRoutes.Handle(db, cr, req, parseDate) == Fail(403, "Access denied. Required role(s): doctor")
  {
    LowerOfLower("/doctor");
    assert Children(FlagsOf(Some(u)))[0] == Fragment(TrackerPaths);
    forall i | 0 <= i < |TrackerPaths|
      ensures !RouteMatches(TrackerPaths[i], "/doctor")
    {
    }
    assert Reachable(Admin)[6] == "/doctor";
    OpensReachable(u, "/doctor");
    DoctorRoutes.AdminRefused(db, cr, req, parseDate);
  }

  /** As written, an administrator who opens `/admin` sees nothing: the
      tracker fragment is chosen first and holds no `/admin` route. */
  lemma AdminPageBlankAsWritten(u: AuthUser)
    requires u.role == Admin
    ensures RoutedAsWritten(FlagsOf(Some(u)), "/admin") == Blank
    ensures Routed(FlagsOf(Some(u)), "/admin") == Page("/admin")
  {
    LowerOfLower("/admin");
    var f := FlagsOf(Some(u));
    assert Children(f)[0] == Fragment(TrackerPaths);
    forall i | 0 <= i < |TrackerPaths|
      ensures !RouteMatches(TrackerPaths[i], "/admin")
    {
    }
    assert Reachable(Admin)[7] == "/admin";
    OpensReachable(u, "/admin");
  }
}
