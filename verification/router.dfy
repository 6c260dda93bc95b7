/** The frontend router: the route table with its meta fields and the
    navigation guard that runs before every navigation. The guard reads the
    stored token, sets the page title and either lets the navigation
    proceed or redirects it. */
module Router {
  import opened Wrappers

  /** A route's `meta`. An absent field is `None`; the guard only tests the
      fields for truthiness. */
  datatype Meta = Meta(title: Option<string>, requiresAuth: Option<bool>, guestOnly: Option<bool>)

  /** A route record: path pattern, name and meta. */
  datatype Route = Route(path: string, name: string, meta: Meta)

  /** What the guard tells the router: go on, go to Login carrying the
      requested path in the `redirect` query, or go to the organization
      list. */
  datatype Decision = Proceed | RedirectLogin(redirect: string) | RedirectHome

  /** Where a navigation ends: the route shown, the page title set for it,
      and the `redirect` query it carries, if any. */
  datatype Landing = Landing(route: Route, title: string, redirect: Option<string>)

  const AppName: string := "OrgTracker"

  /** The route table, in declaration order; the last entry catches every
      other path. */
  const Routes: seq<Route> := [
    Route("/", "OrganizationList", Meta(Some("Organizations"), Some(false), None)),
    Route("/organizations/:slug", "OrganizationDetail", Meta(Some("Organization Detail"), Some(false), None)),
    Route("/login", "Login", Meta(Some("Login"), Some(false), Some(true))),
    Route("/register", "Register", Meta(Some("Register"), Some(false), Some(true))),
    Route("/profile", "UserProfile", Meta(Some("Profile"), Some(true), None)),
    Route("/followed", "FollowedOrganizations", Meta(Some("Followed Organizations"), Some(true), None)),
    Route("/:pathMatch(.*)*", "NotFound", Meta(Some("Page Not Found"), None, None))
  ]

  /** A meta flag counts only when it is present and true. */
  predicate Truthy(flag: Option<bool>) {
    flag == Some(true)
  }

  /** The user counts as logged in when a token is stored and it is not the
      empty string. */
  predicate Authenticated(token: Option<string>) {
    token.Some? && token.value != ""
  }

  /** A route's access rule: protected routes want a logged-in user,
      guest-only routes an anonymous one. */
  predicate Admits(meta: Meta, token: Option<string>) {
    && (Truthy(meta.requiresAuth) ==> Authenticated(token))
    && (Truthy(meta.guestOnly) ==> !Authenticated(token))
  }

  /** The page title: "<title> - OrgTracker" for a route with a non-empty
      title, the bare application name otherwise. */
  function Title(meta: Meta): (t: string)
    ensures t == AppName <==> !(meta.title.Some? && meta.title.value != "")
    ensures meta.title.Some? && meta.title.value != "" ==>
      |t| > |meta.title.value| && t[..|meta.title.value|] == meta.title.value
    ensures |t| >= |AppName| && t[|t| - |AppName|..] == AppName
  {
    if meta.title.Some? && meta.title.value != "" then meta.title.value + " - " + AppName else AppName
  }

  /** `beforeEach`: the decision for a navigation to `to`, whose full path
      is `fullPath`, with `token` in storage. */
  function Guard(to: Route, fullPath: string, token: Option<string>): (d: Decision)
    ensures d.Proceed? <==> Admits(to.meta, token)
    ensures d.RedirectLogin? <==> Truthy(to.meta.requiresAuth) && !Authenticated(token)
    ensures d.RedirectLogin? ==> d.redirect == fullPath
    ensures d.RedirectHome? ==> Authenticated(token) && Truthy(to.meta.guestOnly)
  {
    if Truthy(to.meta.requiresAuth) && !Authenticated(token) then RedirectLogin(fullPath)
    else if Truthy(to.meta.guestOnly) && Authenticated(token) then RedirectHome
    else Proceed
  }

  /** The route with the given name, as `next({ name })` resolves it. */
  function RouteNamed(name: string): (r: Option<Route>)
    ensures r.Some? ==> r.value in Routes && r.value.name == name
    ensures r.None? <==> (forall i | 0 <= i < |Routes| :: Routes[i].name != name)
  {
    FirstNamed(Routes, name)
  }

  function FirstNamed(routes: seq<Route>, name: string): (r: Option<Route>)
    ensures r.Some? ==> r.value in routes && r.value.name == name
    ensures r.None? <==> (forall i | 0 <= i < |routes| :: routes[i].name != name)
  {
    if routes == [] then None
    else if routes[0].name == name then Some(routes[0])
    else
      assert forall i | 1 <= i < |routes| :: routes[i] == routes[1..][i - 1];
      FirstNamed(routes[1..], name)
  }

  /** The table never asks for a logged-in and an anonymous user at once,
      names each route once, and has both redirect targets. */
  lemma RouteTableSound()
    ensures forall i | 0 <= i < |Routes| :: !(Truthy(Routes[i].meta.requiresAuth) && Truthy(Routes[i].meta.guestOnly))
    ensures forall i, j | 0 <= i < j < |Routes| :: Routes[i].name != Routes[j].name
    ensures RouteNamed("Login") == Some(Routes[2])
    ensures RouteNamed("OrganizationList") == Some(Routes[0])
  {
  }

  /** Neither redirect target is redirected again under the same token, so
      the guard never loops: Login admits every anonymous user and the
      organization list admits everybody. */
  lemma {:induction false} GuardNeverLoops(to: Route, fullPath: string, token: Option<string>, again: string)
    requires to in Routes
    ensures Guard(to, fullPath, token).RedirectLogin? ==>
      RouteNamed("Login").Some? && Guard(RouteNamed("Login").value, again, token).Proceed?
    ensures Guard(to, fullPath, token).RedirectHome? ==>
      RouteNamed("OrganizationList").Some? && Guard(RouteNamed("OrganizationList").value, again, token).Proceed?
  {
    RouteTableSound();
  }

  /** The location a decision sends the navigation to: the route named in
      `next(...)` and the `redirect` query it sets; none when the guard lets
      the navigation proceed. */
  function RedirectTarget(d: Decision): (r: Option<(Route, Option<string>)>)
    ensures r.None? <==> d.Proceed?
    ensures d.RedirectLogin? ==> r == Some((Routes[2], Some(d.redirect)))
    ensures d.RedirectHome? ==> r == Some((Routes[0], None))
  {
    RouteTableSound();
    match d
    case Proceed => None
    case RedirectLogin(path) => Some((RouteNamed("Login").value, Some(path)))
    case RedirectHome => Some((RouteNamed("OrganizationList").value, None))
  }

  /** The decision redirects to the location already shown. vue-router then
      ends the navigation as a duplicate and does not run the guard again. */
  predicate RedirectsToShown(shown: Option<Landing>, d: Decision) {
    && shown.Some?
    && RedirectTarget(d).Some?
    && RedirectTarget(d).value == (shown.value.route, shown.value.redirect)
  }

  /** A whole navigation from the location `shown` (none for the first one).
      The guard runs for `to` and sets the title for `to`. After a redirect
      to another location the guard runs once more, for the target, and sets
      the target's title; a redirect to the location already shown is
      abandoned, so that page stays under the title set for `to`. */
  function Navigate(shown: Option<Landing>, to: Route, fullPath: string, token: Option<string>): (n: Landing)
    requires to in Routes
    ensures Admits(n.route.meta, token)
    ensures n.route in Routes
    ensures n.route == to <==> Admits(to.meta, token)
    ensures n.redirect.Some? <==> Truthy(to.meta.requiresAuth) && !Authenticated(token)
    ensures n.redirect.Some? ==> n.redirect.value == fullPath && n.route.name == "Login"
    ensures RedirectsToShown(shown, Guard(to, fullPath, token)) ==> n == shown.value.(title := Title(to.meta))
    ensures !RedirectsToShown(shown, Guard(to, fullPath, token)) ==> n.title == Title(n.route.meta)
  {
    var d := Guard(to, fullPath, token);
    GuardNeverLoops(to, fullPath, token, "");
    RouteTableSound();
    match RedirectTarget(d)
    case None => Landing(to, Title(to.meta), None)
    case Some((route, redirect)) =>
      if shown.Some? && (shown.value.route, shown.value.redirect) == (route, redirect)
      then Landing(route, Title(to.meta), redirect)
      else Landing(route, Title(route.meta), redirect)
  }

  /** Protected pages are shown only to logged-in users and guest-only
      pages only to anonymous ones. */
  lemma NavigationRespectsAccess(shown: Option<Landing>, to: Route, fullPath: string, token: Option<string>)
    requires to in Routes
    ensures Truthy(Navigate(shown, to, fullPath, token).route.meta.requiresAuth) ==> Authenticated(token)
    ensures Truthy(Navigate(shown, to, fullPath, token).route.meta.guestOnly) ==> !Authenticated(token)
  {
  }

  /** A logged-in user on the organization list who follows a link to Login
      stays on the list, under the title "Login - OrgTracker"; coming from
      any other page, the same navigation ends on the list under its own
      title. */
  lemma RedirectToShownKeepsTitle(token: string)
    requires token != ""
    ensures var home := Landing(Routes[0], Title(Routes[0].meta), None);
      && Navigate(Some(home), Routes[2], "/login", Some(token)) == Landing(Routes[0], "Login - OrgTracker", None)
      && Navigate(None, Routes[2], "/login", Some(token)) == Landing(Routes[0], "Organizations - OrgTracker", None)
  {
    var home := Landing(Routes[0], Title(Routes[0].meta), None);
    TitleExamples();
    assert Guard(Routes[2], "/login", Some(token)) == RedirectHome;
    assert RedirectsToShown(Some(home), RedirectHome);
    assert !RedirectsToShown(None, RedirectHome);
  }

  /** Concrete titles: a titled route and the fallback for an untitled one. */
  lemma TitleExamples()
    ensures Title(Routes[4].meta) == "Profile - OrgTracker"
    ensures Title(Routes[0].meta) == "Organizations - OrgTracker"
    ensures Title(Routes[2].meta) == "Login - OrgTracker"
    ensures Title(Meta(None, None, None)) == "OrgTracker"
    ensures Title(Meta(Some(""), None, None)) == "OrgTracker"
  {
  }
}
