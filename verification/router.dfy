/**
  The Vue router: its route table and the `beforeEach` navigation guard.
  The guard reads only the target route's `requiresAuth` flag, the target
  path and whether an access token is stored.
 */
module Router {
  import opened Values

  /** A route record; the view component it renders is left out. */
  datatype RouteRecord = RouteRecord(path: string, redirect: Option<string>, title: Option<string>, requiresAuth: bool)

  const Routes: seq<RouteRecord> := [
    RouteRecord("/", Some("/dashboard"), None, false),
    RouteRecord("/signup", None, Some("Sign Up"), false),
    RouteRecord("/login", None, Some("Login"), false),
    RouteRecord("/dashboard", None, Some("Dashboard"), true)
  ]

  /** ASCII letter case folding, as a case-insensitive regular expression applies it to ASCII letters. */
  function Fold(c: char): char
  {
    if 'A' <= c <= 'Z' then (c as int + 32) as char else c
  }

  /** Equal up to the case of ASCII letters. */
  predicate EqualFold(a: string, b: string)
  {
    |a| == |b| && forall i :: 0 <= i < |a| ==> Fold(a[i]) == Fold(b[i])
  }

  /** A record path without its trailing "/", if it has one. */
  function TrimSlash(p: string): string
  {
    if |p| > 0 && p[|p| - 1] == '/' then p[..|p| - 1] else p
  }

  /**
    Whether a static record path matches a requested path under the
    router's default options (`strict: false`, `sensitive: false`): letter
    case is ignored and one trailing "/" is optional, so "/dashboard"
    matches "/Dashboard/" and "/" matches "" and "/".
   */
  predicate Matches(recordPath: string, path: string)
  {
    var base := TrimSlash(recordPath);
    EqualFold(path, base) || EqualFold(path, base + "/")
  }

  /**
    The record in `rs` that matches `path`, if any. The records of this
    table have static paths that no path matches twice (MatchesDisjoint), so the
    first match is the one the router's ranking picks.
   */
  function Find(rs: seq<RouteRecord>, path: string): (r: Option<RouteRecord>)
    ensures r.Some? ==> r.value in rs && Matches(r.value.path, path)
    ensures r.None? <==> forall i :: 0 <= i < |rs| ==> !Matches(rs[i].path, path)
  {
    if rs == [] then None
    else if Matches(rs[0].path, path) then Some(rs[0])
    else Find(rs[1..], path)
  }

  /** A path a record matches is as long as the record path without its trailing "/", or one longer. */
  lemma MatchLength(recordPath: string, path: string)
    requires Matches(recordPath, path)
    ensures |path| == |TrimSlash(recordPath)| || |path| == |TrimSlash(recordPath)| + 1
  {
  }

  /** No path matches two records of the table: the lengths they accept differ, except "/signup" and "/login/". */
  lemma MatchesDisjoint(path: string, i: nat, j: nat)
    requires i < j < |Routes|
    ensures !(Matches(Routes[i].path, path) && Matches(Routes[j].path, path))
  {
    if Matches(Routes[i].path, path) && Matches(Routes[j].path, path) {
      MatchLength(Routes[i].path, path);
      MatchLength(Routes[j].path, path);
    }
  }

  lemma {:induction false} FindFirst(rs: seq<RouteRecord>, path: string, k: nat)
    requires k < |rs| && Matches(rs[k].path, path)
    requires forall i :: 0 <= i < k ==> !Matches(rs[i].path, path)
    ensures Find(rs, path) == Some(rs[k])
  {
    if k > 0 {
      FindFirst(rs[1..], path, k - 1);
    }
  }

  /** A path that a record of the table matches resolves to that record. */
  lemma FindInRoutes(path: string, k: nat)
    requires k < |Routes| && Matches(Routes[k].path, path)
    ensures Find(Routes, path) == Some(Routes[k])
  {
    forall i | 0 <= i < k ensures !Matches(Routes[i].path, path) {
      MatchesDisjoint(path, i, k);
    }
    FindFirst(Routes, path, k);
  }

  /** The route a guard sees: `to.path` and `to.meta.requiresAuth` (absent meta reads as false). */
  datatype Location = Location(path: string, requiresAuth: bool)

  /**
    The location a navigation to `path` resolves to before the guards run.
    `to.path` is the path as requested, with the meta of the record it
    matches; a static redirect is followed to its target path; a path that
    matches no record carries no meta.
   */
  function Resolve(path: string): Location
  {
    match Find(Routes, path)
    case None => Location(path, false)
    case Some(r) =>
      if r.redirect.None? then Location(path, r.requiresAuth)
      else
        var target := r.redirect.value;
        match Find(Routes, target)
        case None => Location(target, false)
        case Some(t) => Location(target, t.requiresAuth)
  }

  /** The argument of the guard's single `next` call: none (proceed) or a path to redirect to. */
  datatype NextCall = Proceed | RedirectTo(path: string)

  /** `router.beforeEach`: authentication is only whether an access token is stored. */
  function BeforeEach(to: Location, accessToken: Option<string>): NextCall
  {
    var isAuthenticated := Stored(accessToken);
    if to.requiresAuth && !isAuthenticated then RedirectTo("/login")
    else if (to.path == "/login" || to.path == "/signup") && isAuthenticated then RedirectTo("/dashboard")
    else Proceed
  }

  /** The guard's three outcomes, each with exactly the condition that leads to it. */
  lemma GuardBranches(to: Location, accessToken: Option<string>)
    ensures BeforeEach(to, accessToken) == RedirectTo("/login")
      <==> to.requiresAuth && !Stored(accessToken)
    ensures BeforeEach(to, accessToken) == RedirectTo("/dashboard")
      <==> (to.path == "/login" || to.path == "/signup") && Stored(accessToken)
    ensures BeforeEach(to, accessToken) == Proceed
      <==> !(to.requiresAuth && !Stored(accessToken))
            && !((to.path == "/login" || to.path == "/signup") && Stored(accessToken))
  {
  }

  /** Only /dashboard requires authentication, and / redirects to it. */
  lemma RouteTable()
    ensures forall i :: 0 <= i < |Routes| ==> (Routes[i].requiresAuth <==> Routes[i].path == "/dashboard")
    ensures forall i :: 0 <= i < |Routes| ==> (Routes[i].redirect.Some? <==> Routes[i].path == "/")
    ensures Find(Routes, "/").Some? && Find(Routes, "/").value.redirect == Some("/dashboard")
  {
  }

  /**
    Whatever the path, the guard sees requiresAuth exactly for the paths the
    dashboard record matches ("/dashboard" in any letter case, with or
    without a trailing "/") and for "/", which is redirected to "/dashboard".
   */
  lemma ResolveRequiresAuth(path: string)
    ensures Resolve(path).requiresAuth <==> Matches("/dashboard", path) || Matches("/", path)
    ensures Matches("/", path) ==> Resolve(path) == Location("/dashboard", true)
  {
    assert Routes[3].path == "/dashboard" && Matches("/dashboard", "/dashboard");
    FindInRoutes("/dashboard", 3);
    if Matches("/", path) {
      FindInRoutes(path, 0);
    } else if Matches("/dashboard", path) {
      FindInRoutes(path, 3);
    } else if Matches("/signup", path) {
      FindInRoutes(path, 1);
    } else if Matches("/login", path) {
      FindInRoutes(path, 2);
    } else {
      assert Find(Routes, path).None?;
    }
  }

  /** Without a token, "/dashboard/" and "/Dashboard" are sent to /login like "/dashboard". */
  lemma DashboardVariantsGuarded()
    ensures BeforeEach(Resolve("/dashboard/"), None) == RedirectTo("/login")
    ensures BeforeEach(Resolve("/Dashboard"), None) == RedirectTo("/login")
  {
    assert Matches("/dashboard", "/dashboard/");
    assert Matches("/dashboard", "/Dashboard");
    ResolveRequiresAuth("/dashboard/");
    ResolveRequiresAuth("/Dashboard");
  }

  /**
    The guard compares `to.path` exactly, so with a token "/Login" and
    "/login/" reach the login view instead of being sent to /dashboard.
   */
  lemma LoginVariantsNotRedirected(token: string)
    requires token != ""
    ensures BeforeEach(Resolve("/Login"), Some(token)) == Proceed
    ensures BeforeEach(Resolve("/login/"), Some(token)) == Proceed
  {
    ResolveRequiresAuth("/Login");
    ResolveRequiresAuth("/login/");
  }

  /** The two redirect targets resolve to themselves. */
  lemma ResolveTargets()
    ensures Resolve("/login") == Location("/login", false)
    ensures Resolve("/dashboard") == Location("/dashboard", true)
  {
    assert Routes[2].path == "/login" && Matches("/login", "/login");
    assert Routes[3].path == "/dashboard" && Matches("/dashboard", "/dashboard");
    FindInRoutes("/login", 2);
    FindInRoutes("/dashboard", 3);
  }

  /**
    No redirect loops: a redirect the guard issues for any location leads,
    under the same token state, to a location the guard accepts.
   */
  lemma NoRedirectLoopFrom(to: Location, accessToken: Option<string>)
    ensures BeforeEach(to, accessToken).RedirectTo? ==>
      BeforeEach(Resolve(BeforeEach(to, accessToken).path), accessToken) == Proceed
  {
    ResolveTargets();
  }

  /** The same for every navigation, starting from the path requested. */
  lemma NoRedirectLoop(path: string, accessToken: Option<string>)
    ensures BeforeEach(Resolve(path), accessToken).RedirectTo? ==>
      BeforeEach(Resolve(BeforeEach(Resolve(path), accessToken).path), accessToken) == Proceed
  {
    NoRedirectLoopFrom(Resolve(path), accessToken);
  }

  /** Only the presence of a token matters, never its value. */
  lemma TokenPresenceOnly(to: Location, t1: Option<string>, t2: Option<string>)
    requires Stored(t1) == Stored(t2)
    ensures BeforeEach(to, t1) == BeforeEach(to, t2)
  {
  }
}
