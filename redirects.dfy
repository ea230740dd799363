/** Redirect resolution: what the router's computed template evaluates to
    for a current path (src/router.ts, the body of `#template` and
    `#getRouteTemplate`). */
module Redirects {
  import opened RouteTypes
  import opened Matching

  /** The number of match attempts made before giving up on redirects. */
  const MaxAttempts: nat := 10

  /** The outcome of resolving a path. `Rendered` is the view of a matched
      route, `ErrorPage` the configured error view after a miss; the last
      two are the errors the router throws, each with what its message
      names. */
  datatype Resolution =
    | Rendered(route: Route, view: View)
    | ErrorPage(view: View)
    | MissingComponent(path: string)
    | TooManyRedirects(originalPath: string)

  /** The view of a matched, non-redirecting route; an error naming the
      route's own (normalised) path when it has none registered. */
  function RouteTemplate(route: Route): (res: Resolution)
    ensures res.Rendered? || res.MissingComponent?
    ensures res.Rendered? <==> route.template.Some?
    ensures res.Rendered? ==> res.route == route && Some(res.view) == route.template
    ensures res.MissingComponent? ==> res.path == route.path
  {
    match route.template
    case Some(view) => Rendered(route, view)
    case None => MissingComponent(route.path)
  }

  /** What one match attempt decides: a miss, a redirect to follow, or a
      route to render. A redirect is checked before the view, so a route
      declaring both is followed. */
  datatype Attempt = Miss | Follow(target: string) | Land(route: Route)

  function AttemptAt(routes: seq<Route>, path: string): (a: Attempt)
    ensures a.Miss? <==> MatchRoute(path, routes).None?
    ensures a.Follow? <==> MatchRoute(path, routes).Some? && RedirectTarget(MatchRoute(path, routes).value).Some?
    ensures a.Follow? ==> a.target == MatchRoute(path, routes).value.redirectTo.value && a.target != ""
    ensures a.Land? ==> Some(a.route) == MatchRoute(path, routes) && RedirectTarget(a.route).None?
  {
    match MatchRoute(path, routes)
    case None => Miss
    case Some(route) =>
      match RedirectTarget(route)
      case Some(target) => Follow(target)
      case None => Land(route)
  }

  /** The loop from attempt `i` on, with `path` the working path and
      `original` the path resolution started from. */
  function ResolveFrom(routes: seq<Route>, errorView: View, original: string, path: string, i: nat): (res: Resolution)
    requires i <= MaxAttempts
    decreases MaxAttempts - i
    ensures res.Rendered? ==>
      !HasChildren(res.route) && RedirectTarget(res.route).None? && res.route.template == Some(res.view)
    ensures res.ErrorPage? ==> res.view == errorView
    ensures res.TooManyRedirects? ==> res.originalPath == original
  {
    if i == MaxAttempts then TooManyRedirects(original)
    else
      match AttemptAt(routes, path)
      case Miss => ErrorPage(errorView)
      case Follow(target) => ResolveFrom(routes, errorView, original, target, i + 1)
      case Land(route) => RouteTemplate(route)
  }

  /** Resolution of `path` against the top-level table `routes`, from the
      first attempt on: a rendered route is a non-redirecting leaf shown
      with its own view, an error page shows the configured error view, and
      the too-many-redirects failure names the path resolution started
      from. */
  function Resolve(routes: seq<Route>, errorView: View, path: string): (res: Resolution)
    ensures res.Rendered? ==>
      !HasChildren(res.route) && RedirectTarget(res.route).None? && res.route.template == Some(res.view)
    ensures res.ErrorPage? ==> res.view == errorView
    ensures res.TooManyRedirects? ==> res.originalPath == path
  {
    ResolveFrom(routes, errorView, path, path, 0)
  }

  /** The working path of attempt `n`, when the `n` attempts before it all
      followed a redirect; None once one of them did not. */
  function WorkingPath(routes: seq<Route>, start: string, n: nat): Option<string>
  {
    if n == 0 then Some(start)
    else
      match WorkingPath(routes, start, n - 1)
      case None => None
      case Some(p) =>
        match AttemptAt(routes, p)
        case Follow(target) => Some(target)
        case _ => None
  }

  /** After `n` redirects, resolution goes on exactly as it would from the
      `n`-th working path with `n` attempts spent. */
  lemma {:induction false} ResolveAdvances(routes: seq<Route>, errorView: View, start: string, n: nat)
    requires n <= MaxAttempts
    requires WorkingPath(routes, start, n).Some?
    ensures Resolve(routes, errorView, start) ==
      ResolveFrom(routes, errorView, start, WorkingPath(routes, start, n).value, n)
  {
    if n > 0 {
      ResolveAdvances(routes, errorView, start, n - 1);
    }
  }

  /** Resolution ends at the first attempt that does not redirect: on a
      miss with the error view, on a matched route with its view or the
      missing-component error. */
  lemma ResolveStopsAt(routes: seq<Route>, errorView: View, start: string, n: nat)
    requires n < MaxAttempts
    requires WorkingPath(routes, start, n).Some?
    requires !AttemptAt(routes, WorkingPath(routes, start, n).value).Follow?
    ensures AttemptAt(routes, WorkingPath(routes, start, n).value).Miss? ==>
      Resolve(routes, errorView, start) == ErrorPage(errorView)
    ensures AttemptAt(routes, WorkingPath(routes, start, n).value).Land? ==>
      Resolve(routes, errorView, start) ==
        RouteTemplate(AttemptAt(routes, WorkingPath(routes, start, n).value).route)
  {
    ResolveAdvances(routes, errorView, start, n);
  }

  /** Resolution fails with too many redirects, naming the original path,
      exactly when all ten attempts land on redirecting routes. */
  lemma {:induction false} TooManyRedirectsIff(routes: seq<Route>, errorView: View, start: string)
    ensures Resolve(routes, errorView, start).TooManyRedirects? <==>
      WorkingPath(routes, start, MaxAttempts).Some?
    ensures Resolve(routes, errorView, start).TooManyRedirects? ==>
      Resolve(routes, errorView, start) == TooManyRedirects(start)
  {
    if WorkingPath(routes, start, MaxAttempts).Some? {
      ResolveAdvances(routes, errorView, start, MaxAttempts);
    } else {
      var n := LastWorkingPath(routes, start, MaxAttempts);
      ResolveStopsAt(routes, errorView, start, n);
    }
  }

  /** When the path of attempt `m` is missing, some attempt before it was
      the last one made, and it did not redirect. */
  lemma {:induction false} LastWorkingPathExists(routes: seq<Route>, start: string, m: nat)
    requires WorkingPath(routes, start, m).None?
    ensures exists n :: 0 <= n < m && WorkingPath(routes, start, n).Some? &&
                        !AttemptAt(routes, WorkingPath(routes, start, n).value).Follow?
    decreases m
  {
    if WorkingPath(routes, start, m - 1).None? {
      LastWorkingPathExists(routes, start, m - 1);
    } else {
      assert !AttemptAt(routes, WorkingPath(routes, start, m - 1).value).Follow?;
    }
  }

  ghost function LastWorkingPath(routes: seq<Route>, start: string, m: nat): (n: nat)
    requires WorkingPath(routes, start, m).None?
    ensures n < m && WorkingPath(routes, start, n).Some? &&
      !AttemptAt(routes, WorkingPath(routes, start, n).value).Follow?
  {
    LastWorkingPathExists(routes, start, m);
    var n :| 0 <= n < m && WorkingPath(routes, start, n).Some? &&
      !AttemptAt(routes, WorkingPath(routes, start, n).value).Follow?;
    n
  }

  /** A set of paths every one of which redirects to another path of the
      set: a redirect cycle, or any redirect graph with no way out. */
  ghost predicate RedirectClosed(routes: seq<Route>, paths: set<string>)
  {
    forall p {:trigger AttemptAt(routes, p)} :: p in paths ==>
      AttemptAt(routes, p).Follow? && AttemptAt(routes, p).target in paths
  }

  /** Every working path of a resolution that starts in a closed set stays
      in it. */
  lemma {:induction false} WorkingPathStaysIn(routes: seq<Route>, paths: set<string>, start: string, n: nat)
    requires RedirectClosed(routes, paths) && start in paths
    ensures WorkingPath(routes, start, n).Some? && WorkingPath(routes, start, n).value in paths
  {
    if n > 0 {
      WorkingPathStaysIn(routes, paths, start, n - 1);
      var prev := WorkingPath(routes, start, n - 1).value;
      var a := AttemptAt(routes, prev);
      assert a.Follow? && a.target in paths;
      assert WorkingPath(routes, start, n) == Some(a.target);
    }
  }

  /** A redirect cycle (such as a -> b -> a) always ends in the
      too-many-redirects failure for the path resolution started from. */
  lemma RedirectCycleFails(routes: seq<Route>, errorView: View, paths: set<string>, start: string)
    requires RedirectClosed(routes, paths) && start in paths
    ensures Resolve(routes, errorView, start) == TooManyRedirects(start)
  {
    WorkingPathStaysIn(routes, paths, start, MaxAttempts);
    TooManyRedirectsIff(routes, errorView, start);
  }
}
