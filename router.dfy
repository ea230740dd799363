/** The router component's state and its resolution loop
    (src/router.ts, class RouterComponent). The reactive cells of the
    original become plain fields; re-rendering becomes an explicit call to
    Resolve with the current path. */
module RouterComponent {
  import opened RouteTypes
  import opened Normalize
  import opened Matching
  import opened Redirects

  /** The error view a router starts with: the literal markup "404". */
  const DefaultErrorTemplate: View := Text("404")

  class Router {
    /** The active route table, always normalised. */
    var routes: seq<Route>
    /** The view shown when no route matches. */
    var errorTemplate: View
    /** The table as the application last declared it. */
    ghost var declared: seq<Route>

    /** The active table is the normalisation of the last declared one. */
    ghost predicate Valid()
      reads this
    {
      routes == NormalizeRoutes(declared)
    }

    /** The active table has no leading separator anywhere, provided no
        declared path starts with "//": every path the matcher compares
        against is in its normalised form. */
    lemma TableIsNormalized()
      requires Valid() && NoDoubleSlash(declared)
      ensures NoLeadingSlash(routes)
    {
      NormalizeRoutesStripsAll(declared);
    }

    /** A fresh router has no routes and the built-in error view. */
    constructor ()
      ensures Valid()
      ensures declared == [] && routes == []
      ensures errorTemplate == DefaultErrorTemplate
    {
      routes := [];
      errorTemplate := DefaultErrorTemplate;
      declared := [];
    }

    /** The `routes` setter: installs a normalised copy of the declared
        table, leaving the error view alone. */
    method SetRoutes(newRoutes: seq<Route>)
      modifies this
      ensures Valid()
      ensures declared == newRoutes
      ensures routes == NormalizeRoutes(newRoutes)
      ensures errorTemplate == old(errorTemplate)
    {
      routes := NormalizeRoutePaths(newRoutes);
      declared := newRoutes;
    }

    /** The `errorTemplate` setter: replaces the error view, leaving the
        table alone. */
    method SetErrorTemplate(view: View)
      modifies this
      ensures errorTemplate == view
      ensures routes == old(routes) && declared == old(declared)
      ensures Valid() <==> old(Valid())
    {
      errorTemplate := view;
    }

    /** The computed template: matches the working path against the
        top-level table at most ten times, following redirects, and yields
        the error view on a miss, the matched route's view, or one of the
        two errors. */
    method Resolve(currentPath: string) returns (res: Resolution)
      ensures res == Redirects.Resolve(routes, errorTemplate, currentPath)
    {
      ghost var outcome := Redirects.Resolve(routes, errorTemplate, currentPath);
      var path := currentPath;
      var i := 0;
      while i < MaxAttempts
        invariant 0 <= i <= MaxAttempts
        invariant ResolveFrom(routes, errorTemplate, currentPath, path, i) == outcome
      {
        var route := MatchRoute(path, routes);
        if route.None? {
          assert AttemptAt(routes, path) == Miss;
          return ErrorPage(errorTemplate);
        } else if route.value.redirectTo.Some? && route.value.redirectTo.value != "" {
          assert AttemptAt(routes, path) == Follow(route.value.redirectTo.value);
          path := route.value.redirectTo.value;
        } else {
          assert AttemptAt(routes, path) == Land(route.value);
          return RouteTemplate(route.value);
        }
        i := i + 1;
      }
      return TooManyRedirects(currentPath);
    }
  }
}
