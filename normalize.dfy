/** Path normalisation and route-table normalisation (src/router.ts). */
module Normalize {
  import opened RouteTypes

  /** True when `p` begins with the path separator. */
  predicate StartsWithSlash(p: string)
  {
    |p| > 0 && p[0] == '/'
  }

  /** Strips one leading '/' if there is one; otherwise the path is
      returned as given. The empty string has no first character, so it
      is returned unchanged. */
  function NormalizePath(p: string): (r: string)
    ensures StartsWithSlash(p) ==> "/" + r == p
    ensures !StartsWithSlash(p) ==> r == p
  {
    if StartsWithSlash(p) then p[1..] else p
  }

  /** Normalisation removes at most one character, and only from the
      front: the result is always a suffix of the input. */
  lemma NormalizePathIsSuffix(p: string)
    ensures |NormalizePath(p)| <= |p| <= |NormalizePath(p)| + 1
    ensures p[|p| - |NormalizePath(p)|..] == NormalizePath(p)
  {
  }

  /** Normalising twice gives the same as normalising once exactly when
      the input does not begin with two separators. */
  lemma NormalizePathIdempotentIff(p: string)
    ensures NormalizePath(NormalizePath(p)) == NormalizePath(p)
        <==> !(|p| >= 2 && p[0] == '/' && p[1] == '/')
  {
    if |p| >= 2 && p[0] == '/' && p[1] == '/' {
      assert NormalizePath(p) == p[1..];
      assert |NormalizePath(NormalizePath(p))| == |p| - 2;
    }
  }

  /** The concrete input on which normalisation is not idempotent. */
  lemma NormalizePathNotIdempotent()
    ensures NormalizePath("//a") == "/a"
    ensures NormalizePath(NormalizePath("//a")) == "a"
  {
    assert "//a"[1..] == "/a";
    assert "/a"[1..] == "a";
  }

  /** Normalises one route: its path, and recursively its children when
      the children list is present (an absent list stays absent). Every
      other field is copied unchanged. */
  function NormalizeRoute(r: Route): (n: Route)
    decreases r, 0
  {
    Route(
      NormalizePath(r.path),
      match r.children
        case Absent => Absent
        case Present(cs) => Present(NormalizeRoutes(cs)),
      r.redirectTo,
      r.template)
  }

  /** Normalises a route table entry by entry, in declaration order. */
  function NormalizeRoutes(rs: seq<Route>): (ns: seq<Route>)
    decreases rs, 1
    ensures |ns| == |rs|
    ensures forall i :: 0 <= i < |rs| ==> ns[i] == NormalizeRoute(rs[i])
  {
    if rs == [] then []
    else
      assert rs[0] in rs;
      [NormalizeRoute(rs[0])] + NormalizeRoutes(rs[1..])
  }

  /** Builds the normalised copy of a table by appending one processed
      entry at a time, recursing into each present children list. */
  method NormalizeRoutePaths(routes: seq<Route>) returns (processed: seq<Route>)
    decreases routes
    ensures processed == NormalizeRoutes(routes)
  {
    processed := [];
    for i := 0 to |routes|
      invariant |processed| == i
      invariant forall k :: 0 <= k < i ==> processed[k] == NormalizeRoute(routes[k])
    {
      var route := routes[i];
      var children := Absent;
      if route.children.Present? {
        assert route in routes;
        var normalizedChildren := NormalizeRoutePaths(route.children.routes);
        children := Present(normalizedChildren);
      }
      processed := processed + [Route(NormalizePath(route.path), children, route.redirectTo, route.template)];
    }
  }

  /** The tree with every path blanked out: what a table is, apart from
      its paths. */
  function ErasePath(r: Route): (e: Route)
    decreases r, 0
  {
    Route(
      "",
      match r.children
        case Absent => Absent
        case Present(cs) => Present(ErasePaths(cs)),
      r.redirectTo,
      r.template)
  }

  function ErasePaths(rs: seq<Route>): (es: seq<Route>)
    decreases rs, 1
    ensures |es| == |rs|
    ensures forall i :: 0 <= i < |rs| ==> es[i] == ErasePath(rs[i])
  {
    if rs == [] then []
    else
      assert rs[0] in rs;
      [ErasePath(rs[0])] + ErasePaths(rs[1..])
  }

  /** Normalisation changes nothing but paths, at every depth: order,
      lengths of every children list, absent lists, redirects and views
      are all kept. */
  lemma {:induction false} NormalizeRoutesChangesOnlyPaths(rs: seq<Route>)
    ensures ErasePaths(NormalizeRoutes(rs)) == ErasePaths(rs)
    decreases rs
  {
    var ns := NormalizeRoutes(rs);
    forall i | 0 <= i < |rs|
      ensures ErasePath(ns[i]) == ErasePath(rs[i])
    {
      assert rs[i] in rs;
      if rs[i].children.Present? {
        NormalizeRoutesChangesOnlyPaths(rs[i].children.routes);
      }
    }
  }

  /** No path anywhere in the tree begins with two separators. */
  ghost predicate NoDoubleSlash(rs: seq<Route>)
    decreases rs
  {
    forall i :: 0 <= i < |rs| ==>
      !(|rs[i].path| >= 2 && rs[i].path[0] == '/' && rs[i].path[1] == '/') &&
      (rs[i].children.Present? ==> NoDoubleSlash(rs[i].children.routes))
  }

  /** No path anywhere in the tree begins with a separator. */
  ghost predicate NoLeadingSlash(rs: seq<Route>)
    decreases rs
  {
    forall i :: 0 <= i < |rs| ==>
      !StartsWithSlash(rs[i].path) &&
      (rs[i].children.Present? ==> NoLeadingSlash(rs[i].children.routes))
  }

  /** A table whose paths never start with "//" is left with no leading
      separator anywhere once normalised. */
  lemma {:induction false} NormalizeRoutesStripsAll(rs: seq<Route>)
    requires NoDoubleSlash(rs)
    ensures NoLeadingSlash(NormalizeRoutes(rs))
    decreases rs
  {
    var ns := NormalizeRoutes(rs);
    forall i | 0 <= i < |ns|
      ensures !StartsWithSlash(ns[i].path)
      ensures ns[i].children.Present? ==> NoLeadingSlash(ns[i].children.routes)
    {
      assert rs[i] in rs;
      if rs[i].children.Present? {
        NormalizeRoutesStripsAll(rs[i].children.routes);
      }
    }
  }

  /** A table with no leading separator anywhere is a fixed point of
      normalisation; together with NormalizeRoutesStripsAll this makes
      normalisation idempotent on tables without "//" paths. */
  lemma {:induction false} NormalizeRoutesFixesNormalized(rs: seq<Route>)
    requires NoLeadingSlash(rs)
    ensures NormalizeRoutes(rs) == rs
    decreases rs
  {
    var ns := NormalizeRoutes(rs);
    forall i | 0 <= i < |rs|
      ensures ns[i] == rs[i]
    {
      assert rs[i] in rs;
      if rs[i].children.Present? {
        NormalizeRoutesFixesNormalized(rs[i].children.routes);
      }
    }
  }
}
