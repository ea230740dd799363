/** Route matching: the private `#matchRoute` of the router component
    (src/router.ts). A greedy, first-match-wins, segment-unaware prefix
    search over an ordered route tree, without backtracking. */
module Matching {
  import opened RouteTypes
  import opened Normalize

  /** Whether the entry `r` is taken for the normalised path `p`: an entry
      with the empty path only for the empty path, any other entry when its
      path is a literal prefix of `p` (character by character, so "user" is
      taken for "users/5"). */
  predicate Applies(r: Route, p: string)
  {
    !(r.path == "" && p != r.path) && r.path <= p
  }

  /** `r` is an entry of `routes` or of any table nested below it. */
  ghost predicate Occurs(r: Route, routes: seq<Route>)
    decreases routes
  {
    exists i :: 0 <= i < |routes| &&
      (routes[i] == r ||
       (routes[i].children.Present? && Occurs(r, routes[i].children.routes)))
  }

  /** Matches `path` against `routes`: normalises the path, then scans the
      table from its first entry. A result is always a leaf entry taken
      from the tree. */
  function MatchRoute(path: string, routes: seq<Route>): (m: Option<Route>)
    decreases routes, |routes| + 1
    ensures m.Some? ==> !HasChildren(m.value)
    ensures m.Some? ==> Occurs(m.value, routes)
  {
    Scan(NormalizePath(path), routes, 0)
  }

  /** The loop over the table, from entry `i` on. The first entry that is
      taken decides the outcome: a leaf is returned, an entry with a
      non-empty children list hands the rest of the path (after the
      entry's path) to its children, and no later sibling is tried either
      way. */
  function Scan(p: string, routes: seq<Route>, i: nat): (m: Option<Route>)
    requires i <= |routes|
    decreases routes, |routes| - i
    ensures m.Some? ==> !HasChildren(m.value)
    ensures m.Some? ==>
      (exists j :: i <= j < |routes| &&
         (routes[j] == m.value ||
          (routes[j].children.Present? && Occurs(m.value, routes[j].children.routes))))
  {
    if i == |routes| then None
    else if !Applies(routes[i], p) then Scan(p, routes, i + 1)
    else if HasChildren(routes[i]) then
      assert routes[i] in routes;
      MatchRoute(p[|routes[i].path|..], routes[i].children.routes)
    else Some(routes[i])
  }

  /** What the entry `r`, once taken for `p`, makes of the match. */
  function Descend(r: Route, p: string): Option<Route>
    requires Applies(r, p)
  {
    if HasChildren(r) then MatchRoute(p[|r.path|..], r.children.routes)
    else Some(r)
  }

  /** Entry `k` is the first entry of `routes` taken for `p`. */
  predicate FirstApplicable(routes: seq<Route>, p: string, k: int)
  {
    0 <= k < |routes| && Applies(routes[k], p) &&
    forall j :: 0 <= j < k ==> !Applies(routes[j], p)
  }

  /** Scanning from any position up to an entry skips every entry that is
      not taken. */
  lemma {:induction false} ScanSkips(p: string, routes: seq<Route>, i: nat, k: nat)
    requires i <= k <= |routes|
    requires forall j :: i <= j < k ==> !Applies(routes[j], p)
    ensures Scan(p, routes, i) == Scan(p, routes, k)
    decreases k - i
  {
    if i < k {
      ScanSkips(p, routes, i + 1, k);
    }
  }

  /** First match wins: the outcome is decided by the first entry whose
      path is taken for the normalised path, and it is final even when
      that entry's children yield nothing. */
  lemma MatchFirstWins(path: string, routes: seq<Route>, k: int)
    requires FirstApplicable(routes, NormalizePath(path), k)
    ensures MatchRoute(path, routes) == Descend(routes[k], NormalizePath(path))
  {
    ScanSkips(NormalizePath(path), routes, 0, k);
  }

  /** When no entry at this level is taken, there is no match. */
  lemma MatchMissesWhenNothingApplies(path: string, routes: seq<Route>)
    requires forall j :: 0 <= j < |routes| ==> !Applies(routes[j], NormalizePath(path))
    ensures MatchRoute(path, routes) == None
  {
    ScanSkips(NormalizePath(path), routes, 0, |routes|);
  }

  /** Matching fails exactly when no entry at this level is taken, or the
      first one taken has children and they fail on the rest of the path. */
  lemma MatchNoneIff(path: string, routes: seq<Route>)
    ensures MatchRoute(path, routes).None? <==>
      (forall j :: 0 <= j < |routes| ==> !Applies(routes[j], NormalizePath(path))) ||
      (exists k :: FirstApplicable(routes, NormalizePath(path), k) && HasChildren(routes[k]) &&
         MatchRoute(NormalizePath(path)[|routes[k].path|..], routes[k].children.routes).None?)
  {
    var p := NormalizePath(path);
    if k :| 0 <= k < |routes| && Applies(routes[k], p) {
      FirstTakenExists(routes, p, k);
      var first :| 0 <= first <= k && FirstApplicable(routes, p, first);
      MatchFirstWins(path, routes, first);
      forall k' | FirstApplicable(routes, p, k')
        ensures k' == first
      {
      }
    } else {
      MatchMissesWhenNothingApplies(path, routes);
    }
  }

  /** Some entry at or before `k` is the first one taken. */
  lemma {:induction false} FirstTakenExists(routes: seq<Route>, p: string, k: nat)
    requires k < |routes| && Applies(routes[k], p)
    ensures exists f :: 0 <= f <= k && FirstApplicable(routes, p, f)
    decreases k
  {
    if exists j :: 0 <= j < k && Applies(routes[j], p) {
      var j :| 0 <= j < k && Applies(routes[j], p);
      FirstTakenExists(routes, p, j);
    } else {
      assert FirstApplicable(routes, p, k);
    }
  }

  /** An entry with the empty path is taken for the empty path only, so a
      root entry never prefix-matches a non-empty path. */
  lemma RootEntryOnlyExact(r: Route, p: string)
    requires r.path == ""
    ensures Applies(r, p) <==> p == ""
  {
  }

  /** A single leading separator on the requested path makes no
      difference to the match. */
  lemma MatchIgnoresLeadingSlash(p: string, routes: seq<Route>)
    requires !StartsWithSlash(p)
    ensures MatchRoute("/" + p, routes) == MatchRoute(p, routes)
  {
    assert ("/" + p)[1..] == p;
  }
}
