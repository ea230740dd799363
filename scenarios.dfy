/** Concrete route tables showing the router's matching and redirect rules
    on small inputs: order beats specificity, the root entry only matches
    exactly, nested tables see the rest of the path, there is no
    backtracking, and redirect chains are cut off after ten attempts. */
module Scenarios {
  import opened RouteTypes
  import opened Normalize
  import opened Matching
  import opened Redirects
  import opened RouterComponent

  /** Declaration order decides, not specificity, and prefixes are not
      segment-aware: "user" is taken for "users/5". */
  lemma UserBeforeUsers()
    ensures MatchRoute("users/5", [Leaf("user", Opaque(1)), Leaf("users", Opaque(2))])
         == Some(Leaf("user", Opaque(1)))
  {
    var rs := [Leaf("user", Opaque(1)), Leaf("users", Opaque(2))];
    assert Applies(rs[0], "users/5");
  }

  /** A "user" entry with children hands them the remainder "s/5". */
  lemma UserChildrenSeeRemainder()
    ensures MatchRoute("users/5",
              [Route("user", Present([Leaf("s", Opaque(3))]), None, None), Leaf("users", Opaque(2))])
         == Some(Leaf("s", Opaque(3)))
  {
    var rs := [Route("user", Present([Leaf("s", Opaque(3))]), None, None), Leaf("users", Opaque(2))];
    assert Applies(rs[0], "users/5");
    assert "users/5"[|"user"|..] == "s/5";
    assert Applies(Leaf("s", Opaque(3)), "s/5");
  }

  /** The root entry is taken for "" (and for "/", which normalises to "")
      but not for "x". */
  lemma RootMatchesOnlyEmpty()
    ensures MatchRoute("", [Leaf("", Opaque(0))]) == Some(Leaf("", Opaque(0)))
    ensures MatchRoute("/", [Leaf("", Opaque(0))]) == Some(Leaf("", Opaque(0)))
    ensures MatchRoute("x", [Leaf("", Opaque(0))]) == None
  {
    assert "/"[1..] == "";
  }

  /** Declared paths "/a" and "/b" are normalised when the table is set,
      after which "/a/b" reaches the nested "b" entry: the remainder "/b"
      is normalised again before the children are scanned. */
  lemma NestedMatchAfterNormalisation()
    ensures MatchRoute("/a/b", NormalizeRoutes([Route("/a", Present([Leaf("/b", Opaque(5))]), None, None)]))
         == Some(Leaf("b", Opaque(5)))
  {
    assert "/a"[1..] == "a";
    assert "/b"[1..] == "b";
    assert NormalizeRoutes([Leaf("/b", Opaque(5))]) == [Leaf("b", Opaque(5))];
    var table := NormalizeRoutes([Route("/a", Present([Leaf("/b", Opaque(5))]), None, None)]);
    assert table[0] == NormalizeRoute(Route("/a", Present([Leaf("/b", Opaque(5))]), None, None));
    assert table == [Route("a", Present([Leaf("b", Opaque(5))]), None, None)];
    assert "/a/b"[1..] == "a/b";
    assert "a/b"[|"a"|..] == "/b";
  }

  /** No backtracking: "a" is taken for "ab", its children fail on "b",
      and the later sibling "ab" is never tried. */
  lemma NoBacktracking()
    ensures MatchRoute("ab", [Route("a", Present([Leaf("x", Opaque(1))]), None, None), Leaf("ab", Opaque(2))])
         == None
  {
    assert "ab"[|"a"|..] == "b";
  }

  /** An entry with an empty children list is returned as a leaf. */
  lemma EmptyChildrenIsLeaf()
    ensures MatchRoute("abc", [Route("a", Present([]), None, Some(Opaque(1)))])
         == Some(Route("a", Present([]), None, Some(Opaque(1))))
  {
  }

  /** Eleven one-letter paths, none a prefix of another. */
  const Letters: string := "abcdefghijk"

  /** A chain of ten redirects a -> b -> ... -> k ending at a leaf. */
  function ChainTable(): (rs: seq<Route>)
    ensures |rs| == 11
  {
    seq(11, j requires 0 <= j < 11 =>
      if j < 10 then Route([Letters[j]], Absent, Some([Letters[j + 1]]), None)
      else Leaf([Letters[j]], Opaque(11)))
  }

  /** Each letter before "k" redirects to the next one. */
  lemma ChainStep(j: nat)
    requires j < 10
    ensures AttemptAt(ChainTable(), [Letters[j]]) == Follow([Letters[j + 1]])
  {
    var rs := ChainTable();
    var p := [Letters[j]];
    assert NormalizePath(p) == p;
    assert FirstApplicable(rs, p, j);
    MatchFirstWins(p, rs, j);
  }

  /** The working path of attempt `n` from letter `s` is letter `s + n`. */
  lemma {:induction false} ChainWalk(s: nat, n: nat)
    requires s + n <= 10
    ensures WorkingPath(ChainTable(), [Letters[s]], n) == Some([Letters[s + n]])
  {
    if n > 0 {
      ChainWalk(s, n - 1);
      ChainStep(s + n - 1);
    }
  }

  /** The chain ends at "k", which renders. */
  lemma ChainEnd()
    ensures AttemptAt(ChainTable(), "k") == Land(Leaf("k", Opaque(11)))
  {
    var rs := ChainTable();
    var p := [Letters[10]];
    assert p == "k";
    assert NormalizePath(p) == p;
    assert rs[10] == Leaf(p, Opaque(11));
    assert FirstApplicable(rs, p, 10);
    MatchFirstWins(p, rs, 10);
  }

  /** A chain of nine redirects (b -> ... -> k) resolves to the leaf. */
  lemma NineRedirectsResolve()
    ensures Redirects.Resolve(ChainTable(), DefaultErrorTemplate, "b")
         == Rendered(Leaf("k", Opaque(11)), Opaque(11))
  {
    ChainWalk(1, 9);
    assert [Letters[1]] == "b" && [Letters[10]] == "k";
    ChainEnd();
    ResolveStopsAt(ChainTable(), DefaultErrorTemplate, "b", 9);
  }

  /** A chain of ten redirects (a -> ... -> k) uses up all ten attempts. */
  lemma TenRedirectsFail()
    ensures Redirects.Resolve(ChainTable(), DefaultErrorTemplate, "a") == TooManyRedirects("a")
  {
    ChainWalk(0, 10);
    assert [Letters[0]] == "a";
    TooManyRedirectsIff(ChainTable(), DefaultErrorTemplate, "a");
  }

  /** The cycle a -> b -> a always fails with too many redirects. */
  lemma CycleFails(view: View)
    ensures Redirects.Resolve([Route("a", Absent, Some("b"), None), Route("b", Absent, Some("a"), None)], view, "a")
         == TooManyRedirects("a")
  {
    var rs := [Route("a", Absent, Some("b"), None), Route("b", Absent, Some("a"), None)];
    assert AttemptAt(rs, "a") == Follow("b");
    assert AttemptAt(rs, "b") == Follow("a");
    RedirectCycleFails(rs, view, {"a", "b"}, "a");
  }

  /** A redirect is checked before the view; an empty-string redirect is
      no redirect, so a route with neither is a missing component. */
  lemma RedirectPrecedenceAndEmptyRedirect(view: View)
    ensures Redirects.Resolve([Route("a", Absent, Some("b"), Some(Opaque(1))), Leaf("b", Opaque(2))], view, "a")
         == Rendered(Leaf("b", Opaque(2)), Opaque(2))
    ensures Redirects.Resolve([Route("a", Absent, Some(""), None)], view, "/a")
         == MissingComponent("a")
  {
    assert "/a"[1..] == "a";
  }

  /** A fresh router shows the built-in "404" view for a path nothing
      matches, and the configured one once it has been replaced. */
  method ErrorViewScenario() returns (before: Resolution, after: Resolution)
    ensures before == ErrorPage(Text("404"))
    ensures after == ErrorPage(Opaque(7))
  {
    var router := new Router();
    router.SetRoutes([Leaf("/home", Opaque(1))]);
    assert "/home"[1..] == "home";
    assert router.routes == [Leaf("home", Opaque(1))];
    assert "/missing"[1..] == "missing";
    assert "missing"[..4][0] != "home"[0];
    assert !Applies(Leaf("home", Opaque(1)), "missing");
    MatchMissesWhenNothingApplies("/missing", router.routes);
    before := router.Resolve("/missing");
    router.SetErrorTemplate(Opaque(7));
    after := router.Resolve("/missing");
  }
}
