/** Shapes of the route declarations the router consumes (src/types.ts). */
module RouteTypes {

  datatype Option<+T> = None | Some(value: T)

  /** An opaque renderable. The router never looks inside one; it only
      chooses which one is shown. `Text` stands for a literal markup
      template such as the built-in "404" page, `Opaque` for anything an
      application supplies. */
  datatype View = Text(markup: string) | Opaque(id: nat)

  /** The optional `children` list of a route. It has its own type, rather
      than an Option, so that recursion through it is well founded. */
  datatype ChildList = Absent | Present(routes: seq<Route>)

  /** One declared route. `children` and `redirectTo` are optional, as in
      the declaration; `template` is the renderable the router reads when
      the route is chosen (absent when none was registered). */
  datatype Route = Route(
    path: string,
    children: ChildList,
    redirectTo: Option<string>,
    template: Option<View>)

  /** The router only descends into a route whose children list is present
      AND non-empty (a `children?.length` truthiness test). */
  predicate HasChildren(r: Route)
  {
    r.children.Present? && |r.children.routes| > 0
  }

  /** The redirect the router follows, if any: an absent `redirectTo` and
      an empty-string one both mean "no redirect" (a truthiness test). */
  function RedirectTarget(r: Route): (t: Option<string>)
    ensures t.Some? <==> r.redirectTo.Some? && r.redirectTo.value != ""
    ensures t.Some? ==> t.value == r.redirectTo.value
  {
    match r.redirectTo
    case Some(target) => if target != "" then Some(target) else None
    case None => None
  }

  /** A leaf route with nothing but a path and a view. */
  function Leaf(path: string, view: View): (r: Route)
    ensures r.path == path && !HasChildren(r) && RedirectTarget(r).None?
  {
    Route(path, Absent, None, Some(view))
  }
}
