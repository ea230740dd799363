# destiny-router: route resolution, modelled in Dafny

destiny-router is a client-side router for the `destiny` UI library. Its
`RouterComponent` holds an ordered tree of declared routes and an error
template. Whenever the current path changes, it decides what to show. The
decision has four parts, all in `src/router.ts`, and this project models
each of them:

- **Path normalisation** (`normalizePath`): one leading `/` is stripped.
- **Route-table normalisation** (`normalizeRoutePaths`): the `routes` setter
  installs a copy of the declared tree with every path normalised, at every
  depth.
- **Route matching** (`#matchRoute`): a greedy, first-match-wins prefix
  search in declaration order. The prefix test is character-based, not
  segment-based. A route whose path is `""` is taken only for the empty
  path. Once an entry is taken, its outcome is final, even when its
  children then fail to match.
- **Redirect resolution** (the computed `#template` and `#getRouteTemplate`):
  at most ten match attempts, each against the top-level table. `redirectTo`
  is checked before the template. The result is the error template, the
  matched route's template, a "no registered component" error naming the
  route's path, or a "too many redirects" error naming the original path.

Files:

- `types.dfy` (module `RouteTypes`): the `Route` shape of `src/types.ts`.
  It has an optional children list (`ChildList`), an optional `redirectTo`
  and an optional renderable `template`. The renderable is an opaque `View`.
  Absent and empty-string redirects are both "no redirect" (`RedirectTarget`).
- `normalize.dfy` (module `Normalize`): `NormalizePath`, the specification
  `NormalizeRoutes`, the imperative `NormalizeRoutePaths` that builds the
  copy with a loop, and lemmas about them.
- `matching.dfy` (module `Matching`): `MatchRoute`/`Scan`, written as
  recursive functions, and a characterisation of their result.
- `redirects.dfy` (module `Redirects`): the resolution loop as the
  specification function `ResolveFrom`. `WorkingPath` is an independent
  description of the redirect chain, and lemmas tie the loop's outcome to it.
- `router.dfy` (module `RouterComponent`): the `Router` class. It has the
  two setters and the `Resolve` method, whose `while` loop follows the
  source's `for` loop and is proved equal to the specification.
- `scenarios.dfy` (module `Scenarios`): concrete route tables that show the
  rules. Covered: `"user"` before `"users"`, the exact-only root entry, a
  nested match after normalisation, no backtracking, nine redirects
  succeeding and ten failing, a redirect cycle, redirect precedence, and
  the default `404` error view.

Behaviour of the code worth knowing:

- Normalisation is not idempotent: `"//a"` becomes `"/a"`, then `"a"`.
  `NormalizePathIdempotentIff` states exactly when it is idempotent.
- A route with a present but empty `children` list is a leaf for matching.
- The built-in error template is the literal markup `404`.
- The code reads the renderable as `route.template`, although
  `src/types.ts` declares it as `component`. The model has one optional
  `template` field.

## Model

| member | source | states |
|---|---|---|
| `Normalize.NormalizePath` | src/router.ts:117-122 | a path starting with `/` is `/` followed by the result; any other path (including `""`) is returned unchanged |
| `Normalize.NormalizePathIsSuffix` | src/router.ts:117-122 | the result is a suffix of the input, at most one character shorter |
| `Normalize.NormalizePathIdempotentIff` | src/router.ts:117-122 | normalising twice equals normalising once if and only if the path does not start with `//` |
| `Normalize.NormalizePathNotIdempotent` | src/router.ts:117-122 | `"//a"` normalises to `"/a"` and then to `"a"` |
| `Normalize.NormalizeRoutes` | src/router.ts:101-115 | the normalised table has the same length and order; entry `i` is the normalisation of declared entry `i` |
| `Normalize.NormalizeRoutePaths` | src/router.ts:101-115 | the loop that pushes one processed entry per declared entry, recursing into present children lists, builds exactly `NormalizeRoutes` of its input |
| `Normalize.NormalizeRoutesChangesOnlyPaths` | src/router.ts:104-109 | at every depth, normalisation changes only paths: order, children-list presence and lengths, redirects and templates are kept |
| `Normalize.NormalizeRoutesStripsAll` | src/router.ts:101-122 | if no declared path starts with `//`, no path anywhere in the normalised tree starts with `/` |
| `Normalize.NormalizeRoutesFixesNormalized` | src/router.ts:101-122 | a tree with no leading `/` anywhere is unchanged by normalisation, so table normalisation is idempotent on trees without `//` paths |
| `Matching.MatchRoute` | src/router.ts:66-85 | a match result is always a leaf (children absent or empty) and is an entry of the tree at some depth |
| `Matching.Scan` | src/router.ts:68-84 | scanning from entry `i` yields only leaves, found at or below an entry at index `i` or later |
| `Matching.MatchFirstWins` | src/router.ts:67-82 | if entry `k` is the first entry taken for the normalised path, the match is decided by it: the entry itself if it is a leaf, otherwise its children's match on the rest of the path; later siblings are never tried |
| `Matching.MatchMissesWhenNothingApplies` | src/router.ts:68-84 | if no entry at this level is taken, there is no match |
| `Matching.MatchNoneIff` | src/router.ts:66-85 | there is no match if and only if no entry is taken, or the first entry taken has children and they do not match the rest of the path |
| `Matching.RootEntryOnlyExact` | src/router.ts:70-73 | an entry with path `""` is taken if and only if the normalised path is `""` |
| `Matching.MatchIgnoresLeadingSlash` | src/router.ts:67 | for a path not starting with `/`, putting one `/` in front does not change the match |
| `Redirects.RouteTemplate` | src/router.ts:87-96 | a route with a registered template renders that template; a route without one gives the missing-component error naming the route's path |
| `RouteTypes.RedirectTarget` | src/router.ts:48 | a route redirects if and only if its `redirectTo` is present and not the empty string, and then to exactly that path |
| `Redirects.AttemptAt` | src/router.ts:44-52 | one attempt is a miss exactly when nothing matches; it follows a redirect exactly when the matched route has a non-empty `redirectTo`, even if it also has a template; otherwise it lands on the matched route, which has no redirect |
| `Redirects.Resolve` | src/router.ts:38-56 | resolution from the first attempt: a rendered route is a leaf with no redirect shown with its own template, an error page shows the configured error view, and the too-many-redirects failure names the path resolution started from |
| `Redirects.ResolveFrom` | src/router.ts:43-55 | a rendered route is a leaf with no redirect, rendered with its own template; an error page shows the configured error view; a too-many-redirects failure names the original path |
| `Redirects.ResolveAdvances` | src/router.ts:43-53 | after `n` followed redirects, resolution continues from the `n`-th working path with `n` attempts used |
| `Redirects.ResolveStopsAt` | src/router.ts:43-52 | resolution ends at the first attempt that does not redirect: a miss gives the error view, a matched route gives its template or the missing-component error |
| `Redirects.TooManyRedirectsIff` | src/router.ts:43-55 | resolution fails with too many redirects if and only if all ten attempts redirect, and that failure names the original path |
| `Redirects.RedirectCycleFails` | src/router.ts:43-55 | starting anywhere in a set of paths that all redirect back into the set (such as `a -> b -> a`), resolution ends in the too-many-redirects failure |
| `RouterComponent.Router.constructor` | src/router.ts:36-37 | a new router has an empty table and the built-in `404` error view |
| `RouterComponent.Router.SetRoutes` | src/router.ts:58-60 | the active table becomes the normalisation of the declared routes; the error view is unchanged |
| `RouterComponent.Router.TableIsNormalized` | src/router.ts:58-60 | while the table is the normalisation of the declared routes and no declared path starts with `//`, no path anywhere in the active table starts with `/` |
| `RouterComponent.Router.SetErrorTemplate` | src/router.ts:62-64 | the error view is replaced; the table is unchanged |
| `RouterComponent.Router.Resolve` | src/router.ts:38-56 | the loop's result equals the redirect-resolution specification for the current table, error view and path |
| `Scenarios.UserBeforeUsers` | src/router.ts:68-81 | with routes `user`, `users` in that order, `users/5` matches `user` |
| `Scenarios.UserChildrenSeeRemainder` | src/router.ts:73-78 | a `user` entry with children hands them the remainder `s/5` |
| `Scenarios.RootMatchesOnlyEmpty` | src/router.ts:67-72 | the `""` route matches `""` and `/`, but not `x` |
| `Scenarios.NestedMatchAfterNormalisation` | src/router.ts:67-78 | declared `/a` with child `/b` matches `/a/b` at the `b` leaf |
| `Scenarios.NoBacktracking` | src/router.ts:73-78 | `a` (with a non-matching child) is taken for `ab`, and the later sibling `ab` is never tried |
| `Scenarios.EmptyChildrenIsLeaf` | src/router.ts:74-80 | an entry with an empty children list is returned as the match |
| `Scenarios.ChainStep` | src/router.ts:44-49 | in the ten-redirect chain table, each letter before `k` redirects to the next |
| `Scenarios.NineRedirectsResolve` | src/router.ts:43-53 | a chain of nine redirects renders the final leaf |
| `Scenarios.TenRedirectsFail` | src/router.ts:43-55 | a chain of ten redirects fails with too many redirects |
| `Scenarios.CycleFails` | src/router.ts:43-55 | the cycle `a -> b -> a` fails with too many redirects naming `a` |
| `Scenarios.RedirectPrecedenceAndEmptyRedirect` | src/router.ts:46-51 | a redirect is followed even when the route also has a template; an empty-string redirect is no redirect, so a route with neither gives the missing-component error |
| `Scenarios.ErrorViewScenario` | src/router.ts:36-64 | an unmatched path shows the built-in `404` view, then the replaced error view |

## Left out

- `getRoutePath` and the module-level `currentPath` (src/router.ts:25-29)
  depend on the browser's `URL` constructor and `window.location`. The
  current path is a parameter of `Router.Resolve`.
- The `popstate` listener (src/router.ts:31-33) is browser event plumbing.
  It stores the full `href`, not its pathname, so after a back or forward
  step the router matches against a URL such as `https://host/a`.
- The `destiny` reactive cells and the computed template
  (src/router.ts:15-22, 36-38, 98). They are plain fields here, and
  recomputation is an explicit `Resolve` call.
- Calling `route.template({})` (src/router.ts:90) renders, which is opaque.
  The model returns the chosen route and its `View`. Route parameters are a
  TODO in the source.
- The two thrown errors are the `Resolution` results `MissingComponent` and
  `TooManyRedirects`. They carry the path that each message names, but not
  the message text.
- `normalizeRoutePaths` makes a shallow copy with `...route`. That copy
  shares the template and any other properties with the declared object.
  The value model has no aliasing, and it has no properties beyond the four
  `Route` fields.
- Paths are sequences of Dafny characters. JavaScript compares UTF-16 code
  units; the two agree for prefix tests and slicing on the same string.
- `src/events.ts` has only an event-name constant and a typed alias of
  `CustomEvent`. Navigate events, joining segments, link interception, and
  history push and replace are implemented nowhere in the source, so they
  are not modelled.
- The `ComponentResolver` of `src/types.ts` returns a `Promise`, which is
  asynchronous. The renderable is the opaque `View`.
