/** The router base path the single-page app derives from the page's path
    at start-up, and the value it leaves in storage for the request layer. */
module Basename {
  import opened Strings

  /** The app's own client-side routes that can follow the mount point. */
  const RoutePaths: seq<string> := ["/model/"]
  const DetailRoute := "/model/"

  predicate NonEmptyRoutes(routes: seq<string>) {
    forall i :: 0 <= i < |routes| ==> routes[i] != ""
  }

  /** The path cut before the first occurrence of the first listed route it
      contains; the path itself when it contains none. */
  function CutAtFirstRoute(path: string, routes: seq<string>): (r: string)
    requires NonEmptyRoutes(routes)
    ensures |r| <= |path| && path[..|r|] == r
    ensures (forall i :: 0 <= i < |routes| ==> !Contains(path, routes[i])) ==> r == path
    decreases |routes|
  {
    if routes == [] then path
    else if Contains(path, routes[0]) then SplitHead(path, routes[0])
    else CutAtFirstRoute(path, routes[1..])
  }

  /** Drops one trailing `/`, except from the root path `/` itself. */
  function StripTrailingSlash(p: string): string {
    if EndsWith(p, "/") && p != "/" then p[..|p| - 1] else p
  }

  /** The cleaned path `getBasename` computes and writes to storage. */
  function CleanPath(pathname: string): string {
    StripTrailingSlash(CutAtFirstRoute(pathname, RoutePaths))
  }

  /** The basename handed to the router: the root path becomes `''`. */
  function RouterBasename(cleanPath: string): string {
    if cleanPath == "/" then "" else cleanPath
  }

  /** `getBasename`: walks the route list, cuts at the first route the path
      contains and stops, drops one trailing slash, stores the cleaned path
      (returned as `stored`) and returns the router basename. */
  method GetBasename(pathname: string) returns (basename: string, stored: string)
    ensures stored == CleanPath(pathname)
    ensures basename == RouterBasename(stored)
  {
    var routePaths := RoutePaths;
    var cleanPath := pathname;
    var i := 0;
    while i < |routePaths|
      invariant 0 <= i <= |routePaths|
      invariant cleanPath == pathname
      invariant CutAtFirstRoute(pathname, routePaths[i..]) == CutAtFirstRoute(pathname, routePaths)
    {
      var routePath := routePaths[i];
      CutStep(pathname, routePaths, i);
      if Contains(cleanPath, routePath) {
        cleanPath := SplitHead(cleanPath, routePath);
        break;
      }
      i := i + 1;
    }
    if EndsWith(cleanPath, "/") && cleanPath != "/" {
      cleanPath := cleanPath[..|cleanPath| - 1];
    }
    stored := cleanPath;
    basename := if cleanPath == "/" then "" else cleanPath;
  }

  /** One step of the route walk: the first route of `routes[i..]` either
      cuts the path or is skipped. */
  lemma CutStep(path: string, routes: seq<string>, i: nat)
    requires NonEmptyRoutes(routes) && i < |routes|
    ensures Contains(path, routes[i]) ==>
      CutAtFirstRoute(path, routes[i..]) == SplitHead(path, routes[i])
    ensures !Contains(path, routes[i]) ==>
      CutAtFirstRoute(path, routes[i..]) == CutAtFirstRoute(path, routes[i + 1..])
  {
    assert routes[i..][0] == routes[i];
    assert routes[i..][1..] == routes[i + 1..];
  }

  /** A path containing `/model/` is cut just before its first occurrence,
      and what is left contains no `/model/`; any other path is kept whole. */
  lemma CutBeforeFirstRoute(pathname: string)
    ensures var c := CutAtFirstRoute(pathname, RoutePaths);
      && (Contains(pathname, DetailRoute) ==>
            && c == pathname[..|c|]
            && OccursAt(pathname, DetailRoute, |c|)
            && (forall j :: 0 <= j < |c| ==> !OccursAt(pathname, DetailRoute, j)))
      && (!Contains(pathname, DetailRoute) ==> c == pathname)
      && !Contains(c, DetailRoute)
  {
    assert RoutePaths[1..] == [];
  }

  /** At most one trailing slash is removed, and never from `/`. */
  lemma AtMostOneSlashRemoved(pathname: string)
    ensures var c := CutAtFirstRoute(pathname, RoutePaths);
      var p := CleanPath(pathname);
      && |c| - 1 <= |p| <= |c| && c[..|p|] == p
      && (p != c <==> EndsWith(c, "/") && c != "/")
      && (c == "/" ==> p == "/")
  {
  }

  /** Both the stored path and the router basename are prefixes of the page
      path, and neither contains the detail route. */
  lemma BasenameIsPrefix(pathname: string)
    ensures var p := CleanPath(pathname);
      |p| <= |pathname| && pathname[..|p|] == p && !Contains(p, DetailRoute)
    ensures var b := RouterBasename(CleanPath(pathname));
      |b| <= |pathname| && pathname[..|b|] == b && !Contains(b, DetailRoute)
  {
    var c := CutAtFirstRoute(pathname, RoutePaths);
    var p := CleanPath(pathname);
    CutBeforeFirstRoute(pathname);
    assert c[..|p|] == p;
    PrefixKeepsAbsence(c, p, DetailRoute);
    assert "" == pathname[..0];
    ContainsNothingInEmpty(DetailRoute);
  }

  /** The empty string contains no non-empty pattern. */
  lemma ContainsNothingInEmpty(pat: string)
    requires pat != ""
    ensures !Contains("", pat)
  {
  }

  /** The stored value differs from the router basename only at the root:
      storage then holds `/` while the router gets `''`. */
  lemma StoredDiffersOnlyAtRoot(pathname: string)
    ensures RouterBasename(CleanPath(pathname)) != CleanPath(pathname) <==> CleanPath(pathname) == "/"
    ensures RouterBasename(CleanPath(pathname)) == "" <==> CleanPath(pathname) in {"", "/"}
  {
  }

  /** On the home route of an app mounted at `m` (no trailing slash), the
      basename recovered is `m`. */
  lemma MountRecoveredAtHome(m: string)
    requires !EndsWith(m, "/") && !Contains(m + "/", DetailRoute)
    ensures RouterBasename(CleanPath(m + "/")) == m
  {
    assert RoutePaths[1..] == [];
    assert (m + "/")[..|m + "/"| - 1] == m;
  }

  /** On a detail route `m/model/<name>` the basename recovered is the mount
      point `m`, as long as no earlier `/model/` straddles the mount point. */
  lemma MountRecoveredOnDetail(m: string, name: string)
    requires !EndsWith(m, "/")
    requires forall j :: 0 <= j < |m| ==> !OccursAt(m + DetailRoute + name, DetailRoute, j)
    ensures RouterBasename(CleanPath(m + DetailRoute + name)) == m
  {
    var p := m + DetailRoute + name;
    assert p[|m|..|m| + |DetailRoute|] == DetailRoute;
    assert OccursAt(p, DetailRoute, |m|);
    assert Contains(p, DetailRoute);
    var c := CutAtFirstRoute(p, RoutePaths);
    CutBeforeFirstRoute(p);
    assert |c| == |m|;
    assert c == p[..|m|] == m;
  }

  /** What storage should hold for the request layer: the same basename the
      router uses, so the root mount is stored as `''`. */
  function StoredBasename(pathname: string): (r: string)
    ensures r == RouterBasename(CleanPath(pathname))
    ensures r != "/"
    ensures |r| <= |pathname| && pathname[..|r|] == r
  {
    BasenameIsPrefix(pathname);
    RouterBasename(CleanPath(pathname))
  }
}
