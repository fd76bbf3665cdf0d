/**
 * The facade's routing table (internal/facade/facade.go): keys, run-time
 * registration with owner protection, slash normalisation and path resolution.
 *
 * The running facade stores routes under the string key "<namespace>/<mount>"
 * (or "<mount>" when flat). Table is the same index under structured keys;
 * RouteKeyInjective and ResolveRefines show that nothing is lost in between.
 */
module Routing {
  import opened Sequences

  const GLOBAL_NAMESPACE: string := "__global__"

  datatype RouteState = Ready | PendingCredentials | Broken

  datatype Route = Route(
    mount: string, namespace: string, port: int, skill: string, owner: string, state: RouteState)

  datatype Key = Key(namespace: string, mount: string)

  type Table = map<Key, Route>

  predicate SlashFree(s: string) {
    '/' !in s
  }

  /** A mount or a first path segment: not empty and without a slash. */
  predicate Segment(s: string) {
    s != "" && SlashFree(s)
  }

  function RouteKey(namespace: string, mount: string): string {
    if namespace == "" then mount else namespace + "/" + mount
  }

  /** Two routes share a string key only when both parts agree. */
  lemma RouteKeyInjective(n1: string, m1: string, n2: string, m2: string)
    requires SlashFree(n1) && SlashFree(m1) && SlashFree(n2) && SlashFree(m2)
    requires RouteKey(n1, m1) == RouteKey(n2, m2)
    ensures n1 == n2 && m1 == m2
  {
    RouteKeyParts(n1, m1);
    RouteKeyParts(n2, m2);
  }

  /** A string key can be taken apart again: at its first slash when it has one. */
  lemma RouteKeyParts(n: string, m: string)
    requires SlashFree(n) && SlashFree(m)
    ensures var k := RouteKey(n, m); var i := IndexOfSlash(k);
            (n == "" <==> i == |k|) && (if i == |k| then m == k else n == k[..i] && m == k[i + 1..])
  {
    var k := RouteKey(n, m);
    if n != "" {
      IndexOfSlashAt(n, m);
    } else {
      assert forall i :: 0 <= i < |k| ==> k[i] in m;
    }
  }

  // ---- registration ----

  /** AddRoute refuses to replace a route installed by a different owner. */
  predicate Refused(table: Table, r: Route) {
    var k := Key(r.namespace, r.mount);
    k in table && table[k].owner != "" && table[k].owner != r.owner
  }

  function WithRoute(table: Table, r: Route): Table {
    if Refused(table, r) then table else table[Key(r.namespace, r.mount) := r]
  }

  // ---- slash normalisation ----

  predicate HasDouble(p: string) {
    exists i :: 0 <= i < |p| - 1 && p[i] == '/' && p[i + 1] == '/'
  }

  /** strings.ReplaceAll(p, "//", "/"): non-overlapping, left to right. */
  function ReplaceDoubles(p: string): (r: string)
    ensures |r| <= |p|
  {
    if |p| < 2 then p
    else if p[0] == '/' && p[1] == '/' then "/" + ReplaceDoubles(p[2..])
    else [p[0]] + ReplaceDoubles(p[1..])
  }

  /** The reference: every run of slashes becomes one slash, in one pass. */
  function CollapseRuns(p: string): string {
    if |p| < 2 then p
    else if p[0] == '/' && p[1] == '/' then CollapseRuns(p[1..])
    else [p[0]] + CollapseRuns(p[1..])
  }

  lemma {:induction false} ReplaceDoublesShrinks(p: string)
    requires HasDouble(p)
    ensures |ReplaceDoubles(p)| < |p|
  {
    if p[0] == '/' && p[1] == '/' {
    } else {
      var i :| 0 <= i < |p| - 1 && p[i] == '/' && p[i + 1] == '/';
      assert p[1..][i - 1] == '/' && p[1..][i] == '/';
      ReplaceDoublesShrinks(p[1..]);
    }
  }

  /** A leading slash in front of p collapses with the run p starts with, if any. */
  lemma {:induction false} CollapseCons(c: char, p: string)
    ensures CollapseRuns([c] + p)
         == if p != "" && c == '/' && p[0] == '/' then CollapseRuns(p) else [c] + CollapseRuns(p)
  {}

  lemma {:induction false} CollapseAbsorbs(p: string)
    ensures CollapseRuns(ReplaceDoubles(p)) == CollapseRuns(p)
    decreases |p|
  {
    if |p| >= 2 {
      if p[0] == '/' && p[1] == '/' {
        var t := p[2..];
        CollapseAbsorbs(t);
        assert p[1..] == "/" + t;
        CollapseCons('/', t);
        CollapseCons('/', ReplaceDoubles(t));
        ReplaceKeepsHead(t);
      } else {
        var t := p[1..];
        CollapseAbsorbs(t);
        CollapseCons(p[0], ReplaceDoubles(t));
        ReplaceKeepsHead(t);
      }
    }
  }

  lemma {:induction false} ReplaceKeepsHead(p: string)
    ensures (ReplaceDoubles(p) == "") == (p == "")
    ensures p != "" ==> ReplaceDoubles(p)[0] == p[0]
  {}

  lemma {:induction false} CollapseFixed(p: string)
    requires !HasDouble(p)
    ensures CollapseRuns(p) == p
  {
    if |p| >= 2 {
      assert !HasDouble(p[1..]) by {
        assert forall i :: 0 <= i < |p[1..]| ==> p[1..][i] == p[i + 1];
      }
      CollapseFixed(p[1..]);
      assert p == [p[0]] + p[1..];
    }
  }

  /** The handler's loop: it ends, and its result is the one-pass collapse. */
  method NormalizePath(path: string) returns (p: string)
    ensures p == CollapseRuns(path)
    ensures !HasDouble(p)
  {
    p := path;
    while HasDouble(p)
      invariant CollapseRuns(p) == CollapseRuns(path)
      decreases |p|
    {
      ReplaceDoublesShrinks(p);
      CollapseAbsorbs(p);
      p := ReplaceDoubles(p);
    }
    CollapseFixed(p);
  }

  // ---- resolution ----

  /** First segment and the rest of a path that starts with a slash. */
  function SplitSegment(p: string): (string, string) {
    if |p| < 2 || p[0] != '/' then ("", "")
    else
      var rest := p[1..];
      var i := IndexOfSlash(rest);
      if i == |rest| then (rest, "") else (rest[..i], rest[i + 1..])
  }

  datatype Resolution = NoSegment | UnknownMount | Hit(route: Route, rest: string)

  /** The facade's lookup, on the string-keyed index it really keeps. */
  function ResolveStrings(routes: map<string, Route>, path: string): Resolution {
    var (first, after) := SplitSegment(path);
    if first == "" then NoSegment
    else
      var (mount, rest) := SplitSegment("/" + after);
      if after != "" && mount != "" && RouteKey(first, mount) in routes then
        Hit(routes[RouteKey(first, mount)], rest)
      else if first in routes then Hit(routes[first], after)
      else UnknownMount
  }

  /** The same lookup on structured keys. */
  function Resolve(table: Table, path: string): Resolution {
    var (first, after) := SplitSegment(path);
    if first == "" then NoSegment
    else
      var (mount, rest) := SplitSegment("/" + after);
      if mount != "" && Key(first, mount) in table then Hit(table[Key(first, mount)], rest)
      else if Key("", first) in table then Hit(table[Key("", first)], after)
      else UnknownMount
  }

  /** routes and table hold the same routes; every key part is a legal segment. */
  ghost predicate SameIndex(routes: map<string, Route>, table: Table) {
    && (forall k <- table :: SlashFree(k.namespace) && Segment(k.mount) && RouteKey(k.namespace, k.mount) in routes
                          && routes[RouteKey(k.namespace, k.mount)] == table[k])
    && (forall s <- routes :: exists k <- table :: RouteKey(k.namespace, k.mount) == s)
  }

  lemma SplitSlashFree(p: string)
    ensures SlashFree(SplitSegment(p).0)
  {}

  lemma SameIndexAt(routes: map<string, Route>, table: Table, namespace: string, mount: string)
    requires SameIndex(routes, table) && SlashFree(namespace) && SlashFree(mount)
    ensures RouteKey(namespace, mount) in routes <==> Key(namespace, mount) in table
    ensures Key(namespace, mount) in table ==>
              routes[RouteKey(namespace, mount)] == table[Key(namespace, mount)]
  {
    if RouteKey(namespace, mount) in routes {
      var k :| k in table && RouteKey(k.namespace, k.mount) == RouteKey(namespace, mount);
      RouteKeyInjective(k.namespace, k.mount, namespace, mount);
    }
  }

  /** Looking a path up in the string-keyed index and in the table is the same thing. */
  lemma ResolveRefines(routes: map<string, Route>, table: Table, path: string)
    requires SameIndex(routes, table)
    ensures ResolveStrings(routes, path) == Resolve(table, path)
  {
    var (first, after) := SplitSegment(path);
    var (mount, rest) := SplitSegment("/" + after);
    SplitSlashFree(path);
    SplitSlashFree("/" + after);
    SameIndexAt(routes, table, first, mount);
    SameIndexAt(routes, table, "", first);
  }

  /** The path a client writes for a route and the remainder it wants. */
  function PathFor(namespace: string, mount: string, rest: string): string {
    "/" + (if namespace == "" then "" else namespace + "/") + mount + "/" + rest
  }

  lemma SplitPrefixed(s: string, rest: string)
    requires Segment(s)
    ensures SplitSegment("/" + s + "/" + rest) == (s, rest)
  {
    var p := "/" + s + "/" + rest;
    assert p[1..] == s + "/" + rest;
    IndexOfSlashAt(s, rest);
    assert (s + "/" + rest)[..|s|] == s;
    assert (s + "/" + rest)[|s| + 1..] == rest;
  }

  /** A flat path is shadowed exactly when its next segment names a route in the namespace called like its mount. */
  predicate Shadowed(table: Table, k: Key, rest: string) {
    var next := SplitSegment("/" + rest).0;
    k.namespace == "" && next != "" && Key(k.mount, next) in table
  }

  /**
   * Printing a route and a remainder as a path and resolving it gives both
   * back, unless a more specific namespaced route takes the path.
   */
  lemma ResolveRoundTrip(table: Table, k: Key, rest: string)
    requires SlashFree(k.namespace) && Segment(k.mount) && k in table
    requires forall q <- table :: table[q].namespace == q.namespace && table[q].mount == q.mount
    ensures Resolve(table, PathFor(k.namespace, k.mount, rest)) == Hit(table[k], rest) <==> !Shadowed(table, k, rest)
  {
    var path := PathFor(k.namespace, k.mount, rest);
    if k.namespace == "" {
      assert path == "/" + k.mount + "/" + rest;
      SplitPrefixed(k.mount, rest);
    } else {
      assert path == "/" + k.namespace + "/" + (k.mount + "/" + rest);
      SplitPrefixed(k.namespace, k.mount + "/" + rest);
      assert "/" + (k.mount + "/" + rest) == "/" + k.mount + "/" + rest;
      SplitPrefixed(k.mount, rest);
    }
  }

  /**
   * Every path, whether or not it goes on after the mount: two segments that name
   * a namespaced route lead there; else the first segment leads to the flat route
   * of that name with all the rest.
   */
  lemma ResolveCases(table: Table, first: string, mount: string, rest: string)
    requires Segment(first) && Segment(mount)
    ensures Resolve(table, "/" + first + "/" + mount) ==
            if Key(first, mount) in table then Hit(table[Key(first, mount)], "") else Flatly(table, first, mount)
    ensures Resolve(table, "/" + first + "/" + mount + "/" + rest) ==
            if Key(first, mount) in table then Hit(table[Key(first, mount)], rest)
            else Flatly(table, first, mount + "/" + rest)
  {
    hide Segment, SlashFree, IndexOfSlash, SplitSegment;
    SplitBare(first);
    SplitBare(mount);
    SplitPrefixed(first, mount);
    SplitPrefixed(first, mount + "/" + rest);
    SplitPrefixed(mount, rest);
    assert "/" + first + "/" + mount + "/" + rest == "/" + first + "/" + (mount + "/" + rest);
    assert "/" + (mount + "/" + rest) == "/" + mount + "/" + rest;
  }

  /** One segment, with nothing or another slash after it, leads to a flat route; without a first segment a path leads nowhere. */
  lemma ResolveOne(table: Table, first: string, rest: string)
    requires Segment(first)
    ensures Resolve(table, "/" + first) == Flatly(table, first, "")
    ensures rest == "" || rest[0] == '/' ==> Resolve(table, "/" + first + "/" + rest) == Flatly(table, first, rest)
    ensures rest == "" || rest[0] != '/' ==> Resolve(table, rest) == NoSegment
    ensures Resolve(table, "/") == NoSegment && Resolve(table, "//" + rest) == NoSegment
  {
    hide Segment, SlashFree, IndexOfSlash, SplitSegment;
    SplitBare(first);
    SplitPrefixed(first, rest);
    NoFirst(rest);
    NothingAfter();
    assert "/" + "" == "/";
  }

  function Flatly(table: Table, first: string, after: string): Resolution {
    if Key("", first) in table then Hit(table[Key("", first)], after) else UnknownMount
  }

  lemma SplitBare(s: string)
    requires Segment(s)
    ensures SplitSegment("/" + s) == (s, "") && s != ""
  {
    assert ("/" + s)[1..] == s;
    IndexOfSlashAt(s, "");
  }

  lemma NoFirst(rest: string)
    ensures rest == "" || rest[0] != '/' ==> SplitSegment(rest).0 == ""
    ensures rest == "" || rest[0] == '/' ==> SplitSegment("/" + rest).0 == ""
    ensures SplitSegment("//" + rest).0 == ""
  {
    assert ("/" + rest)[1..] == rest && ("//" + rest)[1..] == "/" + rest;
  }

  lemma NothingAfter()
    ensures SplitSegment("/") == ("", "")
  {}

  /** A route of another owner is never replaced; any other is, and nothing else changes. */
  lemma OwnerProtected(table: Table, r: Route)
    ensures var k, t := Key(r.namespace, r.mount), WithRoute(table, r);
            && (k in table && table[k].owner != "" && table[k].owner != r.owner ==> t == table)
            && (k !in table || table[k].owner == "" || table[k].owner == r.owner ==> t == table[k := r])
  {}

  // ---- the request handler ----

  const META_PATHS: set<string> := {"/sandbox/denied", "/sandbox/intent", "/sandbox/intent/explain"}

  datatype Answer =
    | Meta(path: string)
    | Status
    | NotFound
    | Stub(stub: Route)
    | Forward(route: Route, rest: string)

  /** What the handler does with a request path once the caller is authenticated. */
  function Dispatch(table: Table, path: string): Answer {
    var p := CollapseRuns(path);
    if p in META_PATHS then Meta(p)
    else if p == "/" || p == "" then Status
    else
      match Resolve(table, p)
      case Hit(route, rest) => if route.state.Ready? then Forward(route, rest) else Stub(route)
      case _ => NotFound
  }

  /**
   * However many slashes the client doubled, a path written for a live route
   * reaches that route with its remainder unless a built-in endpoint or a more
   * specific namespaced route takes the path.
   */
  lemma {:induction false} DispatchReaches(table: Table, k: Key, rest: string, path: string)
    requires SlashFree(k.namespace) && Segment(k.mount) && k in table && table[k].state.Ready?
    requires forall q <- table :: table[q].namespace == q.namespace && table[q].mount == q.mount
    requires CollapseRuns(path) == PathFor(k.namespace, k.mount, rest)
    ensures Dispatch(table, path) == Forward(table[k], rest)
       <==> !Shadowed(table, k, rest) && PathFor(k.namespace, k.mount, rest) !in META_PATHS
  {
    hide PathFor, Resolve, Shadowed, CollapseRuns, Segment;
    ResolveRoundTrip(table, k, rest);
    NotStatus(k, rest);
  }

  lemma NotStatus(k: Key, rest: string)
    requires Segment(k.mount)
    ensures var p := PathFor(k.namespace, k.mount, rest); p != "/" && p != ""
  {}

  /** The built-in endpoints, the status page, and what a route that is not live answers, for any doubled slashes. */
  lemma {:induction false} DispatchCases(table: Table, path: string)
    ensures var p := CollapseRuns(path);
            && (p == "/sandbox/denied" || p == "/sandbox/intent" || p == "/sandbox/intent/explain" ==>
                  Dispatch(table, path) == Meta(p))
            && (p == "/" || p == "" ==> Dispatch(table, path) == Status)
            && (forall to :: Dispatch(table, path) == Meta(to) ==>
                  to == p && (p == "/sandbox/denied" || p == "/sandbox/intent" || p == "/sandbox/intent/explain"))
            && (forall r :: Dispatch(table, path) == Stub(r) ==>
                  r.state != Ready && exists rest :: Resolve(table, p) == Hit(r, rest))
            && (forall r, rest :: Dispatch(table, path) == Forward(r, rest) ==>
                  r.state == Ready && Resolve(table, p) == Hit(r, rest))
            && (forall r, rest | Resolve(table, p) == Hit(r, rest) ::
                  || p in {"/", "", "/sandbox/denied", "/sandbox/intent", "/sandbox/intent/explain"}
                  || Dispatch(table, path) == if r.state == Ready then Forward(r, rest) else Stub(r))
  {}

  // ---- the running facade ----

  /** Every stored route sits under its own key. */
  ghost predicate Keyed(routes: map<string, Route>) {
    forall s <- routes :: SlashFree(routes[s].namespace) && Segment(routes[s].mount)
                       && s == RouteKey(routes[s].namespace, routes[s].mount)
  }

  /** The routing table that the string-keyed map stands for. */
  ghost function IndexOf(routes: map<string, Route>): Table
    requires Keyed(routes)
  {
    map s | s in routes :: Key(routes[s].namespace, routes[s].mount) := routes[s]
  }

  lemma IndexMember(routes: map<string, Route>, k: Key)
    requires Keyed(routes)
    ensures k in IndexOf(routes)
       <==> SlashFree(k.namespace) && SlashFree(k.mount) && RouteKey(k.namespace, k.mount) in routes
    ensures k in IndexOf(routes) ==> IndexOf(routes)[k] == routes[RouteKey(k.namespace, k.mount)]
  {
    var s := RouteKey(k.namespace, k.mount);
    if SlashFree(k.namespace) && SlashFree(k.mount) && s in routes {
      RouteKeyInjective(k.namespace, k.mount, routes[s].namespace, routes[s].mount);
    }
  }

  lemma IndexIsSame(routes: map<string, Route>)
    requires Keyed(routes)
    ensures SameIndex(routes, IndexOf(routes))
  {}

  lemma IndexAdd(routes: map<string, Route>, r: Route)
    requires Keyed(routes) && SlashFree(r.namespace) && Segment(r.mount)
    ensures var after := routes[RouteKey(r.namespace, r.mount) := r];
            Keyed(after) && IndexOf(after) == IndexOf(routes)[Key(r.namespace, r.mount) := r]
  {
    var after := routes[RouteKey(r.namespace, r.mount) := r];
    forall k: Key
      ensures k in IndexOf(after) <==> k in IndexOf(routes)[Key(r.namespace, r.mount) := r]
      ensures k in IndexOf(after) ==> IndexOf(after)[k] == IndexOf(routes)[Key(r.namespace, r.mount) := r][k]
    {
      IndexMember(routes, k);
      IndexMember(after, k);
      if SlashFree(k.namespace) && SlashFree(k.mount) && RouteKey(k.namespace, k.mount) == RouteKey(r.namespace, r.mount) {
        RouteKeyInjective(k.namespace, k.mount, r.namespace, r.mount);
      }
    }
  }

  lemma IndexRemove(routes: map<string, Route>, namespace: string, mount: string)
    requires Keyed(routes) && SlashFree(namespace) && SlashFree(mount)
    ensures var after := routes - {RouteKey(namespace, mount)};
            Keyed(after) && IndexOf(after) == IndexOf(routes) - {Key(namespace, mount)}
  {
    var after := routes - {RouteKey(namespace, mount)};
    forall k: Key
      ensures k in IndexOf(after) <==> k in IndexOf(routes) - {Key(namespace, mount)}
      ensures k in IndexOf(after) ==> IndexOf(after)[k] == IndexOf(routes)[k]
    {
      IndexMember(routes, k);
      IndexMember(after, k);
      if SlashFree(k.namespace) && SlashFree(k.mount) && RouteKey(k.namespace, k.mount) == RouteKey(namespace, mount) {
        RouteKeyInjective(k.namespace, k.mount, namespace, mount);
      }
    }
  }

  class Facade {
    var routes: map<string, Route>

    ghost predicate Valid()
      reads this
    {
      Keyed(routes)
    }

    ghost function Index(): Table
      requires Valid()
      reads this
    {
      IndexOf(routes)
    }

    constructor ()
      ensures Valid() && Index() == map[]
    {
      routes := map[];
    }

    method AddRoute(r: Route)
      requires Valid() && SlashFree(r.namespace) && Segment(r.mount)
      modifies this
      ensures Valid() && Index() == WithRoute(old(Index()), r)
    {
      IndexMember(routes, Key(r.namespace, r.mount));
      IndexAdd(routes, r);
      var key := RouteKey(r.namespace, r.mount);
      if key in routes && routes[key].owner != "" && routes[key].owner != r.owner {
        return;
      }
      routes := routes[key := r];
    }

    method RemoveRoute(namespace: string, mount: string)
      requires Valid() && SlashFree(namespace) && SlashFree(mount)
      modifies this
      ensures Valid() && Index() == old(Index()) - {Key(namespace, mount)}
    {
      IndexRemove(routes, namespace, mount);
      routes := routes - {RouteKey(namespace, mount)};
    }

    method UpstreamPort(namespace: string, mount: string) returns (port: int)
      requires Valid() && SlashFree(namespace) && SlashFree(mount)
      ensures port == if Key(namespace, mount) in Index() then Index()[Key(namespace, mount)].port else 0
    {
      IndexMember(routes, Key(namespace, mount));
      var key := RouteKey(namespace, mount);
      port := if key in routes then routes[key].port else 0;
    }

    method Lookup(path: string) returns (r: Resolution)
      requires Valid()
      ensures r == Resolve(Index(), path)
    {
      IndexIsSame(routes);
      ResolveRefines(routes, Index(), path);
      r := ResolveStrings(routes, path);
    }
  }
}
