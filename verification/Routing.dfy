// The runtime built from a validated configuration, and what it does with a
// request: the user index, the route table, and the decision to forward.
module Routing {
  import opened Text
  import opened ProxyConfig
  import opened Session

  datatype Route = Route(prefix: string, minLevel: Level)

  datatype Runtime = Runtime(keys: seq<Key>, users: map<string, User>, routes: seq<Route>)

  // ------------------------------------------------------------------
  // BuildRuntime
  // ------------------------------------------------------------------

  // The last user with a subject wins.
  function Index(users: seq<User>): map<string, User> {
    if users == [] then map[]
    else Index(users[..|users| - 1])[ToLower(users[|users| - 1].subject) := users[|users| - 1]]
  }

  method BuildIndex(users: seq<User>) returns (index: map<string, User>)
    ensures index == Index(users)
  {
    index := map[];
    for i := 0 to |users|
      invariant index == Index(users[..i])
    {
      assert users[..i + 1][..i] == users[..i];
      index := index[ToLower(users[i].subject) := users[i]];
    }
    assert users[..|users|] == users;
  }

  function Compile(r: RouteConfig): Route { Route(r.pathPrefix, r.minLevel) }

  function Compiled(routes: seq<RouteConfig>): seq<Route> {
    seq(|routes|, i requires 0 <= i < |routes| => Compile(routes[i]))
  }

  predicate LongestFirst(rs: seq<Route>) {
    forall i, j | 0 <= i < j < |rs| :: |rs[i].prefix| >= |rs[j].prefix|
  }

  // The first i positions hold the longest prefixes, in order.
  predicate LongestUpTo(rs: seq<Route>, i: nat) {
    forall p, q | 0 <= p < i && p < q < |rs| :: |rs[p].prefix| >= |rs[q].prefix|
  }

  method Swap(a: array<Route>, i: nat, j: nat)
    requires i < j < a.Length
    modifies a
    ensures a[..] == old(a[..])[i := old(a[j])][j := old(a[i])]
    ensures multiset(a[..]) == multiset(old(a[..]))
  {
    a[i], a[j] := a[j], a[i];
  }

  lemma SwapKeepsFront(rs: seq<Route>, i: nat, j: nat)
    requires i < j < |rs| && LongestUpTo(rs, i)
    ensures LongestUpTo(rs[i := rs[j]][j := rs[i]], i)
  {}

  // Position i keeps the longer of the two prefixes.
  method Exchange(a: array<Route>, i: nat, j: nat)
    requires i < j < a.Length && LongestUpTo(a[..], i)
    requires forall q | i < q < j :: |a[i].prefix| >= |a[q].prefix|
    modifies a
    ensures multiset(a[..]) == multiset(old(a[..])) && LongestUpTo(a[..], i)
    ensures forall q | i < q <= j :: |a[i].prefix| >= |a[q].prefix|
  {
    if |a[j].prefix| > |a[i].prefix| {
      SwapKeepsFront(a[..], i, j);
      Swap(a, i, j);
    }
  }

  // The inner loop: position i receives the longest of the prefixes left.
  method Select(a: array<Route>, i: nat)
    requires i < a.Length && LongestUpTo(a[..], i)
    modifies a
    ensures multiset(a[..]) == multiset(old(a[..]))
    ensures LongestUpTo(a[..], i + 1)
  {
    for j := i + 1 to a.Length
      invariant multiset(a[..]) == multiset(old(a[..]))
      invariant LongestUpTo(a[..], i)
      invariant forall q | i < q < j :: |a[i].prefix| >= |a[q].prefix|
    {
      Exchange(a, i, j);
    }
  }

  // The exchange sort, in place.
  method SortRoutes(a: array<Route>)
    modifies a
    ensures multiset(a[..]) == multiset(old(a[..]))
    ensures LongestFirst(a[..])
  {
    for i := 0 to a.Length
      invariant multiset(a[..]) == multiset(old(a[..]))
      invariant LongestUpTo(a[..], i)
    {
      Select(a, i);
    }
  }

  // A runtime built from these inputs; the order of equally long prefixes is
  // the only thing left open.
  predicate BuiltFrom(rt: Runtime, secrets: seq<string>, users: seq<User>, routes: seq<RouteConfig>) {
    && rt.keys == Keys(secrets)
    && rt.users == Index(users)
    && multiset(rt.routes) == multiset(Compiled(routes))
    && LongestFirst(rt.routes)
  }

  // None is the codec's error; upstream URLs were validated before.
  method BuildRuntime(secrets: seq<string>, users: seq<User>, routes: seq<RouteConfig>) returns (rt: Option<Runtime>)
    ensures rt.Some? <==> UsableSecrets(secrets)
    ensures rt.Some? ==> BuiltFrom(rt.value, secrets, users, routes)
  {
    var keys := NewCodec(secrets);
    if keys == None {
      return None;
    }
    var index := BuildIndex(users);
    var compiled := new Route[|routes|](i requires 0 <= i < |routes| => Compile(routes[i]));
    assert compiled[..] == Compiled(routes);
    SortRoutes(compiled);
    return Some(Runtime(keys.value, index, compiled[..]));
  }

  // ------------------------------------------------------------------
  // The user index agrees with the list.
  // ------------------------------------------------------------------

  function LookupUser(rt: Runtime, subject: string): Option<User> {
    if ToLower(subject) in rt.users then Some(rt.users[ToLower(subject)]) else None
  }

  lemma {:induction false} IndexAgrees(users: seq<User>, key: string, u: User)
    requires DistinctSubjects(users)
    ensures key in Index(users) && Index(users)[key] == u <==> u in users && ToLower(u.subject) == key
  {
    if users != [] {
      var last := |users| - 1;
      var before := users[..last];
      IndexAgrees(before, key, u);
      assert users == before + [users[last]];
      assert forall i | 0 <= i < last :: before[i] == users[i];
    }
  }

  // Of several users with one lowercased subject, the last one is indexed.
  lemma {:induction false} IndexIsLast(users: seq<User>, i: nat)
    requires i < |users|
    requires forall j | i < j < |users| :: ToLower(users[j].subject) != ToLower(users[i].subject)
    ensures ToLower(users[i].subject) in Index(users) && Index(users)[ToLower(users[i].subject)] == users[i]
  {
    if i < |users| - 1 {
      IndexIsLast(users[..|users| - 1], i);
    }
  }

  // For a list validation accepts, looking a subject up in the index finds
  // exactly the user listed under it, whatever the case it is written in.
  lemma LookupFindsTheListedUser(
    rt: Runtime, secrets: seq<string>, users: seq<User>, routes: seq<RouteConfig>, local: bool, lib: Library,
    subject: string, u: User)
    requires BuiltFrom(rt, secrets, users, routes) && UserProblems(users, local, lib) == []
    ensures LookupUser(rt, subject) == Some(u) <==> u in users && ToLower(u.subject) == ToLower(subject)
  {
    UsersAcceptedIff(users, local, lib);
    IndexAgrees(users, ToLower(subject), u);
  }

  // ------------------------------------------------------------------
  // The route table finds the longest match.
  // ------------------------------------------------------------------

  predicate PathMatchesPrefix(path: string, prefix: string) {
    prefix == "/" || path == prefix || prefix + "/" <= path
  }

  // The root matches every path, and any other prefix itself and what lies below.
  lemma PathMatchesIff(path: string, prefix: string)
    ensures PathMatchesPrefix(path, prefix) <==> prefix == "/" || LiesUnder(path, prefix)
  {
    ClaimsIff(path, prefix);
  }

  function MatchRoute(routes: seq<Route>, path: string): Option<Route> {
    if routes == [] then None
    else if PathMatchesPrefix(path, routes[0].prefix) then Some(routes[0])
    else MatchRoute(routes[1..], path)
  }

  // The reference: r matches, and every other match is strictly shorter.
  ghost predicate IsLongestMatch(routes: seq<RouteConfig>, path: string, r: RouteConfig) {
    && r in routes && PathMatchesPrefix(path, r.pathPrefix)
    && forall other | other in routes && PathMatchesPrefix(path, other.pathPrefix) ::
         other == r || |other.pathPrefix| < |r.pathPrefix|
  }

  // The index of the first route that matches, or the length when none does.
  lemma {:induction false} FirstMatch(rs: seq<Route>, path: string) returns (i: nat)
    ensures i <= |rs| && forall k | 0 <= k < i :: !PathMatchesPrefix(path, rs[k].prefix)
    ensures i < |rs| ==> PathMatchesPrefix(path, rs[i].prefix)
    ensures MatchRoute(rs, path) == if i < |rs| then Some(rs[i]) else None
  {
    if rs == [] || PathMatchesPrefix(path, rs[0].prefix) {
      i := 0;
    } else {
      i := FirstMatch(rs[1..], path);
      i := i + 1;
      assert forall k | 1 <= k < i :: rs[k] == rs[1..][k - 1];
    }
  }

  // Two rooted prefixes of one length that match one path are equal.
  lemma MatchesOfOneLength(path: string, p: string, q: string)
    requires Rooted(p) && Rooted(q) && |p| == |q|
    requires PathMatchesPrefix(path, p) && PathMatchesPrefix(path, q)
    ensures p == q
  {
    if p != "/" && q != "/" {
      assert p == path[..|p|] by { if path != p { assert (p + "/")[..|p|] == path[..|p|]; } }
      assert q == path[..|q|] by { if path != q { assert (q + "/")[..|q|] == path[..|q|]; } }
    }
  }

  lemma CompiledMembers(rs: seq<Route>, routes: seq<RouteConfig>)
    requires multiset(rs) == multiset(Compiled(routes))
    ensures forall r | r in rs :: exists c :: c in routes && Compile(c) == r
    ensures forall c | c in routes :: Compile(c) in rs
  {
    forall r | r in rs ensures exists c :: c in routes && Compile(c) == r {
      assert r in multiset(Compiled(routes));
      var i :| 0 <= i < |Compiled(routes)| && Compiled(routes)[i] == r;
      assert routes[i] in routes;
    }
    forall c | c in routes ensures Compile(c) in rs {
      var i :| 0 <= i < |routes| && routes[i] == c;
      assert Compiled(routes)[i] in multiset(rs);
    }
  }

  lemma AcceptedRoutes(routes: seq<RouteConfig>, lib: Library)
    requires RouteProblems(routes, lib) == []
    ensures DistinctPrefixes(routes)
    ensures forall c | c in routes :: Rooted(c.pathPrefix) && ValidLevel(c.minLevel)
  {
    RoutesAcceptedIff(routes, lib);
    forall c | c in routes ensures Rooted(c.pathPrefix) && ValidLevel(c.minLevel) {
      var i :| 0 <= i < |routes| && routes[i] == c;
      assert RouteOk(routes[i], lib);
    }
  }

  lemma FirstMatchIsLongest(rs: seq<Route>, routes: seq<RouteConfig>, path: string, i: nat, c: RouteConfig)
    requires multiset(rs) == multiset(Compiled(routes)) && LongestFirst(rs)
    requires DistinctPrefixes(routes) && forall c | c in routes :: Rooted(c.pathPrefix)
    requires i < |rs| && PathMatchesPrefix(path, rs[i].prefix) && c in routes && Compile(c) == rs[i]
    requires forall k | 0 <= k < i :: !PathMatchesPrefix(path, rs[k].prefix)
    ensures IsLongestMatch(routes, path, c)
  {
    CompiledMembers(rs, routes);
    forall other | other in routes && PathMatchesPrefix(path, other.pathPrefix)
      ensures other == c || |other.pathPrefix| < |c.pathPrefix|
    {
      assert Compile(other) in rs;
      var k :| 0 <= k < |rs| && rs[k] == Compile(other);
      if |other.pathPrefix| >= |c.pathPrefix| {
        MatchesOfOneLength(path, other.pathPrefix, c.pathPrefix);
        SamePrefixSameRoute(routes, other, c);
      }
    }
  }

  // What the route table answers for a path.
  ghost predicate AnswersLongest(answer: Option<Route>, routes: seq<RouteConfig>, path: string) {
    match answer
    case None => forall c | c in routes :: !PathMatchesPrefix(path, c.pathPrefix)
    case Some(r) => exists c :: IsLongestMatch(routes, path, c) && Compile(c) == r
  }

  lemma NoMatchAnswers(rs: seq<Route>, routes: seq<RouteConfig>, path: string)
    requires forall c | c in routes :: Compile(c) in rs
    requires forall k | 0 <= k < |rs| :: !PathMatchesPrefix(path, rs[k].prefix)
    ensures AnswersLongest(None, routes, path)
  {
    forall c | c in routes ensures !PathMatchesPrefix(path, c.pathPrefix) {
      var k :| 0 <= k < |rs| && rs[k] == Compile(c);
    }
  }

  // For any validated configuration, in whatever order its routes are listed,
  // matchRoute returns the unique longest matching prefix, or nothing exactly
  // when no prefix matches.
  lemma MatchRouteIsLongest(rs: seq<Route>, routes: seq<RouteConfig>, lib: Library, path: string)
    requires multiset(rs) == multiset(Compiled(routes)) && LongestFirst(rs)
    requires RouteProblems(routes, lib) == []
    ensures AnswersLongest(MatchRoute(rs, path), routes, path)
  {
    AcceptedRoutes(routes, lib);
    CompiledMembers(rs, routes);
    var i := FirstMatch(rs, path);
    if i == |rs| {
      NoMatchAnswers(rs, routes, path);
    } else {
      assert rs[i] in rs;
      var c :| c in routes && Compile(c) == rs[i];
      FirstMatchIsLongest(rs, routes, path, i, c);
    }
  }

  // So any two arrangements of the routes that are sorted by length answer every
  // path alike.
  lemma RouteOrderDoesNotMatter(rs: seq<Route>, other: seq<Route>, routes: seq<RouteConfig>, lib: Library, path: string)
    requires multiset(rs) == multiset(Compiled(routes)) == multiset(other)
    requires LongestFirst(rs) && LongestFirst(other) && RouteProblems(routes, lib) == []
    ensures MatchRoute(rs, path) == MatchRoute(other, path)
  {
    MatchRouteIsLongest(rs, routes, lib, path);
    MatchRouteIsLongest(other, routes, lib, path);
    if MatchRoute(rs, path).Some? {
      var c :| IsLongestMatch(routes, path, c) && Compile(c) == MatchRoute(rs, path).value;
      if MatchRoute(other, path).Some? {
        var d :| IsLongestMatch(routes, path, d) && Compile(d) == MatchRoute(other, path).value;
        assert c == d;
      }
    }
  }

  lemma SamePrefixSameRoute(routes: seq<RouteConfig>, a: RouteConfig, b: RouteConfig)
    requires DistinctPrefixes(routes) && a in routes && b in routes && a.pathPrefix == b.pathPrefix
    ensures a == b
  {
    var i :| 0 <= i < |routes| && routes[i] == a;
    var j :| 0 <= j < |routes| && routes[j] == b;
  }

  // ------------------------------------------------------------------
  // handleProxied
  // ------------------------------------------------------------------

  datatype Reply =
    | NotServed
    | RedirectToLogin
    | AuthenticationRequired
    | DeniedUnknown(subject: string)
    | DeniedKnown(subject: string, level: string, minLevel: Level)
    // the route, and the identity headers set from the verified session
    | Forwarded(prefix: string, user: string, level: string)

  function HandleProxied(rt: Runtime, path: string, isGet: bool, cookie: Option<Cookie>, now: int): Reply {
    match MatchRoute(rt.routes, path)
    case None => NotServed
    case Some(route) =>
      match ReadCookie(rt.keys, cookie, now)
      case None => if isGet then RedirectToLogin else AuthenticationRequired
      case Some(session) =>
        if Rank(session.level) < Rank(route.minLevel) then
          if session.level == NONE then DeniedUnknown(session.subject)
          else DeniedKnown(session.subject, session.level, route.minLevel)
        else Forwarded(route.prefix, session.subject, session.level)
  }

  // The session a cookie carries is permitted what a route demands.
  ghost predicate Admits(keys: seq<Key>, cookie: Option<Cookie>, now: int, c: RouteConfig, user: string, level: string) {
    && ReadCookie(keys, cookie, now).Some?
    && ReadCookie(keys, cookie, now).value.subject == user
    && ReadCookie(keys, cookie, now).value.level == level
    && Permits(level, c.minLevel)
  }

  lemma HandleMatched(rt: Runtime, path: string, isGet: bool, cookie: Option<Cookie>, now: int, c: RouteConfig,
                      prefix: string, user: string, level: string)
    requires MatchRoute(rt.routes, path) == Some(Compile(c)) && ValidLevel(c.minLevel)
    ensures HandleProxied(rt, path, isGet, cookie, now) == Forwarded(prefix, user, level)
            <==> c.pathPrefix == prefix && Admits(rt.keys, cookie, now, c, user, level)
  {
    RankPermits(level, c.minLevel);
  }

  lemma LongestMatchIsUnique(routes: seq<RouteConfig>, path: string, c: RouteConfig)
    requires IsLongestMatch(routes, path, c)
    ensures forall other :: IsLongestMatch(routes, path, other) ==> other == c
  {}

  lemma AnswerIsThe(answer: Option<Route>, routes: seq<RouteConfig>, path: string) returns (c: Option<RouteConfig>)
    requires AnswersLongest(answer, routes, path)
    ensures c.Some? ==> IsLongestMatch(routes, path, c.value) && answer == Some(Compile(c.value))
    ensures c == None ==> answer == None
    ensures forall other :: IsLongestMatch(routes, path, other) ==> c == Some(other)
  {
    if answer == None {
      c := None;
    } else {
      var r :| IsLongestMatch(routes, path, r) && Compile(r) == answer.value;
      LongestMatchIsUnique(routes, path, r);
      c := Some(r);
    }
  }

  // A request is forwarded if and only if its session is valid and its level is
  // permitted what the longest matching route demands; it is forwarded to that
  // route, under the identity sealed in the session.
  lemma ForwardedIff(
    rt: Runtime, secrets: seq<string>, users: seq<User>, routes: seq<RouteConfig>, lib: Library,
    path: string, isGet: bool, cookie: Option<Cookie>, now: int, prefix: string, user: string, level: string)
    requires BuiltFrom(rt, secrets, users, routes) && RouteProblems(routes, lib) == []
    ensures HandleProxied(rt, path, isGet, cookie, now) == Forwarded(prefix, user, level)
            <==> exists c :: IsLongestMatch(routes, path, c) && c.pathPrefix == prefix
                             && Admits(Keys(secrets), cookie, now, c, user, level)
  {
    assert AnswersLongest(MatchRoute(rt.routes, path), routes, path) by {
      MatchRouteIsLongest(rt.routes, routes, lib, path);
    }
    var c := AnswerIsThe(MatchRoute(rt.routes, path), routes, path);
    if c.Some? {
      AcceptedRoutes(routes, lib);
      HandleMatched(rt, path, isGet, cookie, now, c.value, prefix, user, level);
    }
  }

  // The answer to a request for which c is the longest matching route.
  predicate AnswersAt(reply: Reply, c: RouteConfig, session: Option<Data>, isGet: bool) {
    match session
    case None => reply == if isGet then RedirectToLogin else AuthenticationRequired
    case Some(d) =>
      if Permits(d.level, c.minLevel) then reply == Forwarded(c.pathPrefix, d.subject, d.level)
      else if d.level == "" then reply == DeniedUnknown(d.subject)
      else reply == DeniedKnown(d.subject, d.level, c.minLevel)
  }

  lemma MatchedAnswer(rt: Runtime, path: string, isGet: bool, cookie: Option<Cookie>, now: int, c: RouteConfig)
    requires MatchRoute(rt.routes, path) == Some(Compile(c)) && ValidLevel(c.minLevel)
    ensures AnswersAt(HandleProxied(rt, path, isGet, cookie, now), c, ReadCookie(rt.keys, cookie, now), isGet)
  {
    var session := ReadCookie(rt.keys, cookie, now);
    if session.Some? {
      RankPermits(session.value.level, c.minLevel);
    }
  }

  // Every request for an accepted configuration is answered: as not served when
  // no prefix covers its path, and otherwise as the one longest matching route and
  // the session decide.
  lemma EveryAnswer(
    rt: Runtime, secrets: seq<string>, users: seq<User>, routes: seq<RouteConfig>, lib: Library,
    path: string, isGet: bool, cookie: Option<Cookie>, now: int)
    requires BuiltFrom(rt, secrets, users, routes) && RouteProblems(routes, lib) == []
    ensures var reply := HandleProxied(rt, path, isGet, cookie, now);
            if forall c | c in routes :: c.pathPrefix != "/" && !LiesUnder(path, c.pathPrefix) then reply == NotServed
            else exists c :: IsLongestMatch(routes, path, c)
                             && AnswersAt(reply, c, ReadCookie(Keys(secrets), cookie, now), isGet)
  {
    assert AnswersLongest(MatchRoute(rt.routes, path), routes, path) by {
      MatchRouteIsLongest(rt.routes, routes, lib, path);
    }
    forall c | c in routes
      ensures PathMatchesPrefix(path, c.pathPrefix) <==> c.pathPrefix == "/" || LiesUnder(path, c.pathPrefix)
    {
      PathMatchesIff(path, c.pathPrefix);
    }
    var c := AnswerIsThe(MatchRoute(rt.routes, path), routes, path);
    if c.Some? {
      AcceptedRoutes(routes, lib);
      MatchedAnswer(rt, path, isGet, cookie, now, c.value);
    }
  }

  // An identity with no level, or with one the proxy does not know, is never
  // forwarded anywhere.
  lemma UnknownLevelIsNeverForwarded(
    rt: Runtime, secrets: seq<string>, users: seq<User>, routes: seq<RouteConfig>, lib: Library,
    path: string, isGet: bool, cookie: Option<Cookie>, now: int)
    requires BuiltFrom(rt, secrets, users, routes) && RouteProblems(routes, lib) == []
    requires HandleProxied(rt, path, isGet, cookie, now).Forwarded?
    ensures HandleProxied(rt, path, isGet, cookie, now).level in {VIEW, POWERUSER, DBA}
  {
    MatchRouteIsLongest(rt.routes, routes, lib, path);
    AcceptedRoutes(routes, lib);
    var c :| IsLongestMatch(routes, path, c) && Compile(c) == MatchRoute(rt.routes, path).value;
    assert ValidLevel(c.minLevel);
  }
}
