// The proxy configuration: levels, and the validation of users and routes.
module ProxyConfig {
  import opened Text

  type Level = string

  const VIEW: Level := "view"
  const POWERUSER: Level := "poweruser"
  const DBA: Level := "dba"
  const NONE: Level := ""

  function Rank(l: Level): int {
    if l == VIEW then 1 else if l == POWERUSER then 2 else if l == DBA then 3 else if l == NONE then 0 else -1
  }

  predicate ValidLevel(l: Level) { Rank(l) > 0 }

  // What a level is allowed, by name: a demand for view is met by all three
  // levels, one for poweruser by two, one for dba by dba alone.
  predicate Permits(level: Level, demanded: Level) {
    match demanded
    case "view" => level == "view" || level == "poweruser" || level == "dba"
    case "poweruser" => level == "poweruser" || level == "dba"
    case "dba" => level == "dba"
    case _ => false
  }

  lemma LevelsByName(l: Level)
    ensures ValidLevel(l) <==> l == "view" || l == "poweruser" || l == "dba"
    ensures NONE == ""
  {}

  // Ranks compare as the levels permit.
  lemma RankPermits(level: Level, demanded: Level)
    requires ValidLevel(demanded)
    ensures Rank(level) >= Rank(demanded) <==> Permits(level, demanded)
  {}

  datatype User = User(subject: string, level: Level, localPasswordBcrypt: string)

  datatype RouteConfig = RouteConfig(pathPrefix: string, upstream: string, minLevel: Level)

  // Two library answers: whether a string parses as an absolute http(s) URL,
  // and whether it is a bcrypt hash.
  datatype Library = Library(isURL: string -> bool, isHash: string -> bool)

  datatype Problem =
    | SubjectRequired(index: nat)
    | DuplicateSubject(index: nat)
    | InvalidLevel(index: nat)
    | HashWithoutLocal(index: nat)
    | InvalidHash(index: nat)
    | NoRoutes
    | PrefixNotRooted(index: nat)
    | PrefixWithDots(index: nat)
    | DuplicatePrefix(index: nat)
    | ReservedPrefix(index: nat, reserved: string)
    | UpstreamRequired(index: nat)
    | InvalidUpstream(index: nat)
    | InvalidMinLevel(index: nat)

  // ------------------------------------------------------------------
  // validateUsers
  // ------------------------------------------------------------------

  // Some earlier user has the same lowercased, non-empty subject.
  predicate SubjectTaken(users: seq<User>, i: nat)
    requires i < |users|
  {
    exists j | 0 <= j < i :: users[j].subject != "" && ToLower(users[j].subject) == ToLower(users[i].subject)
  }

  function ProblemsOfUser(u: User, taken: bool, i: nat, local: bool, lib: Library): seq<Problem> {
    (if u.subject == "" then [SubjectRequired(i)] else if taken then [DuplicateSubject(i)] else [])
    + (if ValidLevel(u.level) then [] else [InvalidLevel(i)])
    + (if u.localPasswordBcrypt == "" then []
       else if !local then [HashWithoutLocal(i)]
       else if !lib.isHash(u.localPasswordBcrypt) then [InvalidHash(i)] else [])
  }

  function UserProblemsAt(users: seq<User>, i: nat, local: bool, lib: Library): seq<Problem>
    requires i < |users|
  {
    ProblemsOfUser(users[i], SubjectTaken(users, i), i, local, lib)
  }

  function UserProblems(users: seq<User>, local: bool, lib: Library): seq<Problem> {
    if users == [] then []
    else UserProblems(users[..|users| - 1], local, lib) + UserProblemsAt(users, |users| - 1, local, lib)
  }

  lemma UserProblemsAtOfPrefix(users: seq<User>, n: nat, i: nat, local: bool, lib: Library)
    requires i < n <= |users|
    ensures UserProblemsAt(users[..n], i, local, lib) == UserProblemsAt(users, i, local, lib)
  {
    assert SubjectTaken(users[..n], i) <==> SubjectTaken(users, i);
  }

  method CheckUser(u: User, taken: bool, i: nat, local: bool, lib: Library) returns (errs: seq<Problem>)
    ensures errs == ProblemsOfUser(u, taken, i, local, lib)
  {
    errs := [];
    if u.subject == "" {
      errs := errs + [SubjectRequired(i)];
    } else if taken {
      errs := errs + [DuplicateSubject(i)];
    }
    if !ValidLevel(u.level) {
      errs := errs + [InvalidLevel(i)];
    }
    if u.localPasswordBcrypt != "" {
      if !local {
        errs := errs + [HashWithoutLocal(i)];
      } else if !lib.isHash(u.localPasswordBcrypt) {
        errs := errs + [InvalidHash(i)];
      }
    }
  }

  // The lowercased subjects among the first i users.
  function SeenSubjects(users: seq<User>, i: nat): set<string>
    requires i <= |users|
  {
    set j | 0 <= j < i && users[j].subject != "" :: ToLower(users[j].subject)
  }

  lemma SeenSubject(users: seq<User>, i: nat)
    requires i < |users|
    ensures ToLower(users[i].subject) in SeenSubjects(users, i) <==> SubjectTaken(users, i)
    ensures SeenSubjects(users, i + 1)
            == SeenSubjects(users, i) + if users[i].subject != "" then {ToLower(users[i].subject)} else {}
  {}

  method ValidateUsers(users: seq<User>, local: bool, lib: Library) returns (errs: seq<Problem>)
    ensures errs == UserProblems(users, local, lib)
  {
    errs := [];
    var seen: set<string> := {};
    for i := 0 to |users|
      invariant errs == UserProblems(users[..i], local, lib)
      invariant seen == SeenSubjects(users, i)
    {
      var u := users[i];
      assert users[..i + 1][..i] == users[..i];
      UserProblemsAtOfPrefix(users, i + 1, i, local, lib);
      SeenSubject(users, i);
      var found := CheckUser(u, ToLower(u.subject) in seen, i, local, lib);
      if u.subject != "" {
        seen := seen + {ToLower(u.subject)};
      }
      errs := errs + found;
    }
    assert users[..|users|] == users;
  }

  predicate DistinctSubjects(users: seq<User>) {
    forall i, j | 0 <= i < j < |users| :: ToLower(users[i].subject) != ToLower(users[j].subject)
  }

  predicate UserOk(u: User, local: bool, lib: Library) {
    && u.subject != ""
    && ValidLevel(u.level)
    && (u.localPasswordBcrypt != "" ==> local && lib.isHash(u.localPasswordBcrypt))
  }

  // The first n users are without problems.
  predicate NoUserProblemUpTo(users: seq<User>, n: nat, local: bool, lib: Library)
    requires n <= |users|
  {
    forall i | 0 <= i < n :: UserProblemsAt(users, i, local, lib) == []
  }

  lemma NoUserProblemUpToPrefix(users: seq<User>, n: nat, local: bool, lib: Library)
    requires n <= |users|
    ensures NoUserProblemUpTo(users[..n], n, local, lib) <==> NoUserProblemUpTo(users, n, local, lib)
  {
    forall i | 0 <= i < n ensures UserProblemsAt(users[..n], i, local, lib) == UserProblemsAt(users, i, local, lib) {
      UserProblemsAtOfPrefix(users, n, i, local, lib);
    }
  }

  lemma NoUserProblemUpToNext(users: seq<User>, n: nat, local: bool, lib: Library)
    requires n < |users|
    ensures NoUserProblemUpTo(users, n + 1, local, lib)
            <==> NoUserProblemUpTo(users, n, local, lib) && UserProblemsAt(users, n, local, lib) == []
  {}

  lemma {:induction false} NoUserProblemsIffNoneAt(users: seq<User>, local: bool, lib: Library)
    ensures UserProblems(users, local, lib) == [] <==> NoUserProblemUpTo(users, |users|, local, lib)
  {
    if users != [] {
      var last := |users| - 1;
      NoUserProblemsIffNoneAt(users[..last], local, lib);
      NoUserProblemUpToPrefix(users, last, local, lib);
      NoUserProblemUpToNext(users, last, local, lib);
    }
  }

  // No user before the i-th has its lowercased subject.
  predicate FirstOfItsSubject(users: seq<User>, i: nat)
    requires i < |users|
  {
    forall j | 0 <= j < i :: ToLower(users[j].subject) != ToLower(users[i].subject)
  }

  lemma UserInOrderIff(users: seq<User>, i: nat, local: bool, lib: Library)
    requires i < |users|
    ensures UserProblemsAt(users, i, local, lib) == []
            <==> UserOk(users[i], local, lib) && FirstOfItsSubject(users, i)
  {
    if users[i].subject != "" {
      assert |ToLower(users[i].subject)| > 0;
      assert SubjectTaken(users, i) <==> !FirstOfItsSubject(users, i);
    }
  }

  lemma EachFirstIffDistinct(users: seq<User>)
    ensures DistinctSubjects(users) <==> forall i | 0 <= i < |users| :: FirstOfItsSubject(users, i)
  {
    if forall i | 0 <= i < |users| :: FirstOfItsSubject(users, i) {
      forall i, j | 0 <= i < j < |users| ensures ToLower(users[i].subject) != ToLower(users[j].subject) {
        assert FirstOfItsSubject(users, j);
      }
    }
  }

  // The validator accepts exactly the lists whose users are each in order and
  // whose lowercased subjects are pairwise distinct.
  lemma UsersAcceptedIff(users: seq<User>, local: bool, lib: Library)
    ensures UserProblems(users, local, lib) == []
            <==> DistinctSubjects(users) && forall i | 0 <= i < |users| :: UserOk(users[i], local, lib)
  {
    NoUserProblemsIffNoneAt(users, local, lib);
    forall i | 0 <= i < |users|
      ensures UserProblemsAt(users, i, local, lib) == []
              <==> UserOk(users[i], local, lib) && FirstOfItsSubject(users, i)
    {
      UserInOrderIff(users, i, local, lib);
    }
    EachFirstIffDistinct(users);
  }

  // What is wrong with user i, when p is a problem of it.
  predicate IsUserProblem(users: seq<User>, local: bool, lib: Library, p: Problem) {
    match p
    case SubjectRequired(i) => i < |users| && users[i].subject == ""
    case DuplicateSubject(i) =>
      i < |users| && users[i].subject != "" &&
      exists j | 0 <= j < i :: users[j].subject != "" && ToLower(users[j].subject) == ToLower(users[i].subject)
    case InvalidLevel(i) => i < |users| && users[i].level !in {"view", "poweruser", "dba"}
    case HashWithoutLocal(i) => i < |users| && users[i].localPasswordBcrypt != "" && !local
    case InvalidHash(i) =>
      i < |users| && users[i].localPasswordBcrypt != "" && local && !lib.isHash(users[i].localPasswordBcrypt)
    case _ => false
  }

  predicate OfUser(p: Problem) {
    p.SubjectRequired? || p.DuplicateSubject? || p.InvalidLevel? || p.HashWithoutLocal? || p.InvalidHash?
  }

  lemma UserProblemsAtAre(users: seq<User>, i: nat, local: bool, lib: Library, p: Problem)
    requires i < |users|
    ensures p in UserProblemsAt(users, i, local, lib) <==> OfUser(p) && p.index == i && IsUserProblem(users, local, lib, p)
  {}

  lemma UserProblemOfPrefix(users: seq<User>, n: nat, local: bool, lib: Library, p: Problem)
    requires n <= |users| && OfUser(p) && p.index < n
    ensures IsUserProblem(users[..n], local, lib, p) <==> IsUserProblem(users, local, lib, p)
  {}

  // Which problems are reported of which user, by what is wrong with it.
  lemma {:induction false} UserProblemsAre(users: seq<User>, local: bool, lib: Library, p: Problem)
    ensures p in UserProblems(users, local, lib) <==> IsUserProblem(users, local, lib, p)
  {
    if users != [] {
      var last := |users| - 1;
      UserProblemsAre(users[..last], local, lib, p);
      UserProblemsAtAre(users, last, local, lib, p);
      if OfUser(p) && p.index < last {
        UserProblemOfPrefix(users, last, local, lib, p);
      }
    }
  }

  // ------------------------------------------------------------------
  // validateRoutes
  // ------------------------------------------------------------------

  const RESERVED: seq<string> := ["/auth", "/logout", "/healthz"]

  predicate Rooted(prefix: string) { prefix != "" && prefix[0] == '/' }

  predicate HasDots(s: string) { exists i :: 0 <= i < |s| - 1 && s[i] == '.' && s[i + 1] == '.' }

  predicate Claims(prefix: string, reserved: string) { prefix == reserved || reserved + "/" <= prefix }

  predicate PrefixTaken(routes: seq<RouteConfig>, i: nat)
    requires i < |routes|
  {
    exists j | 0 <= j < i :: Rooted(routes[j].pathPrefix) && routes[j].pathPrefix == routes[i].pathPrefix
  }

  function ReservedProblems(prefix: string, i: nat, reserved: seq<string>): seq<Problem> {
    if reserved == [] then []
    else
      var last := reserved[|reserved| - 1];
      ReservedProblems(prefix, i, reserved[..|reserved| - 1])
      + if Claims(prefix, last) then [ReservedPrefix(i, last)] else []
  }

  function PrefixProblems(prefix: string, taken: bool, i: nat): seq<Problem> {
    if !Rooted(prefix) then [PrefixNotRooted(i)]
    else
      (if HasDots(prefix) then [PrefixWithDots(i)] else [])
      + (if taken then [DuplicatePrefix(i)] else [])
      + ReservedProblems(prefix, i, RESERVED)
  }

  function TargetProblems(r: RouteConfig, i: nat, lib: Library): seq<Problem> {
    (if r.upstream == "" then [UpstreamRequired(i)] else if !lib.isURL(r.upstream) then [InvalidUpstream(i)] else [])
    + (if ValidLevel(r.minLevel) then [] else [InvalidMinLevel(i)])
  }

  function ProblemsAt(routes: seq<RouteConfig>, i: nat, lib: Library): seq<Problem>
    requires i < |routes|
  {
    PrefixProblems(routes[i].pathPrefix, PrefixTaken(routes, i), i) + TargetProblems(routes[i], i, lib)
  }

  function RouteProblems(routes: seq<RouteConfig>, lib: Library): seq<Problem> {
    if routes == [] then []
    else RouteProblems(routes[..|routes| - 1], lib) + ProblemsAt(routes, |routes| - 1, lib)
  }

  lemma RouteProblemsOfPrefix(routes: seq<RouteConfig>, i: nat, lib: Library)
    requires i < |routes|
    ensures RouteProblems(routes[..i + 1], lib) == RouteProblems(routes[..i], lib) + ProblemsAt(routes, i, lib)
  {
    assert routes[..i + 1][..i] == routes[..i];
    ProblemsAtOfPrefix(routes, i + 1, i, lib);
  }

  method CheckReserved(prefix: string, i: nat, reserved: seq<string>) returns (errs: seq<Problem>)
    ensures errs == ReservedProblems(prefix, i, reserved)
  {
    errs := [];
    for k := 0 to |reserved|
      invariant errs == ReservedProblems(prefix, i, reserved[..k])
    {
      assert reserved[..k + 1][..k] == reserved[..k];
      if Claims(prefix, reserved[k]) {
        errs := errs + [ReservedPrefix(i, reserved[k])];
      }
    }
    assert reserved[..|reserved|] == reserved;
  }

  method CheckPrefix(prefix: string, taken: bool, i: nat) returns (errs: seq<Problem>)
    ensures errs == PrefixProblems(prefix, taken, i)
  {
    if !Rooted(prefix) {
      return [PrefixNotRooted(i)];
    }
    errs := [];
    if HasDots(prefix) {
      errs := errs + [PrefixWithDots(i)];
    }
    if taken {
      errs := errs + [DuplicatePrefix(i)];
    }
    var collisions := CheckReserved(prefix, i, RESERVED);
    errs := errs + collisions;
  }

  // The rooted prefixes among the first i routes.
  function SeenPrefixes(routes: seq<RouteConfig>, i: nat): set<string>
    requires i <= |routes|
  {
    set j | 0 <= j < i && Rooted(routes[j].pathPrefix) :: routes[j].pathPrefix
  }

  lemma SeenPrefix(routes: seq<RouteConfig>, i: nat)
    requires i < |routes|
    ensures Rooted(routes[i].pathPrefix) ==> (routes[i].pathPrefix in SeenPrefixes(routes, i) <==> PrefixTaken(routes, i))
    ensures SeenPrefixes(routes, i + 1)
            == SeenPrefixes(routes, i) + if Rooted(routes[i].pathPrefix) then {routes[i].pathPrefix} else {}
  {}

  method CheckTarget(r: RouteConfig, i: nat, lib: Library) returns (errs: seq<Problem>)
    ensures errs == TargetProblems(r, i, lib)
  {
    errs := [];
    if r.upstream == "" {
      errs := errs + [UpstreamRequired(i)];
    } else if !lib.isURL(r.upstream) {
      errs := errs + [InvalidUpstream(i)];
    }
    if !ValidLevel(r.minLevel) {
      errs := errs + [InvalidMinLevel(i)];
    }
  }

  method ValidateRoutes(routes: seq<RouteConfig>, lib: Library) returns (errs: seq<Problem>)
    ensures errs == if routes == [] then [NoRoutes] else RouteProblems(routes, lib)
  {
    if routes == [] {
      return [NoRoutes];
    }
    errs := [];
    var seen: set<string> := {};
    for i := 0 to |routes|
      invariant errs == RouteProblems(routes[..i], lib)
      invariant seen == SeenPrefixes(routes, i)
    {
      var r := routes[i];
      RouteProblemsOfPrefix(routes, i, lib);
      SeenPrefix(routes, i);
      var found := CheckPrefix(r.pathPrefix, r.pathPrefix in seen, i);
      if Rooted(r.pathPrefix) {
        seen := seen + {r.pathPrefix};
      }
      var target := CheckTarget(r, i, lib);
      errs := errs + (found + target);
    }
    assert routes[..|routes|] == routes;
  }

  predicate RouteOk(r: RouteConfig, lib: Library) {
    && Rooted(r.pathPrefix) && !HasDots(r.pathPrefix)
    && (forall res | res in RESERVED :: !Claims(r.pathPrefix, res))
    && r.upstream != "" && lib.isURL(r.upstream)
    && ValidLevel(r.minLevel)
  }

  predicate DistinctPrefixes(routes: seq<RouteConfig>) {
    forall i, j | 0 <= i < j < |routes| :: routes[i].pathPrefix != routes[j].pathPrefix
  }

  lemma {:induction false} NoReservedProblems(prefix: string, i: nat, reserved: seq<string>)
    ensures ReservedProblems(prefix, i, reserved) == [] <==> forall res | res in reserved :: !Claims(prefix, res)
  {
    if reserved != [] {
      var last := |reserved| - 1;
      NoReservedProblems(prefix, i, reserved[..last]);
      assert forall res :: res in reserved <==> res in reserved[..last] || res == reserved[last];
    }
  }

  lemma RouteInOrderIff(routes: seq<RouteConfig>, i: nat, lib: Library)
    requires i < |routes|
    ensures ProblemsAt(routes, i, lib) == []
            <==> RouteOk(routes[i], lib) && forall j | 0 <= j < i :: routes[j].pathPrefix != routes[i].pathPrefix
  {
    NoReservedProblems(routes[i].pathPrefix, i, RESERVED);
  }

  lemma ProblemsAtOfPrefix(routes: seq<RouteConfig>, n: nat, i: nat, lib: Library)
    requires i < n <= |routes|
    ensures ProblemsAt(routes[..n], i, lib) == ProblemsAt(routes, i, lib)
  {
    assert PrefixTaken(routes[..n], i) <==> PrefixTaken(routes, i);
  }

  // The first n routes are without problems.
  predicate NoneUpTo(routes: seq<RouteConfig>, n: nat, lib: Library)
    requires n <= |routes|
  {
    forall i | 0 <= i < n :: ProblemsAt(routes, i, lib) == []
  }

  lemma NoneUpToPrefix(routes: seq<RouteConfig>, n: nat, lib: Library)
    requires n <= |routes|
    ensures NoneUpTo(routes[..n], n, lib) <==> NoneUpTo(routes, n, lib)
  {
    forall i | 0 <= i < n ensures ProblemsAt(routes[..n], i, lib) == ProblemsAt(routes, i, lib) {
      ProblemsAtOfPrefix(routes, n, i, lib);
    }
  }

  lemma NoneUpToNext(routes: seq<RouteConfig>, n: nat, lib: Library)
    requires n < |routes|
    ensures NoneUpTo(routes, n + 1, lib) <==> NoneUpTo(routes, n, lib) && ProblemsAt(routes, n, lib) == []
  {}

  lemma {:induction false} NoProblemsIffNoneAt(routes: seq<RouteConfig>, lib: Library)
    ensures RouteProblems(routes, lib) == [] <==> NoneUpTo(routes, |routes|, lib)
  {
    if routes != [] {
      var last := |routes| - 1;
      NoProblemsIffNoneAt(routes[..last], lib);
      NoneUpToPrefix(routes, last, lib);
      NoneUpToNext(routes, last, lib);
    }
  }

  // The validator accepts exactly the non-empty lists whose routes are each in
  // order and whose prefixes are pairwise distinct.
  lemma RoutesAcceptedIff(routes: seq<RouteConfig>, lib: Library)
    ensures RouteProblems(routes, lib) == []
            <==> DistinctPrefixes(routes) && forall i | 0 <= i < |routes| :: RouteOk(routes[i], lib)
  {
    NoProblemsIffNoneAt(routes, lib);
    forall i | 0 <= i < |routes|
      ensures ProblemsAt(routes, i, lib) == []
              <==> RouteOk(routes[i], lib) && forall j | 0 <= j < i :: routes[j].pathPrefix != routes[i].pathPrefix
    {
      RouteInOrderIff(routes, i, lib);
    }
  }

  predicate Contains(s: string, before: string, part: string, after: string) { s == before + part + after }

  // Two dots in a row somewhere.
  lemma HasDotsIff(s: string)
    ensures HasDots(s) <==> exists before, after :: Contains(s, before, "..", after)
  {
    if HasDots(s) {
      var i :| 0 <= i < |s| - 1 && s[i] == '.' && s[i + 1] == '.';
      assert s == s[..i] + ".." + s[i + 2..];
      assert Contains(s, s[..i], "..", s[i + 2..]);
    }
    if before, after :| Contains(s, before, "..", after) {
      assert s[|before|] == '.' && s[|before| + 1] == '.';
    }
  }

  // The path is the prefix itself or lies below it.
  predicate LiesUnder(path: string, prefix: string) {
    path == prefix || (|path| > |prefix| && path[..|prefix|] == prefix && path[|prefix|] == '/')
  }

  lemma ClaimsIff(prefix: string, reserved: string)
    ensures Claims(prefix, reserved) <==> LiesUnder(prefix, reserved)
  {
    if reserved + "/" <= prefix {
      assert prefix[..|reserved|] == (reserved + "/")[..|reserved|] == reserved;
      assert prefix[|reserved|] == (reserved + "/")[|reserved|];
    }
    if |prefix| > |reserved| && prefix[..|reserved|] == reserved && prefix[|reserved|] == '/' {
      assert prefix[..|reserved| + 1] == reserved + "/";
    }
  }

  lemma {:induction false} ReservedProblemsAre(prefix: string, i: nat, reserved: seq<string>, p: Problem)
    ensures p in ReservedProblems(prefix, i, reserved)
            <==> p.ReservedPrefix? && p.index == i && p.reserved in reserved && LiesUnder(prefix, p.reserved)
  {
    if reserved != [] {
      var last := reserved[|reserved| - 1];
      ReservedProblemsAre(prefix, i, reserved[..|reserved| - 1], p);
      ClaimsIff(prefix, last);
      assert forall r :: r in reserved <==> r in reserved[..|reserved| - 1] || r == last;
    }
  }

  // What is wrong with the prefix of route i, or with where it leads, when p is a
  // problem of it.
  predicate IsRooted(r: RouteConfig) { r.pathPrefix != "" && r.pathPrefix[0] == '/' }

  ghost predicate IsPrefixProblem(routes: seq<RouteConfig>, p: Problem) {
    match p
    case PrefixNotRooted(i) => i < |routes| && !IsRooted(routes[i])
    case PrefixWithDots(i) =>
      i < |routes| && IsRooted(routes[i]) && exists before, after :: Contains(routes[i].pathPrefix, before, "..", after)
    case DuplicatePrefix(i) =>
      i < |routes| && IsRooted(routes[i]) && exists j | 0 <= j < i :: routes[j].pathPrefix == routes[i].pathPrefix
    case ReservedPrefix(i, reserved) =>
      i < |routes| && IsRooted(routes[i]) && reserved in {"/auth", "/logout", "/healthz"} &&
      LiesUnder(routes[i].pathPrefix, reserved)
    case _ => false
  }

  predicate IsTargetProblem(routes: seq<RouteConfig>, lib: Library, p: Problem) {
    match p
    case UpstreamRequired(i) => i < |routes| && routes[i].upstream == ""
    case InvalidUpstream(i) => i < |routes| && routes[i].upstream != "" && !lib.isURL(routes[i].upstream)
    case InvalidMinLevel(i) => i < |routes| && routes[i].minLevel !in {"view", "poweruser", "dba"}
    case _ => false
  }

  lemma ReservedNames(r: string)
    ensures r in RESERVED <==> r in {"/auth", "/logout", "/healthz"}
  {
    assert RESERVED[0] == "/auth" && RESERVED[1] == "/logout" && RESERVED[2] == "/healthz";
  }

  lemma PrefixProblemsAre(routes: seq<RouteConfig>, i: nat, p: Problem)
    requires i < |routes|
    ensures p in PrefixProblems(routes[i].pathPrefix, PrefixTaken(routes, i), i)
            <==> !p.NoRoutes? && p.index == i && IsPrefixProblem(routes, p)
  {
    HasDotsIff(routes[i].pathPrefix);
    ReservedProblemsAre(routes[i].pathPrefix, i, RESERVED, p);
    if p.ReservedPrefix? {
      ReservedNames(p.reserved);
    }
  }

  lemma TargetProblemsAre(routes: seq<RouteConfig>, i: nat, lib: Library, p: Problem)
    requires i < |routes|
    ensures p in TargetProblems(routes[i], i, lib)
            <==> !p.NoRoutes? && p.index == i && IsTargetProblem(routes, lib, p)
  {}

  lemma RouteProblemOfPrefix(routes: seq<RouteConfig>, n: nat, lib: Library, p: Problem)
    requires n <= |routes| && !p.NoRoutes? && p.index < n
    ensures IsPrefixProblem(routes[..n], p) <==> IsPrefixProblem(routes, p)
    ensures IsTargetProblem(routes[..n], lib, p) <==> IsTargetProblem(routes, lib, p)
  {}

  // Which problems are reported of which route.
  lemma {:induction false} RouteProblemsAre(routes: seq<RouteConfig>, lib: Library, p: Problem)
    ensures p in RouteProblems(routes, lib) <==> IsPrefixProblem(routes, p) || IsTargetProblem(routes, lib, p)
  {
    if routes != [] {
      var last := |routes| - 1;
      RouteProblemsAre(routes[..last], lib, p);
      PrefixProblemsAre(routes, last, p);
      TargetProblemsAre(routes, last, lib, p);
      if !p.NoRoutes? && p.index < last {
        RouteProblemOfPrefix(routes, last, lib, p);
      }
    }
  }

  // ------------------------------------------------------------------
  // Parse: defaults first, then validation.
  // ------------------------------------------------------------------

  function WithDefault(r: RouteConfig): RouteConfig {
    if r.minLevel == NONE then r.(minLevel := VIEW) else r
  }

  function WithDefaults(routes: seq<RouteConfig>): seq<RouteConfig> {
    seq(|routes|, i requires 0 <= i < |routes| => WithDefault(routes[i]))
  }

  method SetDefaults(routes: array<RouteConfig>)
    modifies routes
    ensures routes[..] == WithDefaults(old(routes[..]))
    ensures forall k | 0 <= k < routes.Length ::
              && routes[k].pathPrefix == old(routes[k]).pathPrefix && routes[k].upstream == old(routes[k]).upstream
              && routes[k].minLevel == if old(routes[k]).minLevel == "" then "view" else old(routes[k]).minLevel
  {
    for i := 0 to routes.Length
      invariant forall k | 0 <= k < i :: routes[k] == WithDefault(old(routes[k]))
      invariant forall k | i <= k < routes.Length :: routes[k] == old(routes[k])
    {
      if routes[i].minLevel == NONE {
        routes[i] := routes[i].(minLevel := VIEW);
      }
    }
  }

  // The users and routes of a configuration Parse accepts.
  predicate Accepted(users: seq<User>, routes: seq<RouteConfig>, local: bool, lib: Library) {
    && UserProblems(users, local, lib) == []
    && routes != [] && RouteProblems(WithDefaults(routes), lib) == []
  }
}
