// The users of one console: the operator-owned bootstrap administrator, the
// resolution of every listed user, and the list rendered for the proxy.
module ConsoleUsers {
  import opened Text
  import opened Sorting
  import opened ProxyConfig
  import Routing

  datatype SecretRef = SecretRef(name: string, key: string)

  datatype ToolBoxUser = ToolBoxUser(name: string, consoleRef: string, subject: string, level: string,
                                     passwordRef: Option<SecretRef>)

  datatype Console = Console(name: string, local: bool, adminSubject: string, adminPasswordRef: Option<SecretRef>)

  // ReadLocalPasswordHash: a usable hash, or why there is none.
  datatype HashRead = Hash(hash: string) | SecretMissing | SecretMalformed | ReadFailed

  type HashReader = SecretRef -> HashRead

  // A hash that is returned is not empty and parses as a bcrypt hash.
  ghost predicate ReadsHashes(read: HashReader, lib: Library) {
    forall ref :: read(ref).Hash? ==> read(ref).hash != "" && lib.isHash(read(ref).hash)
  }

  datatype Exclusion = NotExcluded | BadLevel | PasswordNotFound | PasswordInvalid | Duplicate

  datatype Resolved = Resolved(user: ToolBoxUser, proxyUser: User, exclusion: Exclusion)
  {
    predicate Excluded() { !exclusion.NotExcluded? }
  }

  function BootstrapName(c: Console): string { c.name + "-bootstrap-admin" }

  // ------------------------------------------------------------------
  // reconcileBootstrapAdmin
  // ------------------------------------------------------------------

  function BootstrapAdmin(c: Console): ToolBoxUser {
    ToolBoxUser(BootstrapName(c), c.name, c.adminSubject, DBA, c.adminPasswordRef)
  }

  // The administrator is the one the console declares, with level dba, always.
  lemma BootstrapAdminIsDeclared(c: Console)
    ensures var admin := BootstrapAdmin(c);
            && admin.name == c.name + "-bootstrap-admin" && admin.consoleRef == c.name
            && admin.subject == c.adminSubject && admin.level == "dba" && admin.passwordRef == c.adminPasswordRef
    ensures Administers(c, BootstrapAdmin(c))
  {}

  class UserStore {
    var users: map<string, ToolBoxUser>
    var writes: nat

    ghost function Stored(c: Console): Option<ToolBoxUser>
      reads this
    {
      if BootstrapName(c) in users then Some(users[BootstrapName(c)]) else None
    }

    // Creates the administrator, or overwrites one whose spec differs; a spec
    // that already matches costs no write. `cached` is what the cache shows; when
    // that is not the stored version, an update is refused, and an administrator
    // that turns out to exist already is left alone.
    method ReconcileBootstrapAdmin(c: Console, cached: Option<ToolBoxUser>, current: bool) returns (ok: bool)
      requires cached.Some? ==> cached.value.name == BootstrapName(c)
      requires current ==> cached == Stored(c)
      modifies this
      ensures ok <==> current || cached in {None, Some(BootstrapAdmin(c))}
      ensures current ==> users == old(users)[BootstrapName(c) := BootstrapAdmin(c)]
      ensures !current ==>
                users == if cached == None && old(Stored(c)) == None
                         then old(users)[BootstrapName(c) := BootstrapAdmin(c)] else old(users)
      ensures writes == old(writes) + if old(users) == users then 0 else 1
    {
      var desired := BootstrapAdmin(c);
      var key := BootstrapName(c);
      if cached == None {
        if key !in users {
          users, writes := users[key := desired], writes + 1;
        }
        return true;
      }
      var existing := cached.value;
      if existing.consoleRef == desired.consoleRef && existing.subject == desired.subject &&
         existing.level == desired.level && existing.passwordRef == desired.passwordRef {
        assert existing == desired;
        return true;
      }
      if !current {
        return false;
      }
      users, writes := users[key := desired], writes + 1;
      assert old(users)[key] != users[key];
      return true;
    }
  }

  // ------------------------------------------------------------------
  // resolveConsoleUser and resolveConsoleUsers
  // ------------------------------------------------------------------

  function Resolve(c: Console, read: HashReader, u: ToolBoxUser): Resolved {
    var none := User("", NONE, "");
    if !ValidLevel(u.level) then Resolved(u, none, BadLevel)
    else if c.local && u.passwordRef.Some? && u.passwordRef.value.name != "" then
      match read(u.passwordRef.value)
      case Hash(hash) => Resolved(u, User(u.subject, u.level, hash), NotExcluded)
      case SecretMissing => Resolved(u, none, PasswordNotFound)
      // any other error of the read is reported as an invalid Secret, too
      case SecretMalformed | ReadFailed => Resolved(u, none, PasswordInvalid)
    else Resolved(u, User(u.subject, u.level, ""), NotExcluded)
  }

  function ResolveAll(c: Console, read: HashReader, listed: seq<ToolBoxUser>): seq<Resolved> {
    if listed == [] then []
    else
      ResolveAll(c, read, listed[..|listed| - 1])
      + if listed[|listed| - 1].consoleRef == c.name then [Resolve(c, read, listed[|listed| - 1])] else []
  }

  // The order of the code's comparator: the bootstrap administrator first, then
  // by name. Object names are not empty, so the empty key puts it in front.
  function RankKey(bootstrap: string): Resolved -> string {
    (r: Resolved) => if r.user.name == bootstrap then "" else r.user.name
  }

  lemma RankKeyIsTheComparator(bootstrap: string, a: Resolved, b: Resolved)
    requires a.user.name != "" && b.user.name != ""
    ensures Less(RankKey(bootstrap)(a), RankKey(bootstrap)(b))
            <==> if (a.user.name == bootstrap) != (b.user.name == bootstrap) then a.user.name == bootstrap
                 else a.user.name != bootstrap && Less(a.user.name, b.user.name)
  {}

  function Ranked(c: Console, read: HashReader, listed: seq<ToolBoxUser>): seq<Resolved> {
    Sort(ResolveAll(c, read, listed), RankKey(BootstrapName(c)))
  }

  // The subject a user claims, rendered or not: the bootstrap administrator
  // claims its own even when it cannot be rendered.
  function Claim(r: Resolved, bootstrap: string): Option<string> {
    if !r.Excluded() then Some(ToLower(r.proxyUser.subject))
    else if r.user.name == bootstrap then Some(ToLower(r.user.subject))
    else None
  }

  predicate ClaimedBefore(rs: seq<Resolved>, bootstrap: string, i: nat)
    requires i < |rs|
  {
    exists j | 0 <= j < i :: Claim(rs[j], bootstrap) == Some(ToLower(rs[i].proxyUser.subject))
  }

  // The first claim wins.
  function Decided(rs: seq<Resolved>, bootstrap: string, i: nat): Resolved
    requires i < |rs|
  {
    if !rs[i].Excluded() && ClaimedBefore(rs, bootstrap, i) then rs[i].(exclusion := Duplicate) else rs[i]
  }

  function Deduplicated(rs: seq<Resolved>, bootstrap: string): seq<Resolved> {
    seq(|rs|, i requires 0 <= i < |rs| => Decided(rs, bootstrap, i))
  }

  method Deduplicate(result: array<Resolved>, bootstrap: string)
    modifies result
    ensures result[..] == Deduplicated(old(result[..]), bootstrap)
  {
    ghost var rs := result[..];
    var seen: set<string> := {};
    for i := 0 to result.Length
      invariant forall k | 0 <= k < i :: result[k] == Decided(rs, bootstrap, k)
      invariant forall k | i <= k < result.Length :: result[k] == rs[k]
      invariant forall key :: key in seen <==> exists j | 0 <= j < i :: Claim(rs[j], bootstrap) == Some(key)
    {
      if result[i].Excluded() {
        if result[i].user.name == bootstrap {
          seen := seen + {ToLower(result[i].user.subject)};
        }
      } else {
        var key := ToLower(result[i].proxyUser.subject);
        assert Claim(rs[i], bootstrap) == Some(key);
        if key in seen {
          result[i] := result[i].(exclusion := Duplicate);
        } else {
          seen := seen + {key};
        }
      }
    }
  }

  method ResolveConsoleUsers(c: Console, read: HashReader, listed: seq<ToolBoxUser>) returns (result: array<Resolved>)
    ensures fresh(result) && result[..] == Deduplicated(Ranked(c, read, listed), BootstrapName(c))
  {
    var found: seq<Resolved> := [];
    for i := 0 to |listed|
      invariant found == ResolveAll(c, read, listed[..i])
    {
      assert listed[..i + 1][..i] == listed[..i];
      if listed[i].consoleRef == c.name {
        found := found + [Resolve(c, read, listed[i])];
      }
    }
    assert listed[..|listed|] == listed;
    result := new Resolved[|found|](i requires 0 <= i < |found| => found[i]);
    assert result[..] == found;
    SortInPlace(result, RankKey(BootstrapName(c)));
    Deduplicate(result, BootstrapName(c));
  }

  // proxyUsers
  function Rendered(rs: seq<Resolved>): seq<User> {
    if rs == [] then []
    else Rendered(rs[..|rs| - 1]) + if rs[|rs| - 1].Excluded() then [] else [rs[|rs| - 1].proxyUser]
  }

  method ProxyUsers(rs: seq<Resolved>) returns (users: seq<User>)
    ensures users == Rendered(rs)
  {
    users := [];
    for i := 0 to |rs|
      invariant users == Rendered(rs[..i])
    {
      assert rs[..i + 1][..i] == rs[..i];
      if !rs[i].Excluded() {
        users := users + [rs[i].proxyUser];
      }
    }
    assert rs[..|rs|] == rs;
  }

  function RenderedUsers(c: Console, read: HashReader, listed: seq<ToolBoxUser>): seq<User> {
    Rendered(Deduplicated(Ranked(c, read, listed), BootstrapName(c)))
  }

  // ------------------------------------------------------------------
  // The order of the list does not matter.
  // ------------------------------------------------------------------

  // Names are unique in a namespace, and never empty.
  predicate UniqueNames(listed: seq<ToolBoxUser>) {
    && (forall i | 0 <= i < |listed| :: listed[i].name != "")
    && (forall i, j | 0 <= i < j < |listed| :: listed[i].name != listed[j].name)
  }

  lemma {:induction false} ResolveAllFrom(c: Console, read: HashReader, listed: seq<ToolBoxUser>)
    ensures |ResolveAll(c, read, listed)| <= |listed|
    ensures forall r | r in ResolveAll(c, read, listed) ::
              r.user in listed && r.user.consoleRef == c.name && r == Resolve(c, read, r.user)
    ensures forall u | u in listed && u.consoleRef == c.name :: Resolve(c, read, u) in ResolveAll(c, read, listed)
  {
    if listed != [] {
      ResolveAllFrom(c, read, listed[..|listed| - 1]);
      assert listed == listed[..|listed| - 1] + [listed[|listed| - 1]];
    }
  }

  lemma ResolvedBefore(c: Console, read: HashReader, listed: seq<ToolBoxUser>, i: nat)
    requires UniqueNames(listed) && listed != [] && i < |ResolveAll(c, read, listed[..|listed| - 1])|
    ensures ResolveAll(c, read, listed[..|listed| - 1])[i].user.name !in {"", listed[|listed| - 1].name}
  {
    var before := listed[..|listed| - 1];
    ResolveAllFrom(c, read, before);
    var u := ResolveAll(c, read, before)[i].user;
    assert u in before;
    var k :| 0 <= k < |before| && before[k] == u;
    assert listed[k] == u;
  }

  // One more user with a name of its own keeps the ranks apart.
  lemma RankKeysDiffer(bootstrap: string, found: seq<Resolved>, r: Resolved)
    requires DistinctKeys(found, RankKey(bootstrap)) && r.user.name != ""
    requires forall i | 0 <= i < |found| :: found[i].user.name !in {"", r.user.name}
    ensures DistinctKeys(found + [r], RankKey(bootstrap))
  {}

  lemma {:induction false} ResolveAllDistinct(c: Console, read: HashReader, listed: seq<ToolBoxUser>)
    requires UniqueNames(listed)
    ensures DistinctKeys(ResolveAll(c, read, listed), RankKey(BootstrapName(c)))
  {
    if listed != [] {
      var last := |listed| - 1;
      var before := listed[..last];
      assert UniqueNames(before);
      ResolveAllDistinct(c, read, before);
      if listed[last].consoleRef == c.name {
        forall i | 0 <= i < |ResolveAll(c, read, before)|
          ensures ResolveAll(c, read, before)[i].user.name !in {"", listed[last].name}
        {
          ResolvedBefore(c, read, listed, i);
        }
        RankKeysDiffer(BootstrapName(c), ResolveAll(c, read, before), Resolve(c, read, listed[last]));
      }
    }
  }

  lemma ResolveAllMembers(c: Console, read: HashReader, listed: seq<ToolBoxUser>, r: Resolved)
    requires UniqueNames(listed)
    ensures multiset(ResolveAll(c, read, listed))[r]
            == if r.user in listed && r.user.consoleRef == c.name && r == Resolve(c, read, r.user) then 1 else 0
  {
    ResolveAllDistinct(c, read, listed);
    ResolveAllFrom(c, read, listed);
    DistinctMultiplicity(ResolveAll(c, read, listed), r, RankKey(BootstrapName(c)));
  }

  // The rendered list is the same for every permutation of the listed users.
  lemma RenderIgnoresListOrder(c: Console, read: HashReader, listed: seq<ToolBoxUser>, other: seq<ToolBoxUser>)
    requires UniqueNames(listed) && multiset(listed) == multiset(other)
    ensures Ranked(c, read, listed) == Ranked(c, read, other)
    ensures RenderedUsers(c, read, listed) == RenderedUsers(c, read, other)
  {
    var name: ToolBoxUser -> string := (u: ToolBoxUser) => u.name;
    assert DistinctKeys(listed, name);
    DistinctKeysPermute(listed, other, name);
    forall i | 0 <= i < |other| ensures other[i].name != "" {
      assert other[i] in multiset(listed);
    }
    assert UniqueNames(other) by {
      forall i, j | 0 <= i < j < |other| ensures other[i].name != other[j].name {
        assert name(other[i]) != name(other[j]);
      }
    }
    assert multiset(ResolveAll(c, read, listed)) == multiset(ResolveAll(c, read, other)) by {
      forall r ensures multiset(ResolveAll(c, read, listed))[r] == multiset(ResolveAll(c, read, other))[r] {
        ResolveAllMembers(c, read, listed, r);
        ResolveAllMembers(c, read, other, r);
        assert r.user in listed <==> r.user in multiset(listed);
        assert r.user in other <==> r.user in multiset(other);
      }
    }
    ResolveAllDistinct(c, read, listed);
    SortIsCanonical(ResolveAll(c, read, listed), ResolveAll(c, read, other), RankKey(BootstrapName(c)));
  }

  // ------------------------------------------------------------------
  // The rendered list is one the proxy accepts.
  // ------------------------------------------------------------------

  lemma {:induction false} RenderedFrom(rs: seq<Resolved>)
    ensures forall u | u in Rendered(rs) :: exists i :: 0 <= i < |rs| && !rs[i].Excluded() && rs[i].proxyUser == u
    ensures forall i | 0 <= i < |rs| && !rs[i].Excluded() :: rs[i].proxyUser in Rendered(rs)
  {
    if rs != [] {
      var last := |rs| - 1;
      RenderedFrom(rs[..last]);
      forall u | u in Rendered(rs)
        ensures exists i :: 0 <= i < |rs| && !rs[i].Excluded() && rs[i].proxyUser == u
      {
        if u in Rendered(rs[..last]) {
          var i :| 0 <= i < last && !rs[..last][i].Excluded() && rs[..last][i].proxyUser == u;
          assert rs[i].proxyUser == u;
        } else {
          assert rs[last].proxyUser == u;
        }
      }
      assert forall i | 0 <= i < last :: rs[i] == rs[..last][i];
    }
  }

  // Of two included users, the later one's subject was not claimed before it.
  lemma {:induction false} RenderedSubjectsDistinct(rs: seq<Resolved>)
    requires forall i, j | 0 <= i < j < |rs| && !rs[i].Excluded() && !rs[j].Excluded() ::
               ToLower(rs[i].proxyUser.subject) != ToLower(rs[j].proxyUser.subject)
    ensures DistinctSubjects(Rendered(rs))
  {
    if rs != [] {
      var last := |rs| - 1;
      var before := rs[..last];
      assert forall i | 0 <= i < last :: rs[i] == before[i];
      RenderedSubjectsDistinct(before);
      RenderedFrom(before);
      if !rs[last].Excluded() {
        forall k | 0 <= k < |Rendered(before)|
          ensures ToLower(Rendered(before)[k].subject) != ToLower(rs[last].proxyUser.subject)
        {
          assert Rendered(before)[k] in Rendered(before);
          var i :| 0 <= i < last && !before[i].Excluded() && before[i].proxyUser == Rendered(before)[k];
          assert rs[i] == before[i];
        }
      }
    }
  }

  // Lowercased subjects of the rendered list are pairwise distinct.
  lemma SubjectsAreDistinct(c: Console, read: HashReader, listed: seq<ToolBoxUser>)
    ensures DistinctSubjects(RenderedUsers(c, read, listed))
  {
    var rs, bootstrap := Ranked(c, read, listed), BootstrapName(c);
    var ds := Deduplicated(rs, bootstrap);
    forall i, j | 0 <= i < j < |ds| && !ds[i].Excluded() && !ds[j].Excluded()
      ensures ToLower(ds[i].proxyUser.subject) != ToLower(ds[j].proxyUser.subject)
    {
      assert ds[i] == rs[i] && ds[j] == rs[j];
      assert Claim(rs[i], bootstrap) == Some(ToLower(rs[i].proxyUser.subject));
    }
    RenderedSubjectsDistinct(ds);
  }

  lemma RankedAreResolved(c: Console, read: HashReader, listed: seq<ToolBoxUser>, i: nat)
    requires i < |Ranked(c, read, listed)|
    ensures var r := Ranked(c, read, listed)[i];
            r.user in listed && r.user.consoleRef == c.name && r == Resolve(c, read, r.user)
  {
    var found := ResolveAll(c, read, listed);
    SortPermutes(found, RankKey(BootstrapName(c)));
    assert Ranked(c, read, listed)[i] in multiset(found);
    ResolveAllFrom(c, read, listed);
  }

  lemma RenderedUserOk(c: Console, read: HashReader, listed: seq<ToolBoxUser>, lib: Library, u: User)
    requires ReadsHashes(read, lib) && u in RenderedUsers(c, read, listed)
    ensures UserOk(u, c.local, lib) <==> u.subject != ""
  {
    var ds := Deduplicated(Ranked(c, read, listed), BootstrapName(c));
    RenderedFrom(ds);
    var i :| 0 <= i < |ds| && !ds[i].Excluded() && ds[i].proxyUser == u;
    RankedAreResolved(c, read, listed, i);
  }

  // The proxy's own validation accepts the rendered list if and only if no
  // rendered subject is empty.
  lemma RenderedUsersValidate(c: Console, read: HashReader, listed: seq<ToolBoxUser>, lib: Library)
    requires ReadsHashes(read, lib)
    ensures var users := RenderedUsers(c, read, listed);
            UserProblems(users, c.local, lib) == [] <==> forall i | 0 <= i < |users| :: users[i].subject != ""
  {
    var users := RenderedUsers(c, read, listed);
    SubjectsAreDistinct(c, read, listed);
    UsersAcceptedIff(users, c.local, lib);
    forall k | 0 <= k < |users|
      ensures UserOk(users[k], c.local, lib) <==> users[k].subject != ""
    {
      RenderedUserOk(c, read, listed, lib, users[k]);
    }
  }

  // ------------------------------------------------------------------
  // Who is dropped.
  // ------------------------------------------------------------------

  // A resolvable user is dropped exactly when a user ranked before it claims
  // its subject: a resolvable one, or the bootstrap administrator.
  lemma DroppedIffClaimed(c: Console, read: HashReader, listed: seq<ToolBoxUser>, i: nat)
    requires i < |Ranked(c, read, listed)| && !Ranked(c, read, listed)[i].Excluded()
    ensures var rs := Ranked(c, read, listed);
            Deduplicated(rs, BootstrapName(c))[i].Excluded()
            <==> exists j :: 0 <= j < i && ToLower(rs[j].user.subject) == ToLower(rs[i].user.subject)
                             && (!rs[j].Excluded() || rs[j].user.name == BootstrapName(c))
  {
    var rs, bootstrap := Ranked(c, read, listed), BootstrapName(c);
    RankedAreResolved(c, read, listed, i);
    forall j | 0 <= j < i
      ensures Claim(rs[j], bootstrap) == Some(ToLower(rs[i].proxyUser.subject))
              <==> ToLower(rs[j].user.subject) == ToLower(rs[i].user.subject)
                   && (!rs[j].Excluded() || rs[j].user.name == bootstrap)
    {
      RankedAreResolved(c, read, listed, j);
    }
  }

  lemma EmptyKeyIsFirst(rs: seq<Resolved>, key: Resolved -> string, i: nat)
    requires SortedBy(rs, key) && i < |rs| && key(rs[i]) == ""
    ensures key(rs[0]) == ""
  {
    if i > 0 {
      assert !Less(key(rs[i]), key(rs[0]));
    }
  }

  lemma ListedIsRanked(c: Console, read: HashReader, listed: seq<ToolBoxUser>, u: ToolBoxUser) returns (i: nat)
    requires u in listed && u.consoleRef == c.name
    ensures i < |Ranked(c, read, listed)| && Ranked(c, read, listed)[i] == Resolve(c, read, u)
  {
    var rs := Ranked(c, read, listed);
    ResolveAllFrom(c, read, listed);
    SortPermutes(ResolveAll(c, read, listed), RankKey(BootstrapName(c)));
    assert Resolve(c, read, u) in multiset(rs);
    i :| 0 <= i < |rs| && rs[i] == Resolve(c, read, u);
  }

  lemma SameNameSameUser(listed: seq<ToolBoxUser>, u: ToolBoxUser, v: ToolBoxUser)
    requires UniqueNames(listed) && u in listed && v in listed && u.name == v.name
    ensures u == v && u.name != ""
  {
    var a :| 0 <= a < |listed| && listed[a] == u;
    var b :| 0 <= b < |listed| && listed[b] == v;
  }

  // The bootstrap administrator, when listed, is ranked first.
  lemma BootstrapIsFirst(c: Console, read: HashReader, listed: seq<ToolBoxUser>, admin: ToolBoxUser)
    requires UniqueNames(listed) && admin in listed && admin.name == BootstrapName(c) && admin.consoleRef == c.name
    ensures Ranked(c, read, listed) != [] && Ranked(c, read, listed)[0].user == admin
  {
    var key, rs := RankKey(BootstrapName(c)), Ranked(c, read, listed);
    var i := ListedIsRanked(c, read, listed, admin);
    SortSorts(ResolveAll(c, read, listed), key);
    EmptyKeyIsFirst(rs, key, i);
    RankedAreResolved(c, read, listed, 0);
    SameNameSameUser(listed, rs[0].user, rs[0].user);
    SameNameSameUser(listed, rs[0].user, admin);
  }

  // ------------------------------------------------------------------
  // Who answers to a subject.
  // ------------------------------------------------------------------

  // The first of the ranked users that claims a lowercased subject.
  function FirstClaimant(rs: seq<Resolved>, bootstrap: string, key: string): Option<Resolved> {
    if rs == [] then None
    else if Claim(rs[0], bootstrap) == Some(key) then Some(rs[0])
    else FirstClaimant(rs[1..], bootstrap, key)
  }

  lemma {:induction false} FirstClaimantAt(rs: seq<Resolved>, bootstrap: string, key: string) returns (i: nat)
    ensures i <= |rs| && forall j | 0 <= j < i :: Claim(rs[j], bootstrap) != Some(key)
    ensures i < |rs| ==> Claim(rs[i], bootstrap) == Some(key)
    ensures FirstClaimant(rs, bootstrap, key) == if i < |rs| then Some(rs[i]) else None
  {
    if rs == [] || Claim(rs[0], bootstrap) == Some(key) {
      i := 0;
    } else {
      var k := FirstClaimantAt(rs[1..], bootstrap, key);
      i := k + 1;
      assert forall j | 1 <= j < i :: rs[j] == rs[1..][j - 1];
    }
  }

  // A user is rendered under a subject exactly when it is the first claimant of
  // it and not an administrator that cannot be rendered.
  lemma RenderedIsFirstClaimant(rs: seq<Resolved>, bootstrap: string, key: string, u: User)
    ensures u in Rendered(Deduplicated(rs, bootstrap)) && ToLower(u.subject) == key
            <==> var first := FirstClaimant(rs, bootstrap, key);
                 first.Some? && !first.value.Excluded() && first.value.proxyUser == u
  {
    var ds := Deduplicated(rs, bootstrap);
    var i := FirstClaimantAt(rs, bootstrap, key);
    RenderedFrom(ds);
    if u in Rendered(ds) && ToLower(u.subject) == key {
      var k :| 0 <= k < |ds| && !ds[k].Excluded() && ds[k].proxyUser == u;
      IncludedIsUnclaimed(rs, bootstrap, k);
      assert Claim(rs[k], bootstrap) == Some(key);
      assert k == i;
    }
    if i < |rs| && !rs[i].Excluded() {
      FirstIsIncluded(rs, bootstrap, key, i);
      assert ds[i] == rs[i] && rs[i].proxyUser in Rendered(ds);
    }
  }

  lemma IncludedIsUnclaimed(rs: seq<Resolved>, bootstrap: string, k: nat)
    requires k < |rs| && !Decided(rs, bootstrap, k).Excluded()
    ensures Decided(rs, bootstrap, k) == rs[k]
    ensures forall j | 0 <= j < k :: Claim(rs[j], bootstrap) != Some(ToLower(rs[k].proxyUser.subject))
  {}

  lemma FirstIsIncluded(rs: seq<Resolved>, bootstrap: string, key: string, i: nat)
    requires i < |rs| && !rs[i].Excluded() && Claim(rs[i], bootstrap) == Some(key)
    requires forall j | 0 <= j < i :: Claim(rs[j], bootstrap) != Some(key)
    ensures Decided(rs, bootstrap, i) == rs[i]
  {}

  // In the runtime built from the rendered list a subject is looked up as its
  // first claimant, and as nobody when there is none or when it is an
  // administrator that cannot be rendered.
  lemma LookupIsFirstClaimant(c: Console, read: HashReader, listed: seq<ToolBoxUser>, rt: Routing.Runtime,
                              subject: string)
    requires rt.users == Routing.Index(RenderedUsers(c, read, listed))
    ensures Routing.LookupUser(rt, subject) ==
            match FirstClaimant(Ranked(c, read, listed), BootstrapName(c), ToLower(subject))
            case None => None
            case Some(first) => if first.Excluded() then None else Some(first.proxyUser)
  {
    var rs, users, key := Ranked(c, read, listed), RenderedUsers(c, read, listed), ToLower(subject);
    var first := FirstClaimant(rs, BootstrapName(c), key);
    SubjectsAreDistinct(c, read, listed);
    if Routing.LookupUser(rt, subject).Some? {
      var u := Routing.LookupUser(rt, subject).value;
      Routing.IndexAgrees(users, key, u);
      RenderedIsFirstClaimant(rs, BootstrapName(c), key, u);
    }
    if first.Some? && !first.value.Excluded() {
      Routing.IndexAgrees(users, key, first.value.proxyUser);
      RenderedIsFirstClaimant(rs, BootstrapName(c), key, first.value.proxyUser);
    }
  }

  predicate DbaOrNobody(u: Option<User>) { u.Some? ==> u.value.level == DBA }

  // Of a list, however far it lags: nobody claims the subject, or the first who
  // does has level dba or is an administrator that cannot be rendered.
  predicate SubjectIsGuarded(c: Console, read: HashReader, listed: seq<ToolBoxUser>) {
    match FirstClaimant(Ranked(c, read, listed), BootstrapName(c), ToLower(c.adminSubject))
    case None => true
    case Some(first) => first.Excluded() || first.user.level == DBA
  }

  lemma FirstClaimantIsResolved(c: Console, read: HashReader, listed: seq<ToolBoxUser>, key: string)
    ensures var first := FirstClaimant(Ranked(c, read, listed), BootstrapName(c), key);
            first.Some? ==> first.value == Resolve(c, read, first.value.user)
  {
    var i := FirstClaimantAt(Ranked(c, read, listed), BootstrapName(c), key);
    if i < |Ranked(c, read, listed)| {
      RankedAreResolved(c, read, listed, i);
    }
  }

  // Looking the administrator's subject up yields level dba, or nobody, if and
  // only if the list guards the subject.
  lemma BootstrapLookupIsDbaOrNothingIff(c: Console, read: HashReader, listed: seq<ToolBoxUser>, rt: Routing.Runtime)
    requires rt.users == Routing.Index(RenderedUsers(c, read, listed))
    ensures DbaOrNobody(Routing.LookupUser(rt, c.adminSubject)) <==> SubjectIsGuarded(c, read, listed)
  {
    LookupIsFirstClaimant(c, read, listed, rt, c.adminSubject);
    FirstClaimantIsResolved(c, read, listed, ToLower(c.adminSubject));
  }

  // An administrator as the console declares it, except perhaps for the
  // password reference, and for the case of the subject.
  predicate Administers(c: Console, u: ToolBoxUser) {
    && u.name == BootstrapName(c) && u.consoleRef == c.name
    && ToLower(u.subject) == ToLower(c.adminSubject) && u.level == DBA
  }

  // A list that shows such an administrator guards the subject.
  lemma ListedAdministratorGuards(c: Console, read: HashReader, listed: seq<ToolBoxUser>, admin: ToolBoxUser)
    requires UniqueNames(listed) && admin in listed && Administers(c, admin)
    ensures SubjectIsGuarded(c, read, listed)
  {
    BootstrapIsFirst(c, read, listed, admin);
    RankedAreResolved(c, read, listed, 0);
  }

  // Hence, whoever else is listed, a rendered user with that subject has level dba,
  lemma BootstrapSubjectIsDbaOrNothing(c: Console, read: HashReader, listed: seq<ToolBoxUser>, admin: ToolBoxUser,
                                       u: User)
    requires UniqueNames(listed) && admin in listed && Administers(c, admin)
    requires u in RenderedUsers(c, read, listed) && ToLower(u.subject) == ToLower(c.adminSubject)
    ensures u.level == DBA
  {
    var rs := Ranked(c, read, listed);
    BootstrapIsFirst(c, read, listed, admin);
    RankedAreResolved(c, read, listed, 0);
    RenderedIsFirstClaimant(rs, BootstrapName(c), ToLower(c.adminSubject), u);
  }

  // and no other object takes the subject over at a lower level.
  lemma BootstrapLookupIsDbaOrNothing(c: Console, read: HashReader, listed: seq<ToolBoxUser>, rt: Routing.Runtime,
                                      admin: ToolBoxUser)
    requires UniqueNames(listed) && admin in listed && Administers(c, admin)
    requires rt.users == Routing.Index(RenderedUsers(c, read, listed))
    ensures DbaOrNobody(Routing.LookupUser(rt, c.adminSubject))
  {
    ListedAdministratorGuards(c, read, listed, admin);
    BootstrapLookupIsDbaOrNothingIff(c, read, listed, rt);
  }

  // ------------------------------------------------------------------
  // Reads that fail.
  // ------------------------------------------------------------------

  // The same reader while the reads of some references fail.
  function Failing(read: HashReader, lost: set<SecretRef>): HashReader {
    (ref: SecretRef) => if ref in lost then ReadFailed else read(ref)
  }

  // A user that resolves only thanks to a read that now fails.
  predicate Depends(c: Console, r: Resolved, lost: set<SecretRef>) {
    !r.Excluded() && c.local && r.user.passwordRef.Some? && r.user.passwordRef.value.name != "" &&
    r.user.passwordRef.value in lost
  }

  // Who claims a subject then: a user that depends on a failing read no longer
  // claims any, unless it is the administrator.
  function Heir(c: Console, rs: seq<Resolved>, key: string, lost: set<SecretRef>): Option<Resolved> {
    if rs == [] then None
    else if Claim(rs[0], BootstrapName(c)) == Some(key) &&
            (!Depends(c, rs[0], lost) || rs[0].user.name == BootstrapName(c)) then Some(rs[0])
    else Heir(c, rs[1..], key, lost)
  }

  function Again(c: Console, read: HashReader): Resolved -> Resolved {
    (r: Resolved) => Resolve(c, read, r.user)
  }

  lemma {:induction false} ResolveAllAgain(c: Console, read: HashReader, other: HashReader, listed: seq<ToolBoxUser>)
    ensures ResolveAll(c, other, listed) == Mapped(ResolveAll(c, read, listed), Again(c, other))
  {
    if listed != [] {
      ResolveAllAgain(c, read, other, listed[..|listed| - 1]);
    }
  }

  // The ranks do not depend on what is read.
  lemma RankedAgain(c: Console, read: HashReader, other: HashReader, listed: seq<ToolBoxUser>)
    ensures Ranked(c, other, listed) == Mapped(Ranked(c, read, listed), Again(c, other))
  {
    ResolveAllAgain(c, read, other, listed);
    SortMapped(ResolveAll(c, read, listed), Again(c, other), RankKey(BootstrapName(c)));
  }

  lemma ResolveFailing(c: Console, read: HashReader, lost: set<SecretRef>, u: ToolBoxUser)
    ensures var r, r' := Resolve(c, read, u), Resolve(c, Failing(read, lost), u);
            && (r'.Excluded() <==> r.Excluded() || Depends(c, r, lost))
            && (!r'.Excluded() ==> r' == r)
            && forall key :: Claim(r', BootstrapName(c)) == Some(key)
                 <==> Claim(r, BootstrapName(c)) == Some(key)
                      && (!Depends(c, r, lost) || u.name == BootstrapName(c))
  {}

  lemma {:induction false} FirstClaimantFailing(
    c: Console, read: HashReader, lost: set<SecretRef>, rs: seq<Resolved>, key: string)
    requires forall i | 0 <= i < |rs| :: rs[i] == Resolve(c, read, rs[i].user)
    ensures var first := FirstClaimant(Mapped(rs, Again(c, Failing(read, lost))), BootstrapName(c), key);
            match Heir(c, rs, key, lost)
            case None => first == None
            case Some(heir) => first == Some(Resolve(c, Failing(read, lost), heir.user)) && heir == Resolve(c, read, heir.user)
  {
    if rs != [] {
      ResolveFailing(c, read, lost, rs[0].user);
      var failing := Mapped(rs, Again(c, Failing(read, lost)));
      assert failing[1..] == Mapped(rs[1..], Again(c, Failing(read, lost)));
      FirstClaimantFailing(c, read, lost, rs[1..], key);
    }
  }

  // While reads fail, a subject is looked up as its heir, and as nobody when
  // there is none or the heir cannot be rendered.
  lemma LookupWhileReadsFail(c: Console, read: HashReader, lost: set<SecretRef>, listed: seq<ToolBoxUser>,
                             rt: Routing.Runtime, subject: string)
    requires rt.users == Routing.Index(RenderedUsers(c, Failing(read, lost), listed))
    ensures Routing.LookupUser(rt, subject) ==
            match Heir(c, Ranked(c, read, listed), ToLower(subject), lost)
            case None => None
            case Some(heir) => if heir.Excluded() || Depends(c, heir, lost) then None else Some(heir.proxyUser)
  {
    var rs := Ranked(c, read, listed);
    LookupIsFirstClaimant(c, Failing(read, lost), listed, rt, subject);
    RankedAgain(c, read, Failing(read, lost), listed);
    forall i | 0 <= i < |rs| ensures rs[i] == Resolve(c, read, rs[i].user) {
      RankedAreResolved(c, read, listed, i);
    }
    FirstClaimantFailing(c, read, lost, rs, ToLower(subject));
    if Heir(c, rs, ToLower(subject), lost).Some? {
      ResolveFailing(c, read, lost, Heir(c, rs, ToLower(subject), lost).value.user);
    }
  }

  lemma {:induction false} IndependentFirstIsHeir(c: Console, rs: seq<Resolved>, key: string, lost: set<SecretRef>)
    ensures match FirstClaimant(rs, BootstrapName(c), key)
            case None => Heir(c, rs, key, lost) == None
            case Some(first) =>
              !Depends(c, first, lost) || first.user.name == BootstrapName(c) ==> Heir(c, rs, key, lost) == Some(first)
  {
    if rs != [] {
      IndependentFirstIsHeir(c, rs[1..], key, lost);
    }
  }

  // Nobody claims the subject; or the first who does needs none of the failing
  // reads; or another user, who needs none either, is rendered just the same.
  predicate Withstands(c: Console, rs: seq<Resolved>, key: string, lost: set<SecretRef>) {
    match FirstClaimant(rs, BootstrapName(c), key)
    case None => true
    case Some(first) =>
      || !Depends(c, first, lost)
      || (match Heir(c, rs, key, lost)
          case None => false
          case Some(heir) => !heir.Excluded() && !Depends(c, heir, lost) && heir.proxyUser == first.proxyUser)
  }

  // Failing reads leave the lookup of a subject as it was if and only if the
  // subject withstands them.
  lemma LookupUnchangedIff(c: Console, read: HashReader, lost: set<SecretRef>, listed: seq<ToolBoxUser>,
                           rt: Routing.Runtime, failing: Routing.Runtime, subject: string)
    requires rt.users == Routing.Index(RenderedUsers(c, read, listed))
    requires failing.users == Routing.Index(RenderedUsers(c, Failing(read, lost), listed))
    ensures Routing.LookupUser(failing, subject) == Routing.LookupUser(rt, subject)
            <==> Withstands(c, Ranked(c, read, listed), ToLower(subject), lost)
  {
    LookupIsFirstClaimant(c, read, listed, rt, subject);
    LookupWhileReadsFail(c, read, lost, listed, failing, subject);
    IndependentFirstIsHeir(c, Ranked(c, read, listed), ToLower(subject), lost);
  }

  // It happens: a user of level view has a password and another of level dba
  // has none, both under one subject. When the read of the password fails, the
  // reconcile goes on and renders the second one in place of the first.
  lemma FailedReadHandsSubjectOver(c: Console, read: HashReader, hash: string, ref: SecretRef)
    requires c.local && ref.name != "" && read(ref) == Hash(hash) && BootstrapName(c) !in {"a", "b"}
    ensures var a, b := ToolBoxUser("a", c.name, "s", VIEW, Some(ref)), ToolBoxUser("b", c.name, "s", DBA, None);
            && RenderedUsers(c, read, [a, b]) == [User("s", VIEW, hash)]
            && RenderedUsers(c, Failing(read, {ref}), [a, b]) == [User("s", DBA, "")]
  {
    var a, b := ToolBoxUser("a", c.name, "s", VIEW, Some(ref)), ToolBoxUser("b", c.name, "s", DBA, None);
    RankTwo(c, read, a, b);
    RankTwo(c, Failing(read, {ref}), a, b);
    var x, y := Resolve(c, read, a), Resolve(c, read, b);
    assert Claim([x, y][0], BootstrapName(c)) == Some(ToLower([x, y][1].proxyUser.subject));
    assert ClaimedBefore([x, y], BootstrapName(c), 1);
    assert Deduplicated([x, y], BootstrapName(c)) == [x, y.(exclusion := Duplicate)];
    RenderTwo(x, y.(exclusion := Duplicate));
    var x' := Resolve(c, Failing(read, {ref}), a);
    assert !ClaimedBefore([x', y], BootstrapName(c), 1);
    assert Deduplicated([x', y], BootstrapName(c)) == [x', y];
    RenderTwo(x', y);
  }

  lemma RankTwo(c: Console, read: HashReader, a: ToolBoxUser, b: ToolBoxUser)
    requires a.consoleRef == c.name && b.consoleRef == c.name
    requires Less(a.name, b.name) && BootstrapName(c) != a.name && BootstrapName(c) != b.name
    ensures Ranked(c, read, [a, b]) == [Resolve(c, read, a), Resolve(c, read, b)]
  {
    var x, y, key := Resolve(c, read, a), Resolve(c, read, b), RankKey(BootstrapName(c));
    ResolveTwo(c, read, a, b);
    assert [x, y][..1] == [x] && Sort([x, y][..1], key) == Sort([x], key);
    SortOne(x, key);
    LessAsymmetric(a.name, b.name);
    InsertAt([x], y, key, 1);
    assert [x][..1] + [y] + [x][1..] == [x, y];
  }

  lemma LessAsymmetric(a: string, b: string)
    requires Less(a, b)
    ensures !Less(b, a)
  {
    if Less(b, a) {
      LessTransitive(a, b, a);
      LessIrreflexive(a);
    }
  }

  lemma SortOne(x: Resolved, key: Resolved -> string)
    ensures Sort([x], key) == [x]
  {
    assert [x][..0] == [];
    assert Sort([x][..0], key) == [];
  }

  lemma ResolveTwo(c: Console, read: HashReader, a: ToolBoxUser, b: ToolBoxUser)
    requires a.consoleRef == c.name && b.consoleRef == c.name
    ensures ResolveAll(c, read, [a, b]) == [Resolve(c, read, a), Resolve(c, read, b)]
  {
    assert [a, b][..1] == [a] && [a][..0] == [];
    assert ResolveAll(c, read, [a]) == ResolveAll(c, read, []) + [Resolve(c, read, a)];
  }

  lemma RenderTwo(x: Resolved, y: Resolved)
    ensures Rendered([x, y])
            == (if x.Excluded() then [] else [x.proxyUser]) + (if y.Excluded() then [] else [y.proxyUser])
  {
    assert [x, y][..1] == [x] && [x][..0] == [];
    assert Rendered([x]) == Rendered([]) + if x.Excluded() then [] else [x.proxyUser];
  }

  // ------------------------------------------------------------------
  // What a rendered user is.
  // ------------------------------------------------------------------

  // A password is looked for only where local accounts are offered and the user
  // names a Secret.
  predicate NeedsPassword(c: Console, u: ToolBoxUser) {
    c.local && u.passwordRef.Some? && u.passwordRef.value.name != ""
  }

  // Why a user is left out, and what it is rendered as when it is not: its subject
  // and level as listed, and the hash that was read, if one was looked for.
  lemma ResolvedIs(c: Console, read: HashReader, u: ToolBoxUser)
    ensures var r, known := Resolve(c, read, u), u.level in {"view", "poweruser", "dba"};
            && r.user == u
            && (r.exclusion == BadLevel <==> !known)
            && (r.exclusion == PasswordNotFound <==> known && NeedsPassword(c, u) && read(u.passwordRef.value) == SecretMissing)
            && (r.exclusion == PasswordInvalid <==>
                  known && NeedsPassword(c, u) && read(u.passwordRef.value) in {SecretMalformed, ReadFailed})
            && (!r.Excluded() ==>
                  && r.proxyUser.subject == u.subject && r.proxyUser.level == u.level
                  && if NeedsPassword(c, u) then read(u.passwordRef.value) == Hash(r.proxyUser.localPasswordBcrypt)
                     else r.proxyUser.localPasswordBcrypt == "")
            && (!r.Excluded() <==> known && (NeedsPassword(c, u) ==> read(u.passwordRef.value).Hash?))
  {
    LevelsByName(u.level);
  }

  // The included among the first k.
  function IncludedUpTo(rs: seq<Resolved>, k: nat): nat
    requires k <= |rs|
  {
    if k == 0 then 0 else IncludedUpTo(rs, k - 1) + if rs[k - 1].Excluded() then 0 else 1
  }

  lemma {:induction false} IncludedOfPrefix(rs: seq<Resolved>, n: nat, k: nat)
    requires k <= n <= |rs|
    ensures IncludedUpTo(rs[..n], k) == IncludedUpTo(rs, k)
  {
    if k > 0 {
      IncludedOfPrefix(rs, n, k - 1);
    }
  }

  // The included users are rendered in order: each comes behind as many as are
  // included before it, and nobody else is rendered.
  lemma {:induction false} RenderedInOrder(rs: seq<Resolved>, k: nat)
    requires k < |rs| && !rs[k].Excluded()
    ensures |Rendered(rs)| == IncludedUpTo(rs, |rs|)
    ensures IncludedUpTo(rs, k) < |Rendered(rs)| && Rendered(rs)[IncludedUpTo(rs, k)] == rs[k].proxyUser
  {
    var last := |rs| - 1;
    RenderedCount(rs[..last]);
    IncludedOfPrefix(rs, last, last);
    if k < last {
      RenderedInOrder(rs[..last], k);
      IncludedOfPrefix(rs, last, k);
    }
  }

  lemma {:induction false} RenderedCount(rs: seq<Resolved>)
    ensures |Rendered(rs)| == IncludedUpTo(rs, |rs|)
  {
    if rs != [] {
      var last := |rs| - 1;
      RenderedCount(rs[..last]);
      IncludedOfPrefix(rs, last, last);
    }
  }

  // Who is found under a subject is somebody listed for the console, under that
  // subject, with the level listed.
  lemma LookupIsListed(c: Console, read: HashReader, listed: seq<ToolBoxUser>, rt: Routing.Runtime, subject: string)
    requires rt.users == Routing.Index(RenderedUsers(c, read, listed))
    requires Routing.LookupUser(rt, subject).Some?
    ensures exists u :: u in listed && u.consoleRef == c.name && IsFoundAs(c, read, u, subject, Routing.LookupUser(rt, subject).value)
  {
    LookupIsFirstClaimant(c, read, listed, rt, subject);
    var i := FirstClaimantAt(Ranked(c, read, listed), BootstrapName(c), ToLower(subject));
    RankedAreResolved(c, read, listed, i);
    var u := Ranked(c, read, listed)[i].user;
    ResolvedIs(c, read, u);
    assert IsFoundAs(c, read, u, subject, Routing.LookupUser(rt, subject).value);
  }

  predicate IsFoundAs(c: Console, read: HashReader, u: ToolBoxUser, subject: string, found: User) {
    && ToLower(u.subject) == ToLower(subject)
    && found.subject == u.subject && found.level == u.level && u.level in {"view", "poweruser", "dba"}
    && if NeedsPassword(c, u) then read(u.passwordRef.value) == Hash(found.localPasswordBcrypt)
       else found.localPasswordBcrypt == ""
  }

  // Once the administrator is stored as declared and listed, its subject is looked
  // up as a user of level dba if and only if its password, should it need one, can
  // be read; nobody else can stand in its place.
  lemma StoredAdminSignsInIff(c: Console, read: HashReader, before: map<string, ToolBoxUser>,
                              after: map<string, ToolBoxUser>, listed: seq<ToolBoxUser>, rt: Routing.Runtime)
    requires after == before[BootstrapName(c) := BootstrapAdmin(c)]
    requires UniqueNames(listed) && forall name | name in after :: after[name] in listed
    requires rt.users == Routing.Index(RenderedUsers(c, read, listed))
    ensures var found, needs := Routing.LookupUser(rt, c.adminSubject),
                                c.local && c.adminPasswordRef.Some? && c.adminPasswordRef.value.name != "";
            && (found.Some? <==> needs ==> read(c.adminPasswordRef.value).Hash?)
            && (found.Some? ==>
                  found.value == User(c.adminSubject, "dba", if needs then read(c.adminPasswordRef.value).hash else ""))
  {
    var admin := BootstrapAdmin(c);
    assert after[BootstrapName(c)] == admin;
    BootstrapAdminIsDeclared(c);
    BootstrapIsFirst(c, read, listed, admin);
    RankedAreResolved(c, read, listed, 0);
    ResolvedIs(c, read, admin);
    LookupIsFirstClaimant(c, read, listed, rt, c.adminSubject);
  }

  // The administrator has to be on the list: while a lagging list does not show
  // it yet, another user may be rendered under its subject at a lower level.
  lemma UnlistedBootstrapCanBeShadowed(c: Console, read: HashReader)
    ensures var other := ToolBoxUser("a", c.name, c.adminSubject, VIEW, None);
            RenderedUsers(c, read, [other]) == [User(c.adminSubject, VIEW, "")]
  {
    var r := Resolve(c, read, ToolBoxUser("a", c.name, c.adminSubject, VIEW, None));
    RankOne(c, read, r.user);
    RenderOne(r, BootstrapName(c));
  }

  lemma RankOne(c: Console, read: HashReader, u: ToolBoxUser)
    requires u.consoleRef == c.name
    ensures Ranked(c, read, [u]) == [Resolve(c, read, u)]
  {
    var r, key := Resolve(c, read, u), RankKey(BootstrapName(c));
    assert [u][..0] == [];
    assert ResolveAll(c, read, [u]) == ResolveAll(c, read, []) + [r] == [r];
    assert [r][..0] == [];
    assert Sort([r], key) == Insert(Sort([], key), r, key);
  }

  lemma RenderOne(r: Resolved, bootstrap: string)
    requires !r.Excluded()
    ensures Rendered(Deduplicated([r], bootstrap)) == [r.proxyUser]
  {
    assert Deduplicated([r], bootstrap) == [r];
    assert [r][..0] == [];
    assert Rendered([r]) == Rendered([]) + [r.proxyUser];
  }
}
