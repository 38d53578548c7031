// The admin-sync sidecar: one converge loop over the pgAdmin accounts, each
// with its own credential file, its own server list and, written last, the
// revision it was provisioned with.
module AdminSync {
  import opened Text
  import opened Passfile

  // What pgAdmin's settings database holds for one server: no password.
  datatype Entry = Entry(name: string, group: string, host: string, port: int, maintenanceDB: string,
                         username: string, sslMode: string)

  function Entries(servers: seq<Server>): seq<Entry> {
    seq(|servers|, i requires 0 <= i < |servers| =>
      var s := servers[i];
      Entry(s.name, s.group, s.host, s.port, s.maintenanceDB, s.username, s.sslMode))
  }

  // Credential and revision files by storage directory, server lists by account.
  datatype Store = Store(passfiles: map<string, string>, revisions: map<string, string>,
                         loaded: map<string, seq<Entry>>, legacy: string)

  const EMPTY := Store(map[], map[], map[], "")

  // userStorageDirectory, below the storage root.
  function Directory(account: string): string {
    seq(|account|, i requires 0 <= i < |account| => if account[i] == '@' then '_' else account[i])
  }

  // strings.TrimSpace.
  predicate IsSpace(c: char) { c in " \t\n\r" || c as int == 11 || c as int == 12 }

  function TrimRight(s: string): string {
    if s != "" && IsSpace(s[|s| - 1]) then TrimRight(s[..|s| - 1]) else s
  }

  function Trim(s: string): string {
    if s != "" && IsSpace(s[0]) then Trim(s[1..]) else TrimRight(s)
  }

  // The fingerprint of a server list is the hexadecimal SHA-256 of its JSON.
  // The hash is not modelled: any function of this shape will do, and the
  // results over runs assume that the lists of the run do not collide.
  type Fingerprint = seq<Server> -> string

  ghost predicate IsFingerprint(fp: Fingerprint) {
    && (forall servers :: |fp(servers)| == 64)
    && (forall servers, i :: 0 <= i < |fp(servers)| ==> !IsSpace(fp(servers)[i]))
  }

  // appliedRevision; None is the read error.
  function Recorded(st: Store, account: string): Option<string> {
    if Directory(account) in st.revisions then Some(Trim(st.revisions[Directory(account)])) else None
  }

  // How far one attempt at an account gets. The credential file is replaced by
  // a rename, so it is old or new; a failing load-servers leaves any list
  // behind; a failing write of the revision leaves the file alone or truncated.
  datatype Attempt =
    | Completes
    | FailsPassfile
    | FailsLoad(left: seq<Entry>)
    | FailsRecord(written: Option<nat>)

  datatype Request = Request(accounts: Option<seq<string>>, servers: seq<Server>,
                             plan: string -> Attempt, legacyFails: bool)

  function WriteRevision(st: Store, account: string, content: string): Store {
    st.(revisions := st.revisions[Directory(account) := content])
  }

  // writePassfile, loadServers and recordRevision for one account.
  function Attempted(fp: Fingerprint, st: Store, account: string, servers: seq<Server>, attempt: Attempt): Store {
    if attempt.FailsPassfile? then st
    else
      var st1 := st.(passfiles := st.passfiles[Directory(account) := Contents(servers)]);
      if attempt.FailsLoad? then st1.(loaded := st1.loaded[account := attempt.left])
      else
        var st2 := st1.(loaded := st1.loaded[account := Entries(servers)]);
        var content := fp(servers) + "\n";
        match attempt
        case FailsRecord(Some(n)) => WriteRevision(st2, account, if n < |content| then content[..n] else content)
        case FailsRecord(None) => st2
        case _ => WriteRevision(st2, account, content)
  }

  // The store after a request, whether it succeeded, and the accounts it worked on.
  datatype Outcome = Outcome(store: Store, ok: bool, reloaded: seq<string>)

  function Converge(fp: Fingerprint, st: Store, accounts: seq<string>, servers: seq<Server>,
                    plan: string -> Attempt): Outcome
    decreases |accounts|
  {
    if accounts == [] then Outcome(st, true, [])
    else
      var account := accounts[0];
      if Recorded(st, account) == Some(fp(servers)) then Converge(fp, st, accounts[1..], servers, plan)
      else
        var st' := Attempted(fp, st, account, servers, plan(account));
        if !plan(account).Completes? then Outcome(st', false, [account])
        else
          var rest := Converge(fp, st', accounts[1..], servers, plan);
          rest.(reloaded := [account] + rest.reloaded)
  }

  lemma ConvergeNext(fp: Fingerprint, st: Store, accounts: seq<string>, i: nat, servers: seq<Server>,
                     plan: string -> Attempt)
    requires i < |accounts|
    ensures var account := accounts[i];
            Converge(fp, st, accounts[i..], servers, plan) ==
            if Recorded(st, account) == Some(fp(servers)) then Converge(fp, st, accounts[i + 1..], servers, plan)
            else
              var st' := Attempted(fp, st, account, servers, plan(account));
              if !plan(account).Completes? then Outcome(st', false, [account])
              else
                var rest := Converge(fp, st', accounts[i + 1..], servers, plan);
                rest.(reloaded := [account] + rest.reloaded)
  {
    assert accounts[i..][1..] == accounts[i + 1..];
  }

  // An outcome, with what was worked on before it.
  function After(before: seq<string>, o: Outcome): Outcome { o.(reloaded := before + o.reloaded) }

  lemma AfterNext(fp: Fingerprint, st: Store, accounts: seq<string>, i: nat, servers: seq<Server>,
                  plan: string -> Attempt, before: seq<string>)
    requires i < |accounts|
    ensures var account := accounts[i];
            After(before, Converge(fp, st, accounts[i..], servers, plan)) ==
            if Recorded(st, account) == Some(fp(servers)) then
              After(before, Converge(fp, st, accounts[i + 1..], servers, plan))
            else
              var st' := Attempted(fp, st, account, servers, plan(account));
              if !plan(account).Completes? then Outcome(st', false, before + [account])
              else After(before + [account], Converge(fp, st', accounts[i + 1..], servers, plan))
  {
    ConvergeNext(fp, st, accounts, i, servers, plan);
    var rest := Converge(fp, Attempted(fp, st, accounts[i], servers, plan(accounts[i])), accounts[i + 1..], servers, plan);
    assert before + ([accounts[i]] + rest.reloaded) == before + [accounts[i]] + rest.reloaded;
  }

  function Serve(fp: Fingerprint, st: Store, r: Request): Outcome {
    if r.accounts == None then Outcome(st, false, [])
    else
      var o := Converge(fp, st, r.accounts.value, r.servers, r.plan);
      if !o.ok then o
      else if r.legacyFails then o.(ok := false)
      else o.(store := o.store.(legacy := Contents(r.servers)))
  }

  // ------------------------------------------------------------------
  // The code.
  // ------------------------------------------------------------------

  class Sidecar {
    const fp: Fingerprint
    var passfiles: map<string, string>
    var revisions: map<string, string>
    var loaded: map<string, seq<Entry>>
    var legacy: string

    constructor (fp: Fingerprint)
      ensures this.fp == fp && State() == EMPTY
    {
      this.fp := fp;
      passfiles, revisions, loaded, legacy := map[], map[], map[], "";
    }

    function State(): Store
      reads this
    {
      Store(passfiles, revisions, loaded, legacy)
    }

    method WritePassfile(account: string, servers: seq<Server>, fails: bool) returns (ok: bool)
      modifies this`passfiles
      ensures ok == !fails
      ensures passfiles == if fails then old(passfiles) else old(passfiles)[Directory(account) := Contents(servers)]
    {
      var content := Render(servers);
      if fails {
        return false;
      }
      passfiles := passfiles[Directory(account) := content];
      return true;
    }

    // The server document is built entry by entry, then imported in one go.
    method LoadServers(account: string, servers: seq<Server>, attempt: Attempt) returns (ok: bool)
      modifies this`loaded
      ensures ok == !attempt.FailsLoad?
      ensures loaded == old(loaded)[account := if ok then Entries(servers) else attempt.left]
    {
      var document: seq<Entry> := [];
      for i := 0 to |servers|
        invariant document == Entries(servers)[..i]
      {
        var s := servers[i];
        document := document + [Entry(s.name, s.group, s.host, s.port, s.maintenanceDB, s.username, s.sslMode)];
      }
      assert document == Entries(servers);
      if attempt.FailsLoad? {
        loaded := loaded[account := attempt.left];
        return false;
      }
      loaded := loaded[account := document];
      return true;
    }

    method RecordRevision(account: string, revision: string, attempt: Attempt) returns (ok: bool)
      modifies this`revisions
      ensures ok == !attempt.FailsRecord?
      ensures var content := revision + "\n";
              revisions == match attempt
                           case FailsRecord(None) => old(revisions)
                           case FailsRecord(Some(n)) =>
                             old(revisions)[Directory(account) := if n < |content| then content[..n] else content]
                           case _ => old(revisions)[Directory(account) := content]
    {
      var content := revision + "\n";
      if attempt.FailsRecord? {
        if attempt.written.Some? {
          var n := attempt.written.value;
          revisions := revisions[Directory(account) := if n < |content| then content[..n] else content];
        }
        return false;
      }
      revisions := revisions[Directory(account) := content];
      return true;
    }

    // The three writes of one account, stopping at the first that fails.
    method Provision(account: string, servers: seq<Server>, desired: string, attempt: Attempt) returns (ok: bool)
      requires desired == fp(servers)
      modifies this`passfiles, this`revisions, this`loaded
      ensures ok == attempt.Completes?
      ensures State() == Attempted(fp, old(State()), account, servers, attempt)
    {
      ok := WritePassfile(account, servers, attempt.FailsPassfile?);
      if ok {
        ok := LoadServers(account, servers, attempt);
        if ok {
          ok := RecordRevision(account, desired, attempt);
        }
      }
    }

    // The body of the loop: skip an account recorded with the desired revision.
    method ConvergeAccount(account: string, servers: seq<Server>, desired: string, attempt: Attempt)
      returns (ok: bool, skipped: bool)
      requires desired == fp(servers)
      modifies this`passfiles, this`revisions, this`loaded
      ensures skipped == (Recorded(old(State()), account) == Some(fp(servers)))
      ensures ok == (skipped || attempt.Completes?)
      ensures State() == if skipped then old(State()) else Attempted(fp, old(State()), account, servers, attempt)
    {
      if Recorded(State(), account) == Some(desired) {
        return true, true;
      }
      var provisioned := Provision(account, servers, desired, attempt);
      return provisioned, false;
    }

    // The loop of apply over the accounts.
    method ConvergeAll(accounts: seq<string>, servers: seq<Server>, plan: string -> Attempt)
      returns (ok: bool, ghost reloaded: seq<string>)
      modifies this`passfiles, this`revisions, this`loaded
      ensures Outcome(State(), ok, reloaded) == Converge(fp, old(State()), accounts, servers, plan)
    {
      reloaded := [];
      var desired := fp(servers);
      ghost var whole := Converge(fp, State(), accounts, servers, plan);
      assert accounts[0..] == accounts;
      for i := 0 to |accounts|
        invariant whole == After(reloaded, Converge(fp, State(), accounts[i..], servers, plan))
      {
        AfterNext(fp, State(), accounts, i, servers, plan, reloaded);
        var converged, skipped := ConvergeAccount(accounts[i], servers, desired, plan(accounts[i]));
        if !skipped {
          reloaded := reloaded + [accounts[i]];
        }
        if !converged {
          return false, reloaded;
        }
      }
      return true, reloaded;
    }

    // apply: converge every account, then the combined file.
    method Apply(r: Request) returns (ok: bool, ghost reloaded: seq<string>)
      modifies this
      ensures Outcome(State(), ok, reloaded) == Serve(fp, old(State()), r)
    {
      reloaded := [];
      if r.accounts == None {
        return false, reloaded;
      }
      ok, reloaded := ConvergeAll(r.accounts.value, r.servers, r.plan);
      if !ok {
        return;
      }
      if r.legacyFails {
        return false, reloaded;
      }
      legacy := Render(r.servers);
    }
  }

  // ------------------------------------------------------------------
  // What one request does to one account.
  // ------------------------------------------------------------------

  predicate Holds(st: Store, account: string, servers: seq<Server>) {
    && Directory(account) in st.passfiles && st.passfiles[Directory(account)] == Contents(servers)
    && account in st.loaded && st.loaded[account] == Entries(servers)
  }

  predicate SameFor(a: Store, b: Store, account: string) {
    var d := Directory(account);
    && (d in a.passfiles <==> d in b.passfiles) && (d in a.passfiles ==> a.passfiles[d] == b.passfiles[d])
    && (d in a.revisions <==> d in b.revisions) && (d in a.revisions ==> a.revisions[d] == b.revisions[d])
    && (account in a.loaded <==> account in b.loaded) && (account in a.loaded ==> a.loaded[account] == b.loaded[account])
  }

  // Every account of the roster has a storage directory of its own.
  ghost predicate DistinctDirectories(roster: set<string>) {
    forall a, b | a in roster && b in roster && Directory(a) == Directory(b) :: a == b
  }

  lemma {:induction false} TrimKeepsSolid(s: string)
    requires forall i | 0 <= i < |s| :: !IsSpace(s[i])
    ensures Trim(s) == s && Trim(s + "\n") == s
  {
    assert (s + "\n")[..|s|] == s;
    if s == "" {
      assert Trim("\n") == Trim("\n"[1..]);
    } else {
      assert (s + "\n")[0] == s[0];
    }
  }

  // A revision file that was fully or partly written reads back as the whole
  // fingerprint, or as something too short to be one.
  lemma RevisionReadsBack(fp: Fingerprint, servers: seq<Server>, n: nat)
    requires IsFingerprint(fp)
    ensures Trim(fp(servers) + "\n") == fp(servers)
    ensures var content := fp(servers) + "\n";
            var raw := if n < |content| then content[..n] else content;
            Trim(raw) == fp(servers) || |Trim(raw)| < 64
  {
    var revision := fp(servers);
    TrimKeepsSolid(revision);
    if n <= |revision| {
      assert (revision + "\n")[..n] == revision[..n];
      TrimKeepsSolid(revision[..n]);
    }
  }

  // After a failed attempt the recorded revision is the old one, unless it is
  // no revision at all or the attempt failed after everything was in place.
  ghost predicate FailedEffect(fp: Fingerprint, before: Store, after: Store, account: string, servers: seq<Server>) {
    || Recorded(after, account) == Recorded(before, account)
    || (Recorded(after, account).Some? && |Recorded(after, account).value| < 64)
    || (Recorded(after, account) == Some(fp(servers)) && Holds(after, account, servers))
  }

  ghost predicate CompletedEffect(fp: Fingerprint, after: Store, account: string, servers: seq<Server>) {
    Recorded(after, account) == Some(fp(servers)) && Holds(after, account, servers)
  }

  lemma AttemptEffect(fp: Fingerprint, st: Store, account: string, servers: seq<Server>, attempt: Attempt)
    requires IsFingerprint(fp)
    ensures var after := Attempted(fp, st, account, servers, attempt);
            if attempt.Completes? then CompletedEffect(fp, after, account, servers)
            else FailedEffect(fp, st, after, account, servers)
  {
    RevisionReadsBack(fp, servers, if attempt.FailsRecord? && attempt.written.Some? then attempt.written.value else 0);
  }

  lemma AttemptKeepsOthers(fp: Fingerprint, st: Store, account: string, servers: seq<Server>, attempt: Attempt,
                           other: string)
    requires Directory(account) != Directory(other)
    ensures SameFor(st, Attempted(fp, st, account, servers, attempt), other)
  {
    assert account != other;
  }

  predicate FailedAt(o: Outcome, account: string) {
    !o.ok && o.reloaded != [] && o.reloaded[|o.reloaded| - 1] == account
  }

  // What a request did to one account: left it alone, brought it to the desired
  // state, or failed at it.
  ghost predicate AccountEffect(fp: Fingerprint, st: Store, accounts: seq<string>, servers: seq<Server>,
                                o: Outcome, account: string) {
    if account !in o.reloaded then
      SameFor(st, o.store, account) &&
      (o.ok && account in accounts ==> Recorded(st, account) == Some(fp(servers)))
    else
      Recorded(st, account) != Some(fp(servers)) &&
      if FailedAt(o, account) then FailedEffect(fp, st, o.store, account, servers)
      else CompletedEffect(fp, o.store, account, servers)
  }

  // After its own attempt completed, an account is not worked on again; after
  // another account's, it is as it was.
  lemma AfterCompleted(fp: Fingerprint, st: Store, st': Store, accounts: seq<string>, servers: seq<Server>,
                       rest: Outcome, account: string)
    requires accounts != [] && Recorded(st, accounts[0]) != Some(fp(servers))
    requires AccountEffect(fp, st', accounts[1..], servers, rest, account)
    requires if account == accounts[0] then CompletedEffect(fp, st', account, servers) else SameFor(st, st', account)
    ensures AccountEffect(fp, st, accounts, servers, rest.(reloaded := [accounts[0]] + rest.reloaded), account)
  {
    var o := rest.(reloaded := [accounts[0]] + rest.reloaded);
    assert rest.reloaded != [] ==> o.reloaded[|o.reloaded| - 1] == rest.reloaded[|rest.reloaded| - 1];
    assert rest.ok || rest.reloaded != [] || account == accounts[0] || account !in o.reloaded;
  }

  lemma {:induction false} ConvergeEffect(
    fp: Fingerprint, st: Store, accounts: seq<string>, servers: seq<Server>, plan: string -> Attempt,
    roster: set<string>, account: string)
    requires IsFingerprint(fp) && DistinctDirectories(roster) && account in roster
    requires forall a | a in accounts :: a in roster
    ensures AccountEffect(fp, st, accounts, servers, Converge(fp, st, accounts, servers, plan), account)
    decreases |accounts|
  {
    if accounts != [] {
      var first := accounts[0];
      ConvergeNext(fp, st, accounts, 0, servers, plan);
      assert accounts[0..] == accounts;
      assert forall a | a in accounts[1..] :: a in accounts;
      if Recorded(st, first) == Some(fp(servers)) {
        ConvergeEffect(fp, st, accounts[1..], servers, plan, roster, account);
      } else {
        var st' := Attempted(fp, st, first, servers, plan(first));
        AttemptEffect(fp, st, first, servers, plan(first));
        if first != account {
          AttemptKeepsOthers(fp, st, first, servers, plan(first), account);
        }
        if plan(first).Completes? {
          ConvergeEffect(fp, st', accounts[1..], servers, plan, roster, account);
          AfterCompleted(fp, st, st', accounts, servers, Converge(fp, st', accounts[1..], servers, plan), account);
        }
      }
    }
  }

  // A successful request leaves an account holding exactly the desired state
  // if and only if the account was not skipped or already held it. The combined
  // file always holds the desired credentials.
  lemma SuccessIsExact(fp: Fingerprint, st: Store, r: Request, roster: set<string>, account: string)
    requires IsFingerprint(fp) && DistinctDirectories(roster)
    requires r.accounts.Some? && account in r.accounts.value && (forall a | a in r.accounts.value :: a in roster)
    requires Serve(fp, st, r).ok
    ensures Holds(Serve(fp, st, r).store, account, r.servers)
            <==> Recorded(st, account) != Some(fp(r.servers)) || Holds(st, account, r.servers)
    ensures Serve(fp, st, r).store.legacy == Contents(r.servers)
  {
    ConvergeEffect(fp, st, r.accounts.value, r.servers, r.plan, roster, account);
  }

  // What an account is given by a successful request that did not skip it, field
  // by field: one entry for each server, in order, and no password among them.
  lemma LoadedFieldByField(fp: Fingerprint, st: Store, r: Request, roster: set<string>, account: string, i: nat)
    requires IsFingerprint(fp) && DistinctDirectories(roster)
    requires r.accounts.Some? && account in r.accounts.value && (forall a | a in r.accounts.value :: a in roster)
    requires Serve(fp, st, r).ok && Recorded(st, account) != Some(fp(r.servers)) && i < |r.servers|
    ensures account in Serve(fp, st, r).store.loaded
    ensures |Serve(fp, st, r).store.loaded[account]| == |r.servers|
    ensures var entry, server := Serve(fp, st, r).store.loaded[account][i], r.servers[i];
            && entry.name == server.name && entry.group == server.group
            && entry.host == server.host && entry.port == server.port
            && entry.maintenanceDB == server.maintenanceDB && entry.username == server.username
            && entry.sslMode == server.sslMode
  {
    SuccessIsExact(fp, st, r, roster, account);
  }

  // Where pgAdmin keeps an account's files: the sign of an email address is
  // replaced by an underscore, and nothing else is.
  lemma DirectoryOfAddress(local: string, domain: string)
    requires '@' !in local && '@' !in domain
    ensures Directory(local + "@" + domain) == local + "_" + domain
    ensures Directory(local) == local
  {}

  // A request succeeds only when the accounts could be listed, every attempt it
  // made completed, and the combined file was written; that file is left alone
  // otherwise, and everything is when the accounts could not be listed.
  lemma SuccessIff(fp: Fingerprint, st: Store, r: Request)
    ensures Serve(fp, st, r).ok
            <==> r.accounts.Some? && !r.legacyFails
                 && forall account | account in Serve(fp, st, r).reloaded :: r.plan(account).Completes?
    ensures !Serve(fp, st, r).ok ==> Serve(fp, st, r).store.legacy == st.legacy
    ensures r.accounts == None ==> Serve(fp, st, r) == Outcome(st, false, [])
  {
    if r.accounts.Some? {
      var o := Converge(fp, st, r.accounts.value, r.servers, r.plan);
      ConvergeKeepsLegacy(fp, st, r.accounts.value, r.servers, r.plan);
      OkIffAllComplete(fp, st, r.accounts.value, r.servers, r.plan);
    }
  }

  lemma {:induction false} ConvergeKeepsLegacy(
    fp: Fingerprint, st: Store, accounts: seq<string>, servers: seq<Server>, plan: string -> Attempt)
    ensures Converge(fp, st, accounts, servers, plan).store.legacy == st.legacy
    decreases |accounts|
  {
    if accounts != [] {
      var first := accounts[0];
      if Recorded(st, first) == Some(fp(servers)) {
        ConvergeKeepsLegacy(fp, st, accounts[1..], servers, plan);
      } else {
        ConvergeKeepsLegacy(fp, Attempted(fp, st, first, servers, plan(first)), accounts[1..], servers, plan);
      }
    }
  }

  lemma {:induction false} OkIffAllComplete(
    fp: Fingerprint, st: Store, accounts: seq<string>, servers: seq<Server>, plan: string -> Attempt)
    ensures var o := Converge(fp, st, accounts, servers, plan);
            o.ok <==> forall account | account in o.reloaded :: plan(account).Completes?
    decreases |accounts|
  {
    if accounts != [] {
      var first := accounts[0];
      if Recorded(st, first) == Some(fp(servers)) {
        OkIffAllComplete(fp, st, accounts[1..], servers, plan);
      } else if plan(first).Completes? {
        OkIffAllComplete(fp, Attempted(fp, st, first, servers, plan(first)), accounts[1..], servers, plan);
      } else {
        assert first in Converge(fp, st, accounts, servers, plan).reloaded;
      }
    }
  }

  // ------------------------------------------------------------------
  // Runs of requests.
  // ------------------------------------------------------------------

  ghost predicate IsRun(fp: Fingerprint, states: seq<Store>, requests: seq<Request>) {
    && |states| == |requests| + 1
    && states[0] == EMPTY
    && forall i | 0 <= i < |requests| :: states[i + 1] == Serve(fp, states[i], requests[i]).store
  }

  ghost predicate Within(requests: seq<Request>, roster: set<string>) {
    forall i | 0 <= i < |requests| :: OnRoster(requests[i], roster)
  }

  // The servers of the run's requests have distinct fingerprints.
  ghost predicate CollisionFree(fp: Fingerprint, requests: seq<Request>, servers: seq<Server>) {
    forall i | 0 <= i < |requests| && fp(requests[i].servers) == fp(servers) :: requests[i].servers == servers
  }

  ghost predicate OnRoster(r: Request, roster: set<string>) {
    r.accounts.Some? ==> forall a | a in r.accounts.value :: a in roster
  }

  // In request r the account was worked on, and the attempt failed after the
  // credential file was replaced.
  ghost predicate Touches(fp: Fingerprint, st: Store, r: Request, account: string) {
    FailedAt(Serve(fp, st, r), account) && !r.plan(account).FailsPassfile?
  }

  // What such an attempt left behind is, byte for byte, what `servers` wants.
  predicate LeavesAsDesired(r: Request, account: string, servers: seq<Server>) {
    && Contents(r.servers) == Contents(servers)
    && match r.plan(account)
       case FailsLoad(left) => left == Entries(servers)
       case _ => Entries(r.servers) == Entries(servers)
  }

  ghost predicate Spoils(fp: Fingerprint, st: Store, r: Request, account: string, servers: seq<Server>) {
    Touches(fp, st, r, account) && !LeavesAsDesired(r, account, servers)
  }

  // What a request of a run did to one account: whether an attempt touched it,
  // and whether that left content other than `servers` wants.
  datatype Mark = Mark(touched: bool, spoils: bool)

  ghost function Marks(fp: Fingerprint, states: seq<Store>, requests: seq<Request>, account: string,
                       servers: seq<Server>): seq<Mark>
    requires |states| == |requests| + 1
  {
    seq(|requests|, k requires 0 <= k < |requests| =>
      Mark(Touches(fp, states[k], requests[k], account), Spoils(fp, states[k], requests[k], account, servers)))
  }

  // In which states the recorded revision is that of `servers`.
  ghost function Records(fp: Fingerprint, states: seq<Store>, account: string, servers: seq<Server>): seq<bool> {
    seq(|states|, k requires 0 <= k < |states| => Recorded(states[k], account) == Some(fp(servers)))
  }

  // The recorded revision has been that of `servers` since before request j, in
  // which an attempt at another list left other content behind; no attempt has
  // touched the account since.
  predicate SpoiledSince(marks: seq<Mark>, records: seq<bool>, j: int, i: int) {
    && 0 <= j < i < |records| && |records| == |marks| + 1
    && marks[j].spoils
    && (forall k | j < k < i :: !marks[k].touched)
    && (forall k | j <= k <= i :: records[k])
  }

  ghost predicate SpoiledBy(marks: seq<Mark>, records: seq<bool>, i: int) {
    exists j :: SpoiledSince(marks, records, j, i)
  }

  lemma SpoiledCarriesOver(marks: seq<Mark>, records: seq<bool>, i: nat)
    requires i < |marks| && |records| == |marks| + 1
    requires !marks[i].touched && !marks[i].spoils && records[i] == records[i + 1]
    ensures SpoiledBy(marks, records, i + 1) <==> SpoiledBy(marks, records, i)
  {
    forall j ensures SpoiledSince(marks, records, j, i + 1) <==> SpoiledSince(marks, records, j, i) {}
    if SpoiledBy(marks, records, i + 1) {
      var j :| SpoiledSince(marks, records, j, i + 1);
      assert SpoiledSince(marks, records, j, i);
    }
    if SpoiledBy(marks, records, i) {
      var j :| SpoiledSince(marks, records, j, i);
      assert SpoiledSince(marks, records, j, i + 1);
    }
  }

  lemma SpoiledByLast(marks: seq<Mark>, records: seq<bool>, i: nat)
    requires i < |marks| && |records| == |marks| + 1
    requires marks[i].touched && records[i] && records[i + 1]
    ensures SpoiledBy(marks, records, i + 1) <==> marks[i].spoils
  {
    assert marks[i].spoils ==> SpoiledSince(marks, records, i, i + 1);
  }

  lemma NotSpoiledWhenNew(marks: seq<Mark>, records: seq<bool>, i: nat)
    requires i < |marks| && |records| == |marks| + 1 && !records[i]
    ensures !SpoiledBy(marks, records, i + 1)
  {}

  lemma NotSpoiledUnlessRecorded(marks: seq<Mark>, records: seq<bool>, i: nat)
    requires i < |records| && !records[i]
    ensures !SpoiledBy(marks, records, i)
  {}

  ghost predicate IsSpoiled(fp: Fingerprint, states: seq<Store>, requests: seq<Request>, i: int, account: string,
                            servers: seq<Server>)
    requires |states| == |requests| + 1
  {
    SpoiledBy(Marks(fp, states, requests, account, servers), Records(fp, states, account, servers), i)
  }

  // A failed attempt is made on the account as the request found it.
  lemma {:induction false} FailedAttemptIs(
    fp: Fingerprint, st: Store, accounts: seq<string>, servers: seq<Server>, plan: string -> Attempt,
    roster: set<string>, account: string) returns (before: Store)
    requires IsFingerprint(fp) && DistinctDirectories(roster) && account in roster
    requires forall a | a in accounts :: a in roster
    requires FailedAt(Converge(fp, st, accounts, servers, plan), account)
    ensures SameFor(st, before, account) && !plan(account).Completes?
    ensures Converge(fp, st, accounts, servers, plan).store == Attempted(fp, before, account, servers, plan(account))
    decreases |accounts|
  {
    var first := accounts[0];
    if Recorded(st, first) == Some(fp(servers)) {
      before := FailedAttemptIs(fp, st, accounts[1..], servers, plan, roster, account);
    } else if !plan(first).Completes? {
      before := st;
    } else {
      var st' := Attempted(fp, st, first, servers, plan(first));
      FailedLater(fp, st', accounts[1..], servers, plan, first, account);
      before := FailedAttemptIs(fp, st', accounts[1..], servers, plan, roster, account);
      OtherIsFailed(fp, st, accounts[1..], servers, plan, roster, first, account);
      SameForTransitive(st, st', before, account);
    }
  }

  lemma SameForTransitive(a: Store, b: Store, c: Store, account: string)
    requires SameFor(a, b, account) && SameFor(b, c, account)
    ensures SameFor(a, c, account)
  {}

  lemma FailedLater(fp: Fingerprint, st: Store, accounts: seq<string>, servers: seq<Server>, plan: string -> Attempt,
                    first: string, account: string)
    requires var rest := Converge(fp, st, accounts, servers, plan);
             FailedAt(rest.(reloaded := [first] + rest.reloaded), account)
    ensures FailedAt(Converge(fp, st, accounts, servers, plan), account)
  {
    NotOkIsFailed(fp, st, accounts, servers, plan);
  }

  // The account that failed is not the one whose attempt completed before it.
  lemma OtherIsFailed(fp: Fingerprint, st: Store, accounts: seq<string>, servers: seq<Server>, plan: string -> Attempt,
                      roster: set<string>, first: string, account: string)
    requires IsFingerprint(fp) && DistinctDirectories(roster) && account in roster && first in roster
    requires (forall a | a in accounts :: a in roster) && plan(first).Completes?
    requires FailedAt(Converge(fp, Attempted(fp, st, first, servers, plan(first)), accounts, servers, plan), account)
    ensures SameFor(st, Attempted(fp, st, first, servers, plan(first)), account)
  {
    AttemptEffect(fp, st, first, servers, plan(first));
    CompletedIsSkipped(fp, Attempted(fp, st, first, servers, plan(first)), accounts, servers, plan, roster, first);
    assert first != account;
    AttemptKeepsOthers(fp, st, first, servers, plan(first), account);
  }

  lemma {:induction false} NotOkIsFailed(
    fp: Fingerprint, st: Store, accounts: seq<string>, servers: seq<Server>, plan: string -> Attempt)
    ensures !Converge(fp, st, accounts, servers, plan).ok ==> Converge(fp, st, accounts, servers, plan).reloaded != []
    decreases |accounts|
  {
    if accounts != [] {
      if Recorded(st, accounts[0]) == Some(fp(servers)) {
        NotOkIsFailed(fp, st, accounts[1..], servers, plan);
      }
    }
  }

  lemma CompletedIsSkipped(
    fp: Fingerprint, st: Store, accounts: seq<string>, servers: seq<Server>, plan: string -> Attempt,
    roster: set<string>, account: string)
    requires IsFingerprint(fp) && DistinctDirectories(roster) && account in roster
    requires forall a | a in accounts :: a in roster
    requires Recorded(st, account) == Some(fp(servers))
    ensures account !in Converge(fp, st, accounts, servers, plan).reloaded
  {
    ConvergeEffect(fp, st, accounts, servers, plan, roster, account);
  }

  // What a failed attempt means for an account that is recorded with `servers`
  // afterwards: none happened past the credential file, or the recorded revision
  // is an old one and the content is what the attempt left, or the attempt was
  // at `servers` itself and wrote all of it.
  lemma FailedAttemptLeaves(fp: Fingerprint, st: Store, account: string, r: Request, servers: seq<Server>)
    requires IsFingerprint(fp) && !r.plan(account).Completes? && Recorded(st, account) != Some(fp(r.servers))
    requires fp(r.servers) == fp(servers) ==> r.servers == servers
    requires Recorded(Attempted(fp, st, account, r.servers, r.plan(account)), account) == Some(fp(servers))
    ensures var after := Attempted(fp, st, account, r.servers, r.plan(account));
            if r.plan(account).FailsPassfile? then after == st
            else if Recorded(st, account) == Some(fp(servers)) then
              Holds(after, account, servers) <==> LeavesAsDesired(r, account, servers)
            else r.servers == servers && Holds(after, account, servers)
  {
    var attempt := r.plan(account);
    RevisionReadsBack(fp, r.servers, if attempt.FailsRecord? && attempt.written.Some? then attempt.written.value else 0);
  }

  // ---- One request of a run. ----

  // The account is as before, for all this request did.
  ghost predicate Untouched(fp: Fingerprint, a: Store, b: Store, r: Request, account: string) {
    SameFor(a, b, account) && !Touches(fp, a, r, account)
  }

  // The account was left by a failed attempt while its old revision stayed.
  ghost predicate LeftBehind(fp: Fingerprint, a: Store, b: Store, r: Request, account: string, servers: seq<Server>) {
    && Touches(fp, a, r, account) && Recorded(a, account) == Some(fp(servers))
    && (Holds(b, account, servers) <==> LeavesAsDesired(r, account, servers))
  }

  // The account now truly holds what is newly recorded.
  ghost predicate NewlyHeld(fp: Fingerprint, a: Store, b: Store, account: string, servers: seq<Server>) {
    Recorded(a, account) != Some(fp(servers)) && Holds(b, account, servers)
  }

  lemma RequestLeaves(fp: Fingerprint, st: Store, r: Request, roster: set<string>, account: string, servers: seq<Server>)
    requires IsFingerprint(fp) && DistinctDirectories(roster) && account in roster && OnRoster(r, roster)
    requires fp(r.servers) == fp(servers) ==> r.servers == servers
    requires Recorded(Serve(fp, st, r).store, account) == Some(fp(servers))
    ensures var after := Serve(fp, st, r).store;
            || Untouched(fp, st, after, r, account)
            || LeftBehind(fp, st, after, r, account, servers)
            || NewlyHeld(fp, st, after, account, servers)
  {
    if r.accounts.Some? {
      var accounts, o := r.accounts.value, Converge(fp, st, r.accounts.value, r.servers, r.plan);
      ConvergeEffect(fp, st, accounts, r.servers, r.plan, roster, account);
      if account in o.reloaded && FailedAt(o, account) {
        FailedRequestLeaves(fp, st, r, roster, account, servers);
      }
    }
  }

  lemma FailedRequestLeaves(
    fp: Fingerprint, st: Store, r: Request, roster: set<string>, account: string, servers: seq<Server>)
    requires IsFingerprint(fp) && DistinctDirectories(roster) && account in roster && OnRoster(r, roster)
    requires fp(r.servers) == fp(servers) ==> r.servers == servers
    requires r.accounts.Some? && FailedAt(Converge(fp, st, r.accounts.value, r.servers, r.plan), account)
    requires Recorded(Serve(fp, st, r).store, account) == Some(fp(servers))
    ensures var after := Serve(fp, st, r).store;
            || Untouched(fp, st, after, r, account)
            || LeftBehind(fp, st, after, r, account, servers)
            || NewlyHeld(fp, st, after, account, servers)
  {
    ConvergeEffect(fp, st, r.accounts.value, r.servers, r.plan, roster, account);
    var before := FailedAttemptIs(fp, st, r.accounts.value, r.servers, r.plan, roster, account);
    FailedAttemptLeaves(fp, before, account, r, servers);
  }

  // Over every run, with failures at any write, a recorded revision tells the
  // truth if and only if no attempt at another list has spoiled the account
  // since it was recorded.
  lemma {:induction false} RecordedIsHeldIff(
    fp: Fingerprint, states: seq<Store>, requests: seq<Request>, roster: set<string>,
    i: nat, account: string, servers: seq<Server>)
    requires IsFingerprint(fp) && DistinctDirectories(roster) && account in roster
    requires IsRun(fp, states, requests) && Within(requests, roster) && i < |states|
    requires CollisionFree(fp, requests, servers)
    requires Recorded(states[i], account) == Some(fp(servers))
    ensures Holds(states[i], account, servers)
            <==> !IsSpoiled(fp, states, requests, i, account, servers)
    decreases i
  {
    if i > 0 {
      var a, b, r := states[i - 1], states[i], requests[i - 1];
      var marks, records := Marks(fp, states, requests, account, servers), Records(fp, states, account, servers);
      assert b == Serve(fp, a, r).store && OnRoster(r, roster);
      RequestLeaves(fp, a, r, roster, account, servers);
      if Untouched(fp, a, b, r, account) {
        SameForSameRecord(a, b, account);
        SameForSameContent(a, b, account, servers);
        SpoiledCarriesOver(marks, records, i - 1);
        RecordedIsHeldIff(fp, states, requests, roster, i - 1, account, servers);
      } else if LeftBehind(fp, a, b, r, account, servers) {
        SpoiledByLast(marks, records, i - 1);
      } else {
        NotSpoiledWhenNew(marks, records, i - 1);
      }
    }
  }

  lemma SameForSameRecord(a: Store, b: Store, account: string)
    requires SameFor(a, b, account)
    ensures Recorded(a, account) == Recorded(b, account)
  {}

  lemma SameForSameContent(a: Store, b: Store, account: string, servers: seq<Server>)
    requires SameFor(a, b, account)
    ensures Holds(a, account, servers) <==> Holds(b, account, servers)
  {}

  // Over every run a successful request leaves an account holding exactly the
  // desired credential file and server list if and only if the list is not the
  // account's recorded one, or no failed attempt at another list has spoiled
  // the account since that was recorded.
  lemma SuccessConverges(
    fp: Fingerprint, states: seq<Store>, requests: seq<Request>, roster: set<string>, i: nat, account: string)
    requires IsFingerprint(fp) && DistinctDirectories(roster)
    requires IsRun(fp, states, requests) && Within(requests, roster) && i < |requests|
    requires CollisionFree(fp, requests, requests[i].servers)
    requires Serve(fp, states[i], requests[i]).ok && account in requests[i].accounts.value
    ensures Holds(states[i + 1], account, requests[i].servers)
            <==> !IsSpoiled(fp, states, requests, i, account, requests[i].servers)
  {
    assert OnRoster(requests[i], roster);
    SuccessIsExact(fp, states[i], requests[i], roster, account);
    if Recorded(states[i], account) == Some(fp(requests[i].servers)) {
      RecordedIsHeldIff(fp, states, requests, roster, i, account, requests[i].servers);
    } else {
      NotSpoiledUnlessRecorded(Marks(fp, states, requests, account, requests[i].servers),
                               Records(fp, states, account, requests[i].servers), i);
    }
  }

  // The exception is real: list A is applied, an attempt at list B fails after
  // the credential file, and going back to A succeeds without repairing it.
  lemma ReturnToRecordedListSkipsRepair(fp: Fingerprint, account: string, a: seq<Server>, b: seq<Server>)
    requires IsFingerprint(fp) && fp(a) != fp(b) && Contents(a) != Contents(b)
    ensures var good := Request(Some([account]), a, _ => Completes, false);
            var bad := Request(Some([account]), b, _ => FailsLoad([]), false);
            var st1 := Serve(fp, EMPTY, good).store;
            var st2 := Serve(fp, st1, bad).store;
            Serve(fp, st2, good).ok && !Holds(Serve(fp, st2, good).store, account, a)
  {
    RevisionReadsBack(fp, a, 0);
    var good := Request(Some([account]), a, _ => Completes, false);
    var bad := Request(Some([account]), b, _ => FailsLoad([]), false);
    var st1 := Serve(fp, EMPTY, good).store;
    ServeOne(fp, EMPTY, good, account);
    ServeOne(fp, st1, bad, account);
    ServeOne(fp, Serve(fp, st1, bad).store, good, account);
  }

  lemma ServeOne(fp: Fingerprint, st: Store, r: Request, account: string)
    requires r.accounts == Some([account]) && !r.legacyFails
    ensures var attempt := r.plan(account);
            Serve(fp, st, r).store ==
            if Recorded(st, account) == Some(fp(r.servers)) then st.(legacy := Contents(r.servers))
            else if attempt.Completes? then
              Attempted(fp, st, account, r.servers, attempt).(legacy := Contents(r.servers))
            else Attempted(fp, st, account, r.servers, attempt)
    ensures Serve(fp, st, r).ok <==> Recorded(st, account) == Some(fp(r.servers)) || r.plan(account).Completes?
  {
    ConvergeNext(fp, st, [account], 0, r.servers, r.plan);
    assert [account][0..] == [account] && [account][1..] == [];
    assert forall st' :: Converge(fp, st', [], r.servers, r.plan) == Outcome(st', true, []);
  }

  // Whenever the second account is on a list, the first precedes it.
  predicate Precedes(accounts: seq<string>, first: string, second: string) {
    forall j | 0 <= j < |accounts| && accounts[j] == second :: exists i :: 0 <= i < j && accounts[i] == first
  }

  // Once the shared directory records the desired revision, no account that
  // maps to it is worked on.
  lemma {:induction false} RecordedDirectoryIsSkipped(
    fp: Fingerprint, st: Store, accounts: seq<string>, servers: seq<Server>, plan: string -> Attempt, account: string)
    requires Recorded(st, account) == Some(fp(servers))
    ensures account !in Converge(fp, st, accounts, servers, plan).reloaded
    ensures account in Converge(fp, st, accounts, servers, plan).store.loaded <==> account in st.loaded
    decreases |accounts|
  {
    if accounts != [] {
      var first := accounts[0];
      if Recorded(st, first) == Some(fp(servers)) {
        RecordedDirectoryIsSkipped(fp, st, accounts[1..], servers, plan, account);
      } else {
        var st' := Attempted(fp, st, first, servers, plan(first));
        AttemptKeepsOthers(fp, st, first, servers, plan(first), account);
        if plan(first).Completes? {
          RecordedDirectoryIsSkipped(fp, st', accounts[1..], servers, plan, account);
        }
      }
    }
  }

  lemma {:induction false} RequestStarves(
    fp: Fingerprint, st: Store, accounts: seq<string>, servers: seq<Server>, plan: string -> Attempt,
    first: string, second: string)
    requires IsFingerprint(fp) && first != second && Directory(first) == Directory(second)
    requires Precedes(accounts, first, second)
    ensures second in Converge(fp, st, accounts, servers, plan).store.loaded <==> second in st.loaded
    decreases |accounts|
  {
    if accounts != [] {
      var account, rest := accounts[0], accounts[1..];
      assert account != second;
      if Recorded(st, account) == Some(fp(servers)) {
        if account == first {
          RecordedDirectoryIsSkipped(fp, st, rest, servers, plan, second);
        } else {
          TailPrecedes(accounts, first, second);
          RequestStarves(fp, st, rest, servers, plan, first, second);
        }
      } else {
        var st' := Attempted(fp, st, account, servers, plan(account));
        AttemptEffect(fp, st, account, servers, plan(account));
        if plan(account).Completes? {
          if account == first {
            RecordedDirectoryIsSkipped(fp, st', rest, servers, plan, second);
          } else {
            TailPrecedes(accounts, first, second);
            RequestStarves(fp, st', rest, servers, plan, first, second);
          }
        }
      }
    }
  }

  lemma TailPrecedes(accounts: seq<string>, first: string, second: string)
    requires Precedes(accounts, first, second) && accounts != [] && accounts[0] != first
    ensures Precedes(accounts[1..], first, second)
  {
    forall j | 0 <= j < |accounts[1..]| && accounts[1..][j] == second
      ensures exists i :: 0 <= i < j && accounts[1..][i] == first
    {
      var i :| 0 <= i < j + 1 && accounts[i] == first;
      assert accounts[1..][i - 1] == first;
    }
  }

  // Distinct directories are needed. Of two accounts that share one, the second
  // never gets its servers, in any run whose requests list the first before it:
  // it is taken for provisioned whenever it is reached.
  lemma {:induction false} SharedDirectoryStarvesTheSecond(
    fp: Fingerprint, states: seq<Store>, requests: seq<Request>, i: nat, first: string, second: string)
    requires IsFingerprint(fp) && first != second && Directory(first) == Directory(second)
    requires IsRun(fp, states, requests) && i < |states|
    requires forall k | 0 <= k < |requests| :: ListsFirstBefore(requests[k], first, second)
    ensures second !in states[i].loaded
  {
    if i > 0 {
      SharedDirectoryStarvesTheSecond(fp, states, requests, i - 1, first, second);
      var r := requests[i - 1];
      assert ListsFirstBefore(r, first, second);
      if r.accounts.Some? {
        RequestStarves(fp, states[i - 1], r.accounts.value, r.servers, r.plan, first, second);
      }
    }
  }

  predicate ListsFirstBefore(r: Request, first: string, second: string) {
    r.accounts.Some? ==> Precedes(r.accounts.value, first, second)
  }

  // ---- Exactly the rosters the loop converges. ----

  // What a request may claim of one account after it succeeded.
  ghost predicate Delivers(fp: Fingerprint, states: seq<Store>, requests: seq<Request>, i: nat, account: string)
    requires i < |requests| && |states| == |requests| + 1
  {
    Holds(states[i + 1], account, requests[i].servers)
    <==> !IsSpoiled(fp, states, requests, i, account, requests[i].servers)
  }

  ghost predicate RunDelivers(fp: Fingerprint, states: seq<Store>, requests: seq<Request>)
    requires IsRun(fp, states, requests)
  {
    forall i, account | 0 <= i < |requests| && Succeeds(fp, states[i], requests[i], account) &&
                        CollisionFree(fp, requests, requests[i].servers) ::
      Delivers(fp, states, requests, i, account)
  }

  ghost predicate Succeeds(fp: Fingerprint, st: Store, r: Request, account: string) {
    Serve(fp, st, r).ok && account in r.accounts.value
  }

  ghost predicate RosterConverges(fp: Fingerprint, roster: set<string>) {
    forall states: seq<Store>, requests: seq<Request> | IsRun(fp, states, requests) && Within(requests, roster) ::
      RunDelivers(fp, states, requests)
  }

  // Every run over a roster delivers if and only if no two of its accounts
  // share a storage directory.
  lemma RosterConvergesIff(fp: Fingerprint, roster: set<string>)
    requires IsFingerprint(fp)
    ensures RosterConverges(fp, roster) <==> DistinctDirectories(roster)
  {
    if DistinctDirectories(roster) {
      forall states: seq<Store>, requests: seq<Request> | IsRun(fp, states, requests) && Within(requests, roster)
        ensures RunDelivers(fp, states, requests)
      {
        forall i, account | 0 <= i < |requests| && Succeeds(fp, states[i], requests[i], account) &&
                            CollisionFree(fp, requests, requests[i].servers)
          ensures Delivers(fp, states, requests, i, account)
        {
          SuccessConverges(fp, states, requests, roster, i, account);
        }
      }
    } else {
      var first, second :| first in roster && second in roster && Directory(first) == Directory(second) && first != second;
      var states, requests := StarvedRun(fp, first, second);
      assert Within(requests, roster) by {
        assert OnRoster(requests[0], roster);
      }
      assert !Delivers(fp, states, requests, 0, second);
      assert !RunDelivers(fp, states, requests);
    }
  }

  // A run of one successful request that lists both accounts.
  lemma StarvedRun(fp: Fingerprint, first: string, second: string)
    returns (states: seq<Store>, requests: seq<Request>)
    requires IsFingerprint(fp) && first != second && Directory(first) == Directory(second)
    ensures IsRun(fp, states, requests) && |requests| == 1
    ensures requests[0].accounts == Some([first, second])
    ensures Succeeds(fp, states[0], requests[0], second)
    ensures CollisionFree(fp, requests, requests[0].servers)
    ensures !Holds(states[1], second, requests[0].servers)
  {
    var r := Request(Some([first, second]), [], _ => Completes, false);
    requests := [r];
    states := [EMPTY, Serve(fp, EMPTY, r).store];
    AllComplete(fp, EMPTY, [first, second], [], r.plan);
    assert Precedes([first, second], first, second) by {
      assert [first, second][0] == first;
    }
    assert forall k | 0 <= k < |requests| :: ListsFirstBefore(requests[k], first, second);
    SharedDirectoryStarvesTheSecond(fp, states, requests, 1, first, second);
  }

  lemma {:induction false} AllComplete(
    fp: Fingerprint, st: Store, accounts: seq<string>, servers: seq<Server>, plan: string -> Attempt)
    requires forall account :: plan(account).Completes?
    ensures Converge(fp, st, accounts, servers, plan).ok
    decreases |accounts|
  {
    if accounts != [] {
      var account := accounts[0];
      if Recorded(st, account) == Some(fp(servers)) {
        AllComplete(fp, st, accounts[1..], servers, plan);
      } else {
        AllComplete(fp, Attempted(fp, st, account, servers, plan(account)), accounts[1..], servers, plan);
      }
    }
  }

  // Repeating a successful request works on no account and changes nothing.
  lemma RepeatIsIdle(fp: Fingerprint, st: Store, r: Request, again: Request, roster: set<string>)
    requires IsFingerprint(fp) && DistinctDirectories(roster) && OnRoster(r, roster)
    requires Serve(fp, st, r).ok
    requires again.accounts == r.accounts && again.servers == r.servers && !again.legacyFails
    ensures Serve(fp, Serve(fp, st, r).store, again) == Outcome(Serve(fp, st, r).store, true, [])
  {
    var st' := Serve(fp, st, r).store;
    forall account | account in r.accounts.value
      ensures Recorded(st', account) == Some(fp(r.servers))
    {
      ConvergeEffect(fp, st, r.accounts.value, r.servers, r.plan, roster, account);
    }
    AllRecordedIsIdle(fp, st', r.accounts.value, r.servers, again.plan);
  }

  lemma {:induction false} AllRecordedIsIdle(
    fp: Fingerprint, st: Store, accounts: seq<string>, servers: seq<Server>, plan: string -> Attempt)
    requires forall account | account in accounts :: Recorded(st, account) == Some(fp(servers))
    ensures Converge(fp, st, accounts, servers, plan) == Outcome(st, true, [])
  {
    if accounts != [] {
      AllRecordedIsIdle(fp, st, accounts[1..], servers, plan);
    }
  }
}
