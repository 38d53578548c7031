// The proxy configuration Secret: what is rendered into it, and the session key
// it carries through reconcilers that overlap, conflict and crash.
module ProxySecret {
  import opened Text
  import opened ProxyConfig
  import CU = ConsoleUsers

  // ------------------------------------------------------------------
  // renderProxyConfig
  // ------------------------------------------------------------------

  const CONSOLE_UPSTREAM := "http://127.0.0.1:3000"
  const PGADMIN_UPSTREAM := "http://127.0.0.1:8081"

  // The spec fields the rendered file depends on. `modes` and `providersValid`
  // stand for the provider blocks and their validation.
  datatype Spec = Spec(modes: seq<string>, providersValid: bool, pgAdmin: bool, accessMinLevel: string)

  datatype Config = Config(sessionKey: string, modes: seq<string>, users: seq<User>, routes: seq<RouteConfig>)

  // Longest prefix first; an empty minimum level means dba.
  function RenderedRoutes(spec: Spec): Option<seq<RouteConfig>> {
    var console := RouteConfig("/", CONSOLE_UPSTREAM, VIEW);
    var minLevel := if spec.accessMinLevel == "" then DBA else spec.accessMinLevel;
    if !spec.pgAdmin then Some([console])
    else if !ValidLevel(minLevel) then None
    else Some([RouteConfig("/pgadmin", PGADMIN_UPSTREAM, minLevel), console])
  }

  const MIN_SECRET: nat := 16

  // The proxy's own parser, run on what was rendered.
  predicate Parses(c: Config, spec: Spec, lib: Library) {
    && |c.sessionKey| >= MIN_SECRET
    && spec.providersValid
    && Accepted(c.users, c.routes, "local" in c.modes, lib)
  }

  // None is a rendering issue. The file is identified with the configuration it
  // holds: YAML marshalling is taken to be faithful.
  function Render(spec: Spec, sessionKey: string, users: seq<User>, lib: Library): Option<Config> {
    if spec.modes == [] then None
    else
      match RenderedRoutes(spec)
      case None => None
      case Some(routes) =>
        var c := Config(sessionKey, spec.modes, users, routes);
        if Parses(c, spec, lib) then Some(c) else None
  }

  // The rendered routes are always ones the proxy accepts.
  lemma RenderedRoutesValidate(spec: Spec, lib: Library)
    requires RenderedRoutes(spec).Some? && lib.isURL(CONSOLE_UPSTREAM) && lib.isURL(PGADMIN_UPSTREAM)
    ensures RenderedRoutes(spec).value != [] && RouteProblems(WithDefaults(RenderedRoutes(spec).value), lib) == []
  {
    var routes := RenderedRoutes(spec).value;
    assert WithDefaults(routes) == routes;
    assert DistinctPrefixes(routes);
    forall i | 0 <= i < |routes| ensures RouteOk(routes[i], lib) {
      assert routes[i].pathPrefix == "/" || routes[i].pathPrefix == "/pgadmin";
      forall res | res in RESERVED ensures !Claims(routes[i].pathPrefix, res) {
        assert res == "/auth" || res == "/logout" || res == "/healthz";
        assert (res + "/")[1] == res[1] != 'p';
      }
    }
    RoutesAcceptedIff(routes, lib);
  }

  // A configuration is rendered exactly when the spec enables a provider whose
  // settings are valid, names a usable pgAdmin level, the key is long enough,
  // and no rendered user has an empty subject.
  lemma RenderSucceedsIff(
    console: CU.Console, read: CU.HashReader, listed: seq<CU.ToolBoxUser>, spec: Spec, sessionKey: string, lib: Library)
    requires CU.ReadsHashes(read, lib) && console.local == ("local" in spec.modes)
    requires lib.isURL(CONSOLE_UPSTREAM) && lib.isURL(PGADMIN_UPSTREAM)
    ensures var users := CU.RenderedUsers(console, read, listed);
            Render(spec, sessionKey, users, lib).Some?
            <==> spec.modes != [] && spec.providersValid && |sessionKey| >= 16
                 && (spec.pgAdmin ==> spec.accessMinLevel in {"", "view", "poweruser", "dba"})
                 && forall i | 0 <= i < |users| :: users[i].subject != ""
  {
    CU.RenderedUsersValidate(console, read, listed, lib);
    if RenderedRoutes(spec).Some? {
      RenderedRoutesValidate(spec, lib);
    }
  }

  // What a rendered configuration holds: the key, the users and the providers it
  // was rendered from; the console at the root, for everybody with level view; and
  // pgAdmin, when it is enabled, below a path of its own, for the level the spec
  // names, or dba when it names none.
  lemma RenderedConfigIs(spec: Spec, sessionKey: string, users: seq<User>, lib: Library)
    requires Render(spec, sessionKey, users, lib).Some?
    ensures var c := Render(spec, sessionKey, users, lib).value;
            && c.sessionKey == sessionKey && c.users == users && c.modes == spec.modes
            && |c.routes| == (if spec.pgAdmin then 2 else 1)
            && c.routes[|c.routes| - 1] == RouteConfig("/", "http://127.0.0.1:3000", "view")
            && (spec.pgAdmin && spec.accessMinLevel == "" ==>
                  c.routes[0] == RouteConfig("/pgadmin", "http://127.0.0.1:8081", "dba"))
            && (spec.pgAdmin && spec.accessMinLevel != "" ==>
                  c.routes[0] == RouteConfig("/pgadmin", "http://127.0.0.1:8081", spec.accessMinLevel))
  {}

  // ------------------------------------------------------------------
  // reconcileProxyConfigSecret
  // ------------------------------------------------------------------

  // The two keys of the Secret; an empty session key stands for a missing one.
  datatype Data = Data(file: Option<Config>, sessionKey: string)

  datatype Secret = Secret(version: nat, owned: bool, data: Data)

  // Everything one reconcile is given, the freshly drawn key included.
  datatype Inputs = Inputs(oidcIssue: bool, spec: Spec, users: seq<User>, drawn: string)

  datatype Plan =
    | Issue
    | NotOwned
    | Unchanged(file: Config)
    | CreateSecret(data: Data)
    | UpdateSecret(version: nat, data: Data)

  // From the Secret read live to the write to issue.
  function Decide(existing: Option<Secret>, inputs: Inputs, lib: Library): Plan {
    if inputs.oidcIssue then Issue
    else
      var kept := if existing.Some? then existing.value.data.sessionKey else "";
      var key := if kept == "" then inputs.drawn else kept;
      match Render(inputs.spec, key, inputs.users, lib)
      case None => Issue
      case Some(file) =>
        match existing
        case None => CreateSecret(Data(Some(file), key))
        case Some(s) =>
          if !s.owned then NotOwned
          else if s.data == Data(Some(file), key) then Unchanged(file)
          else UpdateSecret(s.version, Data(Some(file), key))
  }

  datatype Result = Checksum(file: Config) | ConfigIssue | Error

  // The decision by what is the case: an issue stops it; a Secret of somebody else
  // is an error and never written; a missing one is created; and an owned one is
  // written if and only if its file or its key differs. A stored key is kept, and
  // a drawn one only takes the place of none.
  lemma DecisionIs(existing: Option<Secret>, inputs: Inputs, lib: Library, key: string)
    requires if existing.Some? && existing.value.data.sessionKey != ""
             then key == existing.value.data.sessionKey else key == inputs.drawn
    ensures var plan, rendered := Decide(existing, inputs, lib), Render(inputs.spec, key, inputs.users, lib);
            if inputs.oidcIssue || rendered == None then plan == Issue
            else if existing == None then plan == CreateSecret(Data(rendered, key))
            else if !existing.value.owned then plan == NotOwned
            else if existing.value.data.file == rendered && existing.value.data.sessionKey == key
            then plan == Unchanged(rendered.value)
            else plan == UpdateSecret(existing.value.version, Data(rendered, key))
  {}

  // The Secret in the API server. An update carries the version it was read at
  // and is refused when another write came first; a create is refused when the
  // Secret exists.
  class SecretStore {
    var secret: Option<Secret>
    var nextVersion: nat

    method Create(data: Data) returns (ok: bool)
      modifies this
      ensures ok == old(secret).None?
      ensures ok ==> secret == Some(Secret(old(nextVersion), true, data)) && nextVersion == old(nextVersion) + 1
      ensures !ok ==> secret == old(secret) && nextVersion == old(nextVersion)
    {
      if secret.Some? {
        return false;
      }
      secret, nextVersion := Some(Secret(nextVersion, true, data)), nextVersion + 1;
      return true;
    }

    method Update(version: nat, data: Data) returns (ok: bool)
      modifies this
      ensures ok == (old(secret).Some? && old(secret).value.version == version)
      ensures ok ==> secret == Some(Secret(old(nextVersion), old(secret).value.owned, data))
                     && nextVersion == old(nextVersion) + 1
      ensures !ok ==> secret == old(secret) && nextVersion == old(nextVersion)
    {
      if secret.None? || secret.value.version != version {
        return false;
      }
      secret, nextVersion := Some(Secret(nextVersion, secret.value.owned, data)), nextVersion + 1;
      return true;
    }

    // The whole function against a Secret read earlier, which may be stale by
    // the time of the write.
    method ReconcileProxyConfigSecret(existing: Option<Secret>, inputs: Inputs, lib: Library) returns (r: Result)
      modifies this
      ensures var plan := Decide(existing, inputs, lib);
              && (plan.Issue? ==> r == ConfigIssue)
              && (plan.NotOwned? ==> r == Error)
              && (plan.Unchanged? ==> r == Checksum(plan.file))
              && (plan.CreateSecret? ==> r == if old(secret).None? then Checksum(plan.data.file.value) else Error)
              && (plan.UpdateSecret? ==>
                    r == if old(secret).Some? && old(secret).value.version == plan.version
                         then Checksum(plan.data.file.value) else Error)
              && World(secret, nextVersion, map[])
                 == Commit(World(old(secret), old(nextVersion), map[]), plan)
    {
      if inputs.oidcIssue {
        return ConfigIssue;
      }
      var sessionKey := "";
      if existing.Some? {
        sessionKey := existing.value.data.sessionKey;
      }
      if sessionKey == "" {
        sessionKey := inputs.drawn;
      }
      var rendered := Render(inputs.spec, sessionKey, inputs.users, lib);
      if rendered == None {
        return ConfigIssue;
      }
      var data := Data(rendered, sessionKey);
      if existing.Some? {
        if !existing.value.owned {
          return Error;
        }
        if existing.value.data.file == rendered && existing.value.data.sessionKey == sessionKey {
          return Checksum(rendered.value);
        }
        var updated := Update(existing.value.version, data);
        return if updated then Checksum(rendered.value) else Error;
      }
      var created := Create(data);
      return if created then Checksum(rendered.value) else Error;
    }
  }

  // ------------------------------------------------------------------
  // Interleaved reconcilers.
  // ------------------------------------------------------------------

  // A reconciler between its read and its write.
  datatype Job = Job(existing: Option<Secret>, inputs: Inputs)

  datatype World = World(secret: Option<Secret>, nextVersion: nat, jobs: map<nat, Job>)

  function Commit(w: World, plan: Plan): World {
    match plan
    case CreateSecret(data) =>
      if w.secret.None? then w.(secret := Some(Secret(w.nextVersion, true, data)), nextVersion := w.nextVersion + 1)
      else w
    case UpdateSecret(version, data) =>
      if w.secret.Some? && w.secret.value.version == version then
        w.(secret := Some(Secret(w.nextVersion, w.secret.value.owned, data)), nextVersion := w.nextVersion + 1)
      else w
    case _ => w
  }

  datatype Step =
    // reconciler `id` reads the Secret, with whatever spec and users hold now
    | Read(id: nat, inputs: Inputs)
    | Write(id: nat)
    | Crash(id: nat)
    // anybody else rewriting the file or the metadata
    | Foreign(file: Option<Config>)

  predicate Enabled(w: World, s: Step) {
    match s
    case Read(_, inputs) => inputs.drawn != ""
    case Write(id) => id in w.jobs
    case Crash(id) => id in w.jobs
    case Foreign(_) => w.secret.Some?
  }

  function Apply(w: World, s: Step, lib: Library): World
    requires Enabled(w, s)
  {
    match s
    case Read(id, inputs) => w.(jobs := w.jobs[id := Job(w.secret, inputs)])
    case Write(id) =>
      Commit(w, Decide(w.jobs[id].existing, w.jobs[id].inputs, lib)).(jobs := w.jobs - {id})
    case Crash(id) => w.(jobs := w.jobs - {id})
    case Foreign(file) =>
      var s := w.secret.value;
      w.(secret := Some(s.(version := w.nextVersion, data := s.data.(file := file))), nextVersion := w.nextVersion + 1)
  }

  ghost predicate IsRun(states: seq<World>, steps: seq<Step>, lib: Library) {
    && |states| == |steps| + 1
    && states[0] == World(None, 0, map[])
    && forall i | 0 <= i < |steps| :: Enabled(states[i], steps[i]) && states[i + 1] == Apply(states[i], steps[i], lib)
  }

  // A version is a fingerprint of the content read at it.
  ghost predicate Inv(w: World) {
    && (w.secret.Some? ==> w.secret.value.version < w.nextVersion)
    && (forall id | id in w.jobs && w.jobs[id].existing.Some? :: w.jobs[id].existing.value.version < w.nextVersion)
    && (forall id | id in w.jobs && w.jobs[id].existing.Some? && w.secret.Some? ::
          w.jobs[id].existing.value.version == w.secret.value.version ==> w.jobs[id].existing == w.secret)
    && (forall id | id in w.jobs :: w.jobs[id].inputs.drawn != "")
  }

  lemma StepKeepsInv(w: World, s: Step, lib: Library)
    requires Inv(w) && Enabled(w, s)
    ensures Inv(Apply(w, s, lib))
  {}

  predicate HoldsKey(w: World, key: string) { w.secret.Some? && w.secret.value.data.sessionKey == key }

  // A non-empty key is in a position to be replaced only by a write decided on
  // the very content that holds it, and that write carries the key over.
  lemma StepKeepsKey(w: World, s: Step, lib: Library, key: string)
    requires Inv(w) && Enabled(w, s) && key != "" && HoldsKey(w, key)
    ensures HoldsKey(Apply(w, s, lib), key)
  {}

  lemma {:induction false} RunKeepsInv(states: seq<World>, steps: seq<Step>, lib: Library, i: nat)
    requires IsRun(states, steps, lib) && i < |states|
    ensures Inv(states[i])
  {
    if i > 0 {
      RunKeepsInv(states, steps, lib, i - 1);
      StepKeepsInv(states[i - 1], steps[i - 1], lib);
    }
  }

  // Under any interleaving of reconcilers, conflicts, crashes and changes of
  // spec and users, a session key that is once stored is never replaced.
  lemma {:induction false} SessionKeyIsNeverReplaced(
    states: seq<World>, steps: seq<Step>, lib: Library, i: nat, j: nat, key: string)
    requires IsRun(states, steps, lib) && i <= j < |states|
    requires key != "" && HoldsKey(states[i], key)
    ensures HoldsKey(states[j], key)
  {
    if i < j {
      SessionKeyIsNeverReplaced(states, steps, lib, i, j - 1, key);
      RunKeepsInv(states, steps, lib, j - 1);
      StepKeepsKey(states[j - 1], steps[j - 1], lib, key);
    }
  }

  // The stored data is what these inputs render to under the stored key.
  predicate UpToDate(data: Data, inputs: Inputs, lib: Library) {
    && data.sessionKey != ""
    && data.file.Some? && data.file == Render(inputs.spec, data.sessionKey, inputs.users, lib)
  }

  // Whatever is decided on whatever was read, a write goes to no Secret of
  // somebody else, and to no version but the one that was read.
  lemma OnlyOwnedIsWritten(w: World, existing: Option<Secret>, inputs: Inputs, lib: Library)
    requires w.secret.Some? && Commit(w, Decide(existing, inputs, lib)).secret != w.secret
    ensures existing.Some? && existing.value.owned && existing.value.version == w.secret.value.version
  {}

  // A key is stored by the first write that succeeds, and it is then the one
  // the stored file was rendered with.
  lemma WriteStoresKey(w: World, inputs: Inputs, lib: Library)
    requires inputs.drawn != "" && (w.secret.Some? ==> w.secret.value.owned)
    requires !Decide(w.secret, inputs, lib).Issue?
    ensures var s := Commit(w, Decide(w.secret, inputs, lib)).secret;
            s.Some? && s.value.owned && UpToDate(s.value.data, inputs, lib) &&
            s.value.data.file.value.sessionKey == s.value.data.sessionKey
  {}

  lemma UpToDateIsUnchanged(s: Secret, inputs: Inputs, lib: Library)
    requires s.owned && UpToDate(s.data, inputs, lib) && !inputs.oidcIssue
    ensures Decide(Some(s), inputs, lib) == Unchanged(s.data.file.value)
  {}

  // Repeating a reconcile with unchanged inputs, whatever key is drawn,
  // writes nothing and yields the checksum of the same file.
  lemma RepeatWritesNothing(w: World, inputs: Inputs, drawn: string, lib: Library)
    requires inputs.drawn != "" && (w.secret.Some? ==> w.secret.value.owned)
    requires !Decide(w.secret, inputs, lib).Issue?
    ensures var stored := Commit(w, Decide(w.secret, inputs, lib)).secret;
            stored.Some? && stored.value.data.file.Some? &&
            Decide(stored, inputs.(drawn := drawn), lib) == Unchanged(stored.value.data.file.value)
  {
    WriteStoresKey(w, inputs, lib);
    UpToDateIsUnchanged(Commit(w, Decide(w.secret, inputs, lib)).secret.value, inputs.(drawn := drawn), lib);
  }
}
