// The evidence-token lifecycle as a state machine: one reconciler that may
// crash between any two writes and reads the console through a lagging cache,
// a user who may ask for a rotation at any time, and a Recreate rollout.
//
// Token Secrets are identified by their generation; TokenNames proves that the
// generation and the Secret name determine each other.
module TokenProtocol {

  // The console fields this protocol uses: the generation named by
  // status.evidence.tokenSecretName (0 when empty) and the rotate annotation.
  datatype Console = Console(status: nat, rotate: bool)

  // The Pod template: the token generation its evidence volume names (0 when
  // there is none) and everything else in it.
  datatype Template = Template(token: nat, rest: nat)

  datatype Secret = Secret(owned: bool, token: string)

  datatype Report = Report(observed: nat, updated: nat, ready: nat)

  // What the API server stores. Objects with a version are kept as their whole
  // history: the last console version is the live one, and the template at
  // index g is the one of metadata.generation g (index 0: no Deployment yet).
  datatype Api = Api(versions: seq<Console>, secrets: map<nat, Secret>, templates: seq<Template>, report: Report)
  {
    predicate NonEmpty() { versions != [] && templates != [] }

    function Live(): Console requires NonEmpty() { versions[|versions| - 1] }

    function Current(): Template requires NonEmpty() { templates[|templates| - 1] }

    predicate RolloutComplete() requires NonEmpty() {
      report.observed >= |templates| - 1 && report.updated == 1 && report.ready == 1
    }

    // A generation whose Secret can be mounted; 0 mounts nothing.
    predicate Mountable(token: nat) { token == 0 || token in secrets }

    function WithVersion(c: Console): Api { this.(versions := versions + [c]) }

    function WithTemplate(t: Template): Api requires NonEmpty() {
      if t == Current() then this else this.(templates := templates + [t])
    }
  }

  // The number of times the rotate annotation was set: transitions from unset
  // to set in the console's history.
  function Requests(versions: seq<Console>): nat {
    if versions == [] then 0
    else
      var before := versions[..|versions| - 1];
      Requests(before) + if Asks(before, versions[|versions| - 1]) then 1 else 0
  }

  predicate Asks(before: seq<Console>, c: Console) {
    c.rotate && (before == [] || !before[|before| - 1].rotate)
  }

  // --------------------------------------------------------------------
  // The pure part of reconcileEvidenceToken.
  // --------------------------------------------------------------------

  datatype Resolution = Reuse(target: nat) | Create(target: nat) | Invalid(generation: nat)

  function Floor(snapshot: Console, deployed: nat): nat {
    if !snapshot.rotate && deployed > snapshot.status then deployed else snapshot.status
  }

  function Resolve(snapshot: Console, deployed: nat, secrets: map<nat, Secret>): Resolution {
    var generation := Floor(snapshot, deployed);
    if generation == 0 then Create(1)
    else if snapshot.rotate then Create(generation + 1)
    else if generation !in secrets then Create(generation + 1)
    else if secrets[generation].token == "" then Invalid(generation)
    else Reuse(generation)
  }

  function Minted(secrets: map<nat, Secret>, target: nat, token: string): map<nat, Secret> {
    if target in secrets then secrets else secrets[target := Secret(true, token)]
  }

  // --------------------------------------------------------------------
  // The state machine.
  // --------------------------------------------------------------------

  // Where the running reconcile stands; the snapshot is the console it read.
  datatype Job =
    | Idle
    | Resolving(snapshot: Console)
    | Minting(snapshot: Console, target: nat)
    | Acknowledging(snapshot: Console, target: nat)
    | Deploying(snapshot: Console, target: nat)
    | Collecting(snapshot: Console, target: nat, complete: bool)
    | Publishing(snapshot: Console, target: nat)

  // `seen` is the newest console version the cache has shown, `view` the newest
  // template the Deployment controller has seen; neither ever goes back.
  // `pods` are the running Pods, `started` every template a Pod was started from.
  datatype World = World(api: Api, seen: nat, view: nat, pods: map<nat, Template>, started: set<Template>, job: Job)

  datatype Step =
    // the user, and any other writer of the console or of the template
    | AskRotation
    | WithdrawRotation
    | OtherConsoleWrite
    | TouchTemplate(rest: nat)
    // the reconciler, one step for each read or write
    | Begin(index: nat)
    | Decide
    | Mint(token: string)
    | Acknowledge
    | ApplyDeployment(rest: nat)
    | DeleteSuperseded(generation: nat)
    | FinishCollect
    | PublishStatus
    | Crash
    // the Deployment controller and the kubelet
    | Observe(index: nat)
    | StopPod(id: nat)
    | StartPod(id: nat)
    | ReportStatus(updated: nat, ready: nat)

  ghost predicate Enabled(w: World, s: Step)
    requires w.api.NonEmpty()
  {
    match s
    case AskRotation => true
    case WithdrawRotation => true
    case OtherConsoleWrite => true
    case TouchTemplate(_) => true
    case Begin(index) => w.job.Idle? && w.seen <= index < |w.api.versions|
    case Decide => w.job.Resolving?
    case Mint(token) => w.job.Minting? && token != ""
    case Acknowledge => w.job.Acknowledging?
    case ApplyDeployment(_) => w.job.Deploying?
    // The collector only deletes owned Secrets other than the active one, and
    // only when the Deployment it holds reported the rollout complete.
    case DeleteSuperseded(generation) =>
      w.job.Collecting? && w.job.complete && generation != w.job.target &&
      generation in w.api.secrets && w.api.secrets[generation].owned
    case FinishCollect => w.job.Collecting?
    case PublishStatus => w.job.Publishing?
    case Crash => !w.job.Idle?
    case Observe(index) => w.view <= index < |w.api.templates|
    case StopPod(id) => id in w.pods
    // Recreate: no Pod starts while a Pod of another template still runs.
    case StartPod(id) =>
      w.view < |w.api.templates| && id !in w.pods &&
      forall p | p in w.pods :: w.pods[p] == w.api.templates[w.view]
    // The counts may lag, but a replica is only ever counted as updated when a
    // Pod of the observed template was started.
    case ReportStatus(updated, ready) =>
      w.view < |w.api.templates| && (updated >= 1 ==> w.api.templates[w.view] in w.started)
  }

  ghost function Apply(w: World, s: Step): World
    requires w.api.NonEmpty() && Enabled(w, s)
  {
    var api := w.api;
    match s
    case AskRotation => w.(api := api.WithVersion(api.Live().(rotate := true)))
    case WithdrawRotation => w.(api := api.WithVersion(api.Live().(rotate := false)))
    case OtherConsoleWrite => w.(api := api.WithVersion(api.Live()))
    case TouchTemplate(rest) => w.(api := api.WithTemplate(api.Current().(rest := rest)))
    case Begin(index) => w.(seen := index, job := Resolving(api.versions[index]))
    case Decide =>
      // Both live reads at once: nothing but this reconciler changes what they return.
      var snapshot := w.job.snapshot;
      (match Resolve(snapshot, api.Current().token, api.secrets)
       case Reuse(target) => w.(job := Deploying(snapshot, target))
       case Create(target) => w.(job := Minting(snapshot, target))
       case Invalid(_) => w.(job := Idle))
    case Mint(token) =>
      var snapshot, target := w.job.snapshot, w.job.target;
      w.(api := api.(secrets := Minted(api.secrets, target, token)),
         job := if snapshot.rotate then Acknowledging(snapshot, target) else Deploying(snapshot, target))
    case Acknowledge =>
      w.(api := api.WithVersion(api.Live().(rotate := false)),
         job := Deploying(w.job.snapshot, w.job.target))
    case ApplyDeployment(rest) =>
      var api' := api.WithTemplate(Template(w.job.target, rest));
      w.(api := api', job := Collecting(w.job.snapshot, w.job.target, api'.RolloutComplete()))
    case DeleteSuperseded(generation) => w.(api := api.(secrets := api.secrets - {generation}))
    case FinishCollect => w.(job := Publishing(w.job.snapshot, w.job.target))
    case PublishStatus =>
      // A merge patch: the field is sent only when it differs from the snapshot.
      var api' := if w.job.target == w.job.snapshot.status then api
                  else api.WithVersion(api.Live().(status := w.job.target));
      w.(api := api', job := Idle)
    case Crash => w.(job := Idle)
    case Observe(index) => w.(view := index)
    case StopPod(id) => w.(pods := w.pods - {id})
    case StartPod(id) =>
      w.(pods := w.pods[id := api.templates[w.view]], started := w.started + {api.templates[w.view]})
    case ReportStatus(updated, ready) => w.(api := api.(report := Report(w.view, updated, ready)))
  }

  // The start of an evidence-enabled stretch: no token yet, a Deployment or none.
  ghost predicate Init(w: World) {
    && w.api.versions == [Console(0, false)] && w.seen == 0
    && w.api.templates == [Template(0, 0)] && w.view == 0
    && w.api.secrets == map[] && w.api.report == Report(0, 0, 0)
    && w.pods == map[] && w.started == {}
    && w.job == Idle
  }

  // --------------------------------------------------------------------
  // The inductive invariant.
  // --------------------------------------------------------------------

  ghost predicate HistoryInv(api: Api) {
    && api.NonEmpty()
    && (forall i, j | 0 <= i <= j < |api.versions| :: api.versions[i].status <= api.versions[j].status)
    && (forall i, j | 0 <= i <= j < |api.templates| :: api.templates[i].token <= api.templates[j].token)
    && (forall i | 0 <= i < |api.versions| && api.versions[i].rotate ::
          api.versions[i].status <= Requests(api.versions[..i + 1]))
  }

  // status <= template <= status of the newest version seen + 1
  ghost predicate OrderInv(w: World)
    requires w.api.NonEmpty()
  {
    && w.seen < |w.api.versions|
    && w.api.Live().status <= w.api.Current().token <= w.api.versions[w.seen].status + 1
  }

  ghost predicate CountInv(api: Api)
    requires api.NonEmpty()
  {
    && api.Current().token <= Requests(api.versions) + 1
    && (api.Live().rotate ==> api.Current().token <= Requests(api.versions) && 1 <= Requests(api.versions))
    && (forall g | g in api.secrets ::
          1 <= g <= Requests(api.versions) + 1 && api.secrets[g].owned && api.secrets[g].token != "")
  }

  // Every template a Pod may still be started from, and every running Pod, has its Secret.
  ghost predicate MountInv(w: World)
    requires w.api.NonEmpty()
  {
    && w.view < |w.api.templates|
    && (forall i | w.view <= i < |w.api.templates| :: w.api.Mountable(w.api.templates[i].token))
    && (forall p | p in w.pods :: w.api.Mountable(w.pods[p].token))
  }

  ghost predicate RolloutInv(w: World)
    requires w.api.NonEmpty() && w.view < |w.api.templates|
  {
    && (forall p | p in w.pods :: w.pods[p] in w.started)
    && (forall t, p | t in w.started && p in w.pods :: t.token <= w.pods[p].token)
    && (forall t | t in w.started :: t.token <= w.api.templates[w.view].token)
    && w.api.report.observed <= w.view
    && (w.api.report.updated >= 1 ==> w.api.templates[w.api.report.observed] in w.started)
  }

  ghost predicate TargetInv(w: World, snapshot: Console, target: nat)
    requires w.api.NonEmpty() && w.seen < |w.api.versions|
  {
    && snapshot == w.api.versions[w.seen]
    && 1 <= target <= Requests(w.api.versions) + 1
    && w.api.Current().token <= target <= snapshot.status + 1
  }

  ghost predicate SettledAsk(w: World, target: nat)
    requires w.api.NonEmpty()
  {
    w.api.Live().rotate ==> target <= Requests(w.api.versions)
  }

  ghost predicate JobInv(w: World)
    requires w.api.NonEmpty() && w.seen < |w.api.versions| && w.view < |w.api.templates|
  {
    match w.job
    case Idle => true
    case Resolving(snapshot) => snapshot == w.api.versions[w.seen]
    case Minting(snapshot, target) =>
      TargetInv(w, snapshot, target) && (!snapshot.rotate ==> SettledAsk(w, target))
    case Acknowledging(snapshot, target) =>
      TargetInv(w, snapshot, target) && snapshot.rotate && target in w.api.secrets
    case Deploying(snapshot, target) =>
      TargetInv(w, snapshot, target) && target in w.api.secrets && SettledAsk(w, target)
    case Collecting(snapshot, target, complete) =>
      TargetInv(w, snapshot, target) && target in w.api.secrets && w.api.Current().token == target &&
      (complete ==> w.api.templates[w.view].token == target &&
                    forall p | p in w.pods :: w.pods[p].token == target)
    case Publishing(snapshot, target) =>
      TargetInv(w, snapshot, target) && w.api.Current().token == target
  }

  ghost predicate Inv(w: World) {
    && HistoryInv(w.api) && OrderInv(w) && CountInv(w.api) && MountInv(w) && RolloutInv(w) && JobInv(w)
  }

  lemma InitInv(w: World)
    requires Init(w)
    ensures Inv(w)
  {}

  // --------------------------------------------------------------------
  // Each step keeps the invariant.
  // --------------------------------------------------------------------

  lemma AppendVersion(versions: seq<Console>, c: Console)
    ensures Requests(versions + [c]) == Requests(versions) + if Asks(versions, c) then 1 else 0
  {
    assert (versions + [c])[..|versions|] == versions;
  }

  lemma {:induction false} RequestsGrow(versions: seq<Console>, n: nat)
    requires n <= |versions|
    ensures Requests(versions[..n]) <= Requests(versions)
  {
    if n == |versions| {
      assert versions[..n] == versions;
    } else {
      var before := versions[..|versions| - 1];
      RequestsGrow(before, n);
      assert before[..n] == versions[..n];
    }
  }

  // A new console version keeps the history invariant when its status does not
  // go back and it does not claim more rotations than were asked for.
  lemma VersionKeepsHistory(api: Api, c: Console)
    requires HistoryInv(api)
    requires api.Live().status <= c.status
    requires c.rotate ==> c.status <= Requests(api.versions + [c])
    ensures HistoryInv(api.WithVersion(c))
  {
    var api' := api.WithVersion(c);
    forall i | 0 <= i < |api'.versions| && api'.versions[i].rotate
      ensures api'.versions[i].status <= Requests(api'.versions[..i + 1])
    {
      if i < |api.versions| {
        assert api'.versions[..i + 1] == api.versions[..i + 1];
        assert api'.versions[i] == api.versions[i];
      } else {
        assert api'.versions[..i + 1] == api.versions + [c];
      }
    }
  }

  lemma VersionKeepsCount(api: Api, c: Console)
    requires api.NonEmpty() && CountInv(api)
    requires c.rotate ==> api.Current().token <= Requests(api.versions + [c])
    requires c.rotate ==> 1 <= Requests(api.versions + [c])
    ensures CountInv(api.WithVersion(c))
  {
    AppendVersion(api.versions, c);
  }

  lemma VersionKeepsMount(w: World, c: Console, job: Job)
    requires w.api.NonEmpty() && MountInv(w) && RolloutInv(w)
    ensures var w' := w.(api := w.api.WithVersion(c), job := job); MountInv(w') && RolloutInv(w')
  {
    var api' := w.api.WithVersion(c);
    assert forall g | w.api.Mountable(g) :: api'.Mountable(g);
  }

  // A console write moves nothing else, so only the clauses about the live
  // console and the number of requests are at stake.
  lemma ConsoleWriteKeepsInv(w: World, c: Console, job: Job)
    requires Inv(w)
    requires w.api.Live().status <= c.status <= w.api.Current().token
    requires c.rotate ==> w.api.Current().token <= Requests(w.api.versions + [c])
    requires c.rotate ==> 1 <= Requests(w.api.versions + [c])
    requires var w' := w.(api := w.api.WithVersion(c), job := job);
             w'.api.versions[w.seen] == w.api.versions[w.seen] && JobInv(w')
    ensures Inv(w.(api := w.api.WithVersion(c), job := job))
  {
    var w' := w.(api := w.api.WithVersion(c), job := job);
    VersionKeepsHistory(w.api, c);
    VersionKeepsCount(w.api, c);
    VersionKeepsMount(w, c, job);
    assert OrderInv(w');
  }

  lemma AskRotationKeepsInv(w: World)
    requires Inv(w)
    ensures Inv(Apply(w, AskRotation))
  {
    var c := w.api.Live().(rotate := true);
    AppendVersion(w.api.versions, c);
    ConsoleWriteKeepsInv(w, c, w.job);
  }

  lemma WithdrawRotationKeepsInv(w: World)
    requires Inv(w)
    ensures Inv(Apply(w, WithdrawRotation))
  {
    var c := w.api.Live().(rotate := false);
    AppendVersion(w.api.versions, c);
    ConsoleWriteKeepsInv(w, c, w.job);
  }

  lemma OtherConsoleWriteKeepsInv(w: World)
    requires Inv(w)
    ensures Inv(Apply(w, OtherConsoleWrite))
  {
    AppendVersion(w.api.versions, w.api.Live());
    ConsoleWriteKeepsInv(w, w.api.Live(), w.job);
  }

  lemma AcknowledgeKeepsInv(w: World)
    requires Inv(w) && w.job.Acknowledging?
    ensures Inv(Apply(w, Acknowledge))
  {
    var c := w.api.Live().(rotate := false);
    AppendVersion(w.api.versions, c);
    ConsoleWriteKeepsInv(w, c, Deploying(w.job.snapshot, w.job.target));
  }

  lemma PublishStatusKeepsInv(w: World)
    requires Inv(w) && w.job.Publishing?
    ensures Inv(Apply(w, PublishStatus))
  {
    if w.job.target != w.job.snapshot.status {
      var c := w.api.Live().(status := w.job.target);
      AppendVersion(w.api.versions, c);
      ConsoleWriteKeepsInv(w, c, Idle);
    }
  }

  lemma BeginKeepsInv(w: World, index: nat)
    requires Inv(w) && Enabled(w, Begin(index))
    ensures Inv(Apply(w, Begin(index)))
  {
    assert w.api.versions[w.seen].status <= w.api.versions[index].status;
  }

  lemma JobMoveKeepsInv(w: World, job: Job)
    requires Inv(w) && JobInv(w.(job := job))
    ensures Inv(w.(job := job))
  {}

  // What a reconcile resolves in any reachable state: the successor of the
  // published generation while it sees the annotation, and otherwise the one
  // the template references, which is never missing and never invalid.
  lemma ResolutionInRun(w: World, snapshot: Console)
    requires HistoryInv(w.api) && OrderInv(w) && CountInv(w.api) && MountInv(w)
    requires snapshot == w.api.versions[w.seen]
    ensures var current := w.api.Current().token;
            Resolve(snapshot, current, w.api.secrets) ==
            if snapshot.rotate then Create(snapshot.status + 1)
            else if current == 0 then Create(1)
            else Reuse(current)
  {
    assert snapshot.status <= w.api.Live().status;
    assert w.api.Mountable(w.api.templates[|w.api.templates| - 1].token);
  }

  lemma RotationTarget(w: World, snapshot: Console)
    requires HistoryInv(w.api) && OrderInv(w) && snapshot == w.api.versions[w.seen] && snapshot.rotate
    ensures TargetInv(w, snapshot, snapshot.status + 1)
  {
    RequestsGrow(w.api.versions, w.seen + 1);
  }

  lemma DecideKeepsInv(w: World)
    requires Inv(w) && Enabled(w, Decide)
    ensures Inv(Apply(w, Decide))
  {
    var snapshot := w.job.snapshot;
    ResolutionInRun(w, snapshot);
    assert snapshot.status <= w.api.Live().status;
    if snapshot.rotate {
      RotationTarget(w, snapshot);
      JobMoveKeepsInv(w, Minting(snapshot, snapshot.status + 1));
    } else if w.api.Current().token == 0 {
      JobMoveKeepsInv(w, Minting(snapshot, 1));
    } else {
      assert w.api.Mountable(w.api.templates[|w.api.templates| - 1].token);
      JobMoveKeepsInv(w, Deploying(snapshot, w.api.Current().token));
    }
  }

  lemma MoreSecretsKeepMount(w: World, secrets: map<nat, Secret>)
    requires w.api.NonEmpty() && MountInv(w) && w.api.secrets.Keys <= secrets.Keys
    ensures MountInv(w.(api := w.api.(secrets := secrets)))
  {
    assert forall g | w.api.Mountable(g) :: w.api.(secrets := secrets).Mountable(g);
  }

  lemma MintKeepsJob(w: World, token: string)
    requires w.api.NonEmpty() && w.seen < |w.api.versions| && w.view < |w.api.templates|
    requires CountInv(w.api) && JobInv(w) && Enabled(w, Mint(token))
    ensures CountInv(Apply(w, Mint(token)).api) && JobInv(Apply(w, Mint(token)))
  {}

  lemma MintKeepsInv(w: World, token: string)
    requires Inv(w) && Enabled(w, Mint(token))
    ensures Inv(Apply(w, Mint(token)))
  {
    var w' := Apply(w, Mint(token));
    MoreSecretsKeepMount(w, w'.api.secrets);
    MintKeepsJob(w, token);
    assert OrderInv(w') && RolloutInv(w');
  }

  // The collector runs only when every Pod, and every template a Pod may still
  // be started from, names the active generation.
  lemma DeleteKeepsMount(w: World, generation: nat)
    requires HistoryInv(w.api) && OrderInv(w) && MountInv(w) && JobInv(w)
    requires Enabled(w, DeleteSuperseded(generation))
    ensures MountInv(Apply(w, DeleteSuperseded(generation)))
  {
    forall i | w.view <= i < |w.api.templates|
      ensures w.api.templates[i].token == w.job.target
    {
      assert w.api.templates[w.view].token <= w.api.templates[i].token <= w.api.Current().token;
    }
  }

  lemma DeleteKeepsInv(w: World, generation: nat)
    requires Inv(w) && Enabled(w, DeleteSuperseded(generation))
    ensures Inv(Apply(w, DeleteSuperseded(generation)))
  {
    DeleteKeepsMount(w, generation);
    var w' := Apply(w, DeleteSuperseded(generation));
    assert OrderInv(w') && CountInv(w'.api) && RolloutInv(w');
    assert JobInv(w');
  }

  lemma TemplateKeepsHistory(api: Api, t: Template)
    requires HistoryInv(api) && api.Current().token <= t.token
    ensures HistoryInv(api.WithTemplate(t))
    ensures api.WithTemplate(t).Current() == t
  {}

  lemma TemplateKeepsOrder(w: World, t: Template)
    requires HistoryInv(w.api) && OrderInv(w) && CountInv(w.api) && w.job.Deploying? && t.token == w.job.target
    requires TargetInv(w, w.job.snapshot, w.job.target) && SettledAsk(w, w.job.target)
    ensures var w' := w.(api := w.api.WithTemplate(t));
            w'.api.NonEmpty() && OrderInv(w') && CountInv(w'.api) && TargetInv(w', w.job.snapshot, w.job.target)
  {}

  lemma TemplateKeepsRollout(w: World, t: Template)
    requires Inv(w) && w.api.Current().token <= t.token && w.api.Mountable(t.token)
    ensures var w' := w.(api := w.api.WithTemplate(t)); MountInv(w') && RolloutInv(w')
  {
    var w' := w.(api := w.api.WithTemplate(t));
    assert forall i | 0 <= i < |w.api.templates| :: w'.api.templates[i] == w.api.templates[i];
  }

  // When the report covers the current template, a Pod of it was started, and
  // no Pod mounts anything older than a started template.
  lemma CompleteRolloutIsUniform(w: World)
    requires w.api.NonEmpty() && HistoryInv(w.api) && w.view < |w.api.templates| && RolloutInv(w)
    requires w.api.RolloutComplete()
    ensures w.api.templates[w.view] == w.api.Current()
    ensures forall p | p in w.pods :: w.pods[p].token == w.api.Current().token
  {
    assert w.api.Current() in w.started;
  }

  lemma CollectingIsSound(w: World, snapshot: Console, target: nat)
    requires HistoryInv(w.api) && OrderInv(w) && CountInv(w.api) && MountInv(w) && RolloutInv(w)
    requires TargetInv(w, snapshot, target) && target in w.api.secrets && w.api.Current().token == target
    ensures Inv(w.(job := Collecting(snapshot, target, w.api.RolloutComplete())))
  {
    if w.api.RolloutComplete() {
      CompleteRolloutIsUniform(w);
    }
  }

  lemma ApplyDeploymentKeepsInv(w: World, rest: nat)
    requires Inv(w) && w.job.Deploying?
    ensures Inv(Apply(w, ApplyDeployment(rest)))
  {
    var t := Template(w.job.target, rest);
    var w' := w.(api := w.api.WithTemplate(t));
    TemplateKeepsHistory(w.api, t);
    TemplateKeepsRollout(w, t);
    TemplateKeepsOrder(w, t);
    CollectingIsSound(w', w.job.snapshot, w.job.target);
  }

  lemma TouchTemplateKeepsInv(w: World, rest: nat)
    requires Inv(w) && Enabled(w, TouchTemplate(rest))
    ensures Inv(Apply(w, TouchTemplate(rest)))
  {
    var t := w.api.Current().(rest := rest);
    assert w.api.Mountable(w.api.templates[|w.api.templates| - 1].token);
    TemplateKeepsHistory(w.api, t);
    TemplateKeepsRollout(w, t);
    assert w.api.WithTemplate(t).templates[w.view] == w.api.templates[w.view];
  }

  lemma ObserveKeepsInv(w: World, index: nat)
    requires Inv(w) && Enabled(w, Observe(index))
    ensures Inv(Apply(w, Observe(index)))
  {
    assert w.api.templates[w.view].token <= w.api.templates[index].token <= w.api.Current().token;
  }

  lemma StopPodKeepsInv(w: World, id: nat)
    requires Inv(w) && id in w.pods
    ensures Inv(Apply(w, StopPod(id)))
  {}

  lemma StartPodKeepsRollout(w: World, id: nat)
    requires HistoryInv(w.api) && MountInv(w) && RolloutInv(w) && Enabled(w, StartPod(id))
    ensures var w' := Apply(w, StartPod(id));
            w'.api.NonEmpty() && MountInv(w') && RolloutInv(w')
  {
    var t, w' := w.api.templates[w.view], Apply(w, StartPod(id));
    assert forall p | p in w'.pods :: w'.pods[p] == t;
    assert w.api.Mountable(t.token);
  }

  lemma StartPodKeepsInv(w: World, id: nat)
    requires Inv(w) && Enabled(w, StartPod(id))
    ensures Inv(Apply(w, StartPod(id)))
  {
    StartPodKeepsRollout(w, id);
    var w' := Apply(w, StartPod(id));
    assert forall p | p in w'.pods :: w'.pods[p] == w.api.templates[w.view];
    assert JobInv(w');
  }

  lemma ReportStatusKeepsInv(w: World, updated: nat, ready: nat)
    requires Inv(w) && Enabled(w, ReportStatus(updated, ready))
    ensures Inv(Apply(w, ReportStatus(updated, ready)))
  {
    var w' := Apply(w, ReportStatus(updated, ready));
    assert forall g | w.api.Mountable(g) :: w'.api.Mountable(g);
    assert OrderInv(w') && CountInv(w'.api);
    assert MountInv(w') && RolloutInv(w');
    assert JobInv(w');
  }

  lemma StepKeepsInv(w: World, s: Step)
    requires Inv(w) && Enabled(w, s)
    ensures Inv(Apply(w, s))
  {
    match s
    case AskRotation => AskRotationKeepsInv(w);
    case WithdrawRotation => WithdrawRotationKeepsInv(w);
    case OtherConsoleWrite => OtherConsoleWriteKeepsInv(w);
    case TouchTemplate(rest) => TouchTemplateKeepsInv(w, rest);
    case Begin(index) => BeginKeepsInv(w, index);
    case Decide => DecideKeepsInv(w);
    case Mint(token) => MintKeepsInv(w, token);
    case Acknowledge => AcknowledgeKeepsInv(w);
    case ApplyDeployment(rest) => ApplyDeploymentKeepsInv(w, rest);
    case DeleteSuperseded(generation) => DeleteKeepsInv(w, generation);
    case FinishCollect => JobMoveKeepsInv(w, Publishing(w.job.snapshot, w.job.target));
    case Crash => JobMoveKeepsInv(w, Idle);
    case PublishStatus => PublishStatusKeepsInv(w);
    case Observe(index) => ObserveKeepsInv(w, index);
    case StopPod(id) => StopPodKeepsInv(w, id);
    case StartPod(id) => StartPodKeepsInv(w, id);
    case ReportStatus(updated, ready) => ReportStatusKeepsInv(w, updated, ready);
  }
}
