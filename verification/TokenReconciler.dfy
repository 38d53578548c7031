// One crash-free reconcile: the code as methods over the stored objects, its
// meaning as a sequence of protocol steps, and what it converges to.
module TokenReconciler {
  import opened Text
  import opened TokenProtocol

  // ------------------------------------------------------------------
  // Meaning: the protocol steps one reconcile takes.
  // ------------------------------------------------------------------

  // The owned Secrets the collector removes from the ones listed.
  function Superseded(secrets: map<nat, Secret>, active: nat, listed: seq<nat>): set<nat> {
    set g | g in listed && g != active && g in secrets && secrets[g].owned
  }

  ghost function DeleteListed(w: World, listed: seq<nat>): World
    requires w.api.NonEmpty() && w.job.Collecting?
    decreases |listed|
  {
    if listed == [] then w
    else if Enabled(w, DeleteSuperseded(listed[0])) then
      DeleteListed(Apply(w, DeleteSuperseded(listed[0])), listed[1..])
    else DeleteListed(w, listed[1..])
  }

  lemma {:induction false} DeleteListedRemovesSuperseded(w: World, listed: seq<nat>)
    requires w.api.NonEmpty() && w.job.Collecting?
    ensures DeleteListed(w, listed) ==
            if w.job.complete then
              w.(api := w.api.(secrets := w.api.secrets - Superseded(w.api.secrets, w.job.target, listed)))
            else w
    decreases |listed|
  {
    var secrets, active := w.api.secrets, w.job.target;
    if listed == [] {
      assert secrets - Superseded(secrets, active, listed) == secrets;
    } else if Enabled(w, DeleteSuperseded(listed[0])) {
      var w' := Apply(w, DeleteSuperseded(listed[0]));
      DeleteListedRemovesSuperseded(w', listed[1..]);
      assert w'.api.secrets - Superseded(w'.api.secrets, active, listed[1..])
          == secrets - Superseded(secrets, active, listed);
    } else {
      DeleteListedRemovesSuperseded(w, listed[1..]);
      if w.job.complete {
        assert Superseded(secrets, active, listed) == Superseded(secrets, active, listed[1..]);
      }
    }
  }

  // What one reconcile is given: the cached console version it starts from, the
  // random token it would mint, the rest of the desired template, and the
  // Secret names the collector's list call returns.
  datatype Inputs = Inputs(index: nat, token: string, rest: nat, listed: seq<nat>)

  ghost predicate Ready(w: World, inputs: Inputs) {
    w.api.NonEmpty() && w.job.Idle? && w.seen <= inputs.index < |w.api.versions| && inputs.token != ""
  }

  // reconcileEvidenceToken: ends ready to deploy, or stopped by an invalid Secret.
  ghost function TokenPhase(w: World, inputs: Inputs): (w': World)
    requires Ready(w, inputs)
    ensures w'.api.NonEmpty() && (w'.job.Idle? || w'.job.Deploying?)
  {
    var w2 := Apply(Apply(w, Begin(inputs.index)), Decide);
    var w3 := if w2.job.Minting? then Apply(w2, Mint(inputs.token)) else w2;
    if w3.job.Acknowledging? then Apply(w3, Acknowledge) else w3
  }

  // The template, the collector and the published status.
  ghost function WorkloadPhase(w: World, inputs: Inputs): World
    requires w.api.NonEmpty() && w.job.Deploying?
  {
    var w5 := Apply(w, ApplyDeployment(inputs.rest));
    DeleteListedRemovesSuperseded(w5, inputs.listed);
    Apply(Apply(DeleteListed(w5, inputs.listed), FinishCollect), PublishStatus)
  }

  ghost function Reconcile(w: World, inputs: Inputs): World
    requires Ready(w, inputs)
  {
    var w' := TokenPhase(w, inputs);
    if w'.job.Idle? then w' else WorkloadPhase(w', inputs)
  }

  lemma TokenPhaseEffect(w: World, inputs: Inputs)
    requires Ready(w, inputs)
    ensures var snapshot := w.api.versions[inputs.index];
            var w1 := w.(seen := inputs.index);
            TokenPhase(w, inputs) ==
            match Resolve(snapshot, w.api.Current().token, w.api.secrets)
            case Invalid(_) => w1.(job := Idle)
            case Reuse(target) => w1.(job := Deploying(snapshot, target))
            case Create(target) =>
              var api := w.api.(secrets := Minted(w.api.secrets, target, inputs.token));
              w1.(job := Deploying(snapshot, target),
                  api := if snapshot.rotate then api.WithVersion(api.Live().(rotate := false)) else api)
  {}

  lemma WorkloadPhaseEffect(w: World, inputs: Inputs)
    requires w.api.NonEmpty() && w.job.Deploying?
    ensures var target := w.job.target;
            var api := w.api.WithTemplate(Template(target, inputs.rest));
            var secrets := if api.RolloutComplete() then api.secrets - Superseded(api.secrets, target, inputs.listed)
                           else api.secrets;
            var versions := if target == w.job.snapshot.status then api.versions
                            else api.versions + [api.Live().(status := target)];
            WorkloadPhase(w, inputs) == w.(api := api.(secrets := secrets, versions := versions), job := Idle)
  {
    DeleteListedRemovesSuperseded(Apply(w, ApplyDeployment(inputs.rest)), inputs.listed);
  }

  lemma {:induction false} DeleteListedKeepsInv(w: World, listed: seq<nat>)
    requires Inv(w) && w.job.Collecting?
    ensures Inv(DeleteListed(w, listed)) && DeleteListed(w, listed).job == w.job
    decreases |listed|
  {
    if listed != [] {
      if Enabled(w, DeleteSuperseded(listed[0])) {
        StepKeepsInv(w, DeleteSuperseded(listed[0]));
        DeleteListedKeepsInv(Apply(w, DeleteSuperseded(listed[0])), listed[1..]);
      } else {
        DeleteListedKeepsInv(w, listed[1..]);
      }
    }
  }

  lemma SnapshotPhaseKeepsInv(w: World, inputs: Inputs)
    requires Inv(w) && Ready(w, inputs)
    ensures Inv(Apply(Apply(w, Begin(inputs.index)), Decide))
  {
    BeginKeepsInv(w, inputs.index);
    DecideKeepsInv(Apply(w, Begin(inputs.index)));
  }

  lemma MintPhaseKeepsInv(w: World, token: string)
    requires Inv(w) && w.job.Minting? && token != ""
    ensures var w' := Apply(w, Mint(token));
            Inv(w') && (w'.job.Acknowledging? ==> Inv(Apply(w', Acknowledge)))
  {
    var w' := Apply(w, Mint(token));
    MintKeepsInv(w, token);
    if w'.job.Acknowledging? {
      AcknowledgeKeepsInv(w');
    }
  }

  lemma TokenPhaseKeepsInv(w: World, inputs: Inputs)
    requires Inv(w) && Ready(w, inputs)
    ensures Inv(TokenPhase(w, inputs))
  {
    SnapshotPhaseKeepsInv(w, inputs);
    var w2 := Apply(Apply(w, Begin(inputs.index)), Decide);
    if w2.job.Minting? {
      MintPhaseKeepsInv(w2, inputs.token);
    }
  }

  lemma WorkloadPhaseKeepsInv(w: World, inputs: Inputs)
    requires Inv(w) && w.job.Deploying?
    ensures Inv(WorkloadPhase(w, inputs))
  {
    var w5 := Apply(w, ApplyDeployment(inputs.rest));
    ApplyDeploymentKeepsInv(w, inputs.rest);
    var w6 := DeleteListed(w5, inputs.listed);
    DeleteListedKeepsInv(w5, inputs.listed);
    StepKeepsInv(w6, FinishCollect);
    PublishStatusKeepsInv(Apply(w6, FinishCollect));
  }

  lemma ReconcileKeepsInv(w: World, inputs: Inputs)
    requires Inv(w) && Ready(w, inputs)
    ensures Inv(Reconcile(w, inputs))
  {
    TokenPhaseKeepsInv(w, inputs);
    var w' := TokenPhase(w, inputs);
    if w'.job.Deploying? {
      WorkloadPhaseKeepsInv(w', inputs);
    }
  }

  // ------------------------------------------------------------------
  // Convergence.
  // ------------------------------------------------------------------

  // A reconcile on the current console version.
  ghost predicate OnCurrent(w: World, inputs: Inputs) {
    Ready(w, inputs) && inputs.index == |w.api.versions| - 1
  }

  // The part of the invariant a reconcile on the current version relies on.
  predicate Deployable(api: Api) {
    && api.NonEmpty()
    && api.Live().status <= api.Current().token
    && (api.Current().token > 0 ==>
          api.Current().token in api.secrets && api.secrets[api.Current().token].token != "")
  }

  predicate PublishedAndQuiet(api: Api) {
    && api.NonEmpty()
    && !api.Live().rotate
    && api.Live().status == api.Current().token > 0
  }

  ghost predicate Settled(w: World) {
    Inv(w) && w.job.Idle? && PublishedAndQuiet(w.api)
  }

  lemma InvIsDeployable(w: World)
    requires Inv(w)
    ensures Deployable(w.api)
  {
    assert w.api.Mountable(w.api.templates[|w.api.templates| - 1].token);
  }

  // With the annotation acknowledged and the status as in the snapshot, the
  // rest of the reconcile publishes what it deploys.
  lemma WorkloadPhasePublishes(w: World, inputs: Inputs)
    requires w.api.NonEmpty() && w.job.Deploying? && w.job.target > 0
    requires w.api.Live() == Console(w.job.snapshot.status, false)
    ensures var w' := WorkloadPhase(w, inputs);
            && PublishedAndQuiet(w'.api) && w'.job.Idle?
            && w'.api.Current() == Template(w.job.target, inputs.rest)
  {
    WorkloadPhaseEffect(w, inputs);
  }

  lemma QuietTokenPhase(w: World, inputs: Inputs)
    requires OnCurrent(w, inputs) && Deployable(w.api) && !w.api.Live().rotate
    ensures var w' := TokenPhase(w, inputs);
            && w'.job == Deploying(w.api.Live(), if w.api.Current().token == 0 then 1 else w.api.Current().token)
            && w'.api.versions == w.api.versions && w'.api.templates == w.api.templates
  {
    TokenPhaseEffect(w, inputs);
  }

  lemma QuietEffect(w: World, inputs: Inputs)
    requires OnCurrent(w, inputs) && Deployable(w.api) && !w.api.Live().rotate
    ensures var api := Reconcile(w, inputs).api;
            PublishedAndQuiet(api) &&
            api.Current() == Template(if w.api.Current().token == 0 then 1 else w.api.Current().token, inputs.rest)
    ensures Reconcile(w, inputs).job.Idle?
  {
    QuietTokenPhase(w, inputs);
    WorkloadPhasePublishes(TokenPhase(w, inputs), inputs);
  }

  // With no request pending, one reconcile on a current snapshot settles the
  // console: status names what the template references, and the template keeps
  // the generation it had (or gets the first one).
  lemma ReconcileSettles(w: World, inputs: Inputs)
    requires Inv(w) && OnCurrent(w, inputs) && !w.api.Live().rotate
    ensures Settled(Reconcile(w, inputs))
    ensures Reconcile(w, inputs).api.Current()
            == Template(if w.api.Current().token == 0 then 1 else w.api.Current().token, inputs.rest)
  {
    InvIsDeployable(w);
    QuietEffect(w, inputs);
    ReconcileKeepsInv(w, inputs);
  }

  lemma RotationEffect(w: World, inputs: Inputs)
    requires OnCurrent(w, inputs) && Deployable(w.api) && w.api.Live().rotate
    ensures var api, target := Reconcile(w, inputs).api, w.api.Live().status + 1;
            PublishedAndQuiet(api) && api.Current().token == target &&
            target in api.secrets &&
            api.secrets[target] == if target in w.api.secrets then w.api.secrets[target] else Secret(true, inputs.token)
    ensures Reconcile(w, inputs).job.Idle?
  {
    TokenPhaseEffect(w, inputs);
    WorkloadPhaseEffect(TokenPhase(w, inputs), inputs);
  }

  // With a request pending, one reconcile on a current snapshot acknowledges
  // it and deploys the successor of the published generation. The template
  // therefore moves exactly when it had been published: after a crash between
  // the template and the status, the pending request coalesces with the last.
  lemma ReconcileRotates(w: World, inputs: Inputs)
    requires Inv(w) && OnCurrent(w, inputs) && w.api.Live().rotate
    ensures Settled(Reconcile(w, inputs))
    ensures Reconcile(w, inputs).api.Current().token == w.api.Live().status + 1
    ensures Reconcile(w, inputs).api.Current().token > w.api.Current().token
            <==> w.api.Live().status == w.api.Current().token
    ensures w.api.Live().status + 1 !in w.api.secrets ==>
              w.api.Live().status + 1 in Reconcile(w, inputs).api.secrets &&
              Reconcile(w, inputs).api.secrets[w.api.Live().status + 1] == Secret(true, inputs.token)
  {
    InvIsDeployable(w);
    RotationEffect(w, inputs);
    ReconcileKeepsInv(w, inputs);
    assert w.api.Current().token <= w.api.Live().status + 1 by {
      assert w.api.versions[w.seen].status <= w.api.Live().status;
    }
  }

  // Whatever the rollout does meanwhile, the console stays settled.
  lemma RolloutKeepsSettled(w: World, s: Step)
    requires Settled(w) && Enabled(w, s)
    requires s.Observe? || s.StopPod? || s.StartPod? || s.ReportStatus? || s.TouchTemplate? || s.OtherConsoleWrite? ||
             s.WithdrawRotation?
    ensures Settled(Apply(w, s))
  {
    StepKeepsInv(w, s);
  }

  lemma CollectEffect(w: World, inputs: Inputs)
    requires OnCurrent(w, inputs) && Deployable(w.api) && PublishedAndQuiet(w.api)
    requires inputs.rest == w.api.Current().rest
    ensures var active := w.api.Current().token;
            Reconcile(w, inputs).api == w.api.(secrets :=
              if w.api.RolloutComplete() then w.api.secrets - Superseded(w.api.secrets, active, inputs.listed)
              else w.api.secrets)
  {
    TokenPhaseEffect(w, inputs);
    WorkloadPhaseEffect(TokenPhase(w, inputs), inputs);
  }

  // Once the rollout is complete, the next reconcile leaves the active Secret
  // and those its cached list does not show yet; so it leaves exactly the active
  // one if and only if the list shows every other.
  lemma ReconcileCollects(w: World, inputs: Inputs)
    requires Settled(w) && OnCurrent(w, inputs)
    requires w.api.RolloutComplete() && inputs.rest == w.api.Current().rest
    ensures Settled(Reconcile(w, inputs))
    ensures var api, active := Reconcile(w, inputs).api, w.api.Current().token;
            && api.templates == w.api.templates && api.versions == w.api.versions
            && api.secrets.Keys == (set g | g in w.api.secrets && (g == active || g !in inputs.listed))
            && (api.secrets.Keys == {active} <==> forall g | g in w.api.secrets && g != active :: g in inputs.listed)
  {
    InvIsDeployable(w);
    QuietEffect(w, inputs);
    CollectEffect(w, inputs);
    ReconcileKeepsInv(w, inputs);
    var active := w.api.Current().token;
    var left := set g | g in w.api.secrets && (g == active || g !in inputs.listed);
    assert w.api.secrets.Keys - Superseded(w.api.secrets, active, inputs.listed) == left;
    if left == {active} {
      assert forall g | g in w.api.secrets && g != active :: g !in left;
    }
  }

  // Of a settled console a reconcile deletes an owned Secret if and only if it is
  // listed and not the active one, and the Deployment has reported of its current
  // generation that one replica is updated and one is ready.
  lemma ReconcileDeletesIff(w: World, inputs: Inputs, g: nat)
    requires Settled(w) && OnCurrent(w, inputs) && inputs.rest == w.api.Current().rest
    requires g in w.api.secrets
    ensures var api := Reconcile(w, inputs).api;
            g !in api.secrets
            <==> g in inputs.listed && g != w.api.Current().token
                 && w.api.report.observed + 1 >= |w.api.templates|
                 && w.api.report.updated == 1 && w.api.report.ready == 1
  {
    InvIsDeployable(w);
    CollectEffect(w, inputs);
  }

  // Once the one Pod of the last template is started, the next reconcile collects
  // if and only if the report says that it is updated and ready.
  lemma StartedRolloutIsCollectedIff(w: World, id: nat, updated: nat, ready: nat, inputs: Inputs)
    requires Settled(w) && w.pods == map[] && w.view == |w.api.templates| - 1
    requires inputs.index == |w.api.versions| - 1 && inputs.token != "" && inputs.rest == w.api.Current().rest
    requires forall g | g in w.api.secrets :: g in inputs.listed
    ensures var w1 := Apply(w, StartPod(id));
            && Enabled(w1, ReportStatus(updated, ready))
            && (var w2 := Apply(w1, ReportStatus(updated, ready));
                && OnCurrent(w2, inputs)
                && Reconcile(w2, inputs).api.secrets.Keys
                   == if updated == 1 && ready == 1 then {w.api.Current().token} else w.api.secrets.Keys)
  {
    StartAndReport(w, id, updated, ready);
    ReportedRolloutIsCollectedIff(Apply(Apply(w, StartPod(id)), ReportStatus(updated, ready)), inputs, updated, ready);
  }

  lemma StartAndReport(w: World, id: nat, updated: nat, ready: nat)
    requires Settled(w) && w.pods == map[] && w.view == |w.api.templates| - 1
    ensures var w1 := Apply(w, StartPod(id));
            && Enabled(w1, ReportStatus(updated, ready))
            && (var w2 := Apply(w1, ReportStatus(updated, ready));
                Settled(w2) && w2.seen == w.seen && w2.api == w.api.(report := Report(w.view, updated, ready)))
  {
    var w1 := Apply(w, StartPod(id));
    RolloutKeepsSettled(w, StartPod(id));
    RolloutKeepsSettled(w1, ReportStatus(updated, ready));
  }

  lemma ReportedRolloutIsCollectedIff(w: World, inputs: Inputs, updated: nat, ready: nat)
    requires Settled(w) && OnCurrent(w, inputs) && inputs.rest == w.api.Current().rest
    requires w.api.report == Report(|w.api.templates| - 1, updated, ready)
    requires forall g | g in w.api.secrets :: g in inputs.listed
    ensures w.api.Current().token in w.api.secrets
    ensures Reconcile(w, inputs).api.secrets.Keys
            == if updated == 1 && ready == 1 then {w.api.Current().token} else w.api.secrets.Keys
  {
    InvIsDeployable(w);
    CollectEffect(w, inputs);
    forall g | g in w.api.secrets
      ensures g !in Reconcile(w, inputs).api.secrets <==> g != w.api.Current().token && updated == 1 && ready == 1
    {
      ReconcileDeletesIff(w, inputs, g);
    }
    if updated == 1 && ready == 1 {
      assert Reconcile(w, inputs).api.secrets.Keys == {w.api.Current().token};
    } else {
      assert Reconcile(w, inputs).api.secrets.Keys == w.api.secrets.Keys;
    }
  }

  // A Secret of somebody else is never deleted or changed, in whatever state a
  // reconcile finds the stored objects.
  lemma ForeignSecretsStay(w: World, inputs: Inputs, g: nat)
    requires Ready(w, inputs) && g in w.api.secrets && !w.api.secrets[g].owned
    ensures g in Reconcile(w, inputs).api.secrets && Reconcile(w, inputs).api.secrets[g] == w.api.secrets[g]
  {
    TokenPhaseEffect(w, inputs);
    var w' := TokenPhase(w, inputs);
    assert g in w'.api.secrets && w'.api.secrets[g] == w.api.secrets[g];
    if w'.job.Deploying? {
      WorkloadPhaseEffect(w', inputs);
    }
  }

  // What is resolved in any state of the stored objects, reachable or not. Under
  // the annotation it is the successor of the seen status. Otherwise the larger of
  // seen status and deployed generation counts: it is reused if its Secret holds
  // a token, it is an error if that is empty, and if there is none the next
  // generation takes over, never the same name again.
  lemma ResolutionIs(snapshot: Console, deployed: nat, secrets: map<nat, Secret>, latest: nat)
    requires latest >= snapshot.status && latest >= deployed && latest in {snapshot.status, deployed}
    ensures snapshot.rotate ==> Resolve(snapshot, deployed, secrets) == Create(snapshot.status + 1)
    ensures !snapshot.rotate && latest in secrets && latest > 0 && secrets[latest].token != "" ==>
              Resolve(snapshot, deployed, secrets) == Reuse(latest)
    ensures !snapshot.rotate && latest in secrets && latest > 0 && secrets[latest].token == "" ==>
              Resolve(snapshot, deployed, secrets) == Invalid(latest)
    ensures !snapshot.rotate && (latest !in secrets || latest == 0) ==>
              Resolve(snapshot, deployed, secrets) == Create(latest + 1)
  {}

  // An invalid Secret stops the reconcile before any write.
  lemma InvalidSecretStopsReconcile(w: World, inputs: Inputs)
    requires OnCurrent(w, inputs) && !w.api.Live().rotate
    requires w.api.Current().token >= w.api.Live().status && w.api.Current().token > 0
    requires w.api.Current().token in w.api.secrets && w.api.secrets[w.api.Current().token].token == ""
    ensures Reconcile(w, inputs).api == w.api
  {
    TokenPhaseEffect(w, inputs);
  }

  // A Secret that is gone is replaced by one of the next generation, and the
  // template moves to it.
  lemma MissingSecretHeals(w: World, inputs: Inputs)
    requires OnCurrent(w, inputs) && !w.api.Live().rotate
    requires w.api.Current().token >= w.api.Live().status && w.api.Current().token > 0
    requires w.api.Current().token !in w.api.secrets && w.api.Current().token + 1 !in w.api.secrets
    ensures var api, next := Reconcile(w, inputs).api, w.api.Current().token + 1;
            && api.NonEmpty() && api.Current() == Template(next, inputs.rest)
            && next in api.secrets && api.secrets[next] == Secret(true, inputs.token)
            && w.api.Current().token !in api.secrets
            && api.Live().status == next
  {
    MissingSecretMints(w, inputs);
    WorkloadPhaseEffect(TokenPhase(w, inputs), inputs);
  }

  lemma MissingSecretMints(w: World, inputs: Inputs)
    requires OnCurrent(w, inputs) && !w.api.Live().rotate
    requires w.api.Current().token >= w.api.Live().status && w.api.Current().token > 0
    requires w.api.Current().token !in w.api.secrets && w.api.Current().token + 1 !in w.api.secrets
    ensures var w', next := TokenPhase(w, inputs), w.api.Current().token + 1;
            && w'.job == Deploying(w.api.Live(), next)
            && w'.api == w.api.(secrets := w.api.secrets[next := Secret(true, inputs.token)])
  {
    TokenPhaseEffect(w, inputs);
  }

  // From then on a reconcile writes nothing at all.
  lemma SettledReconcileWritesNothing(w: World, inputs: Inputs)
    requires Settled(w) && OnCurrent(w, inputs) && inputs.rest == w.api.Current().rest
    requires w.api.secrets.Keys == {w.api.Current().token}
    ensures Reconcile(w, inputs).api == w.api
  {
    InvIsDeployable(w);
    CollectEffect(w, inputs);
    assert Superseded(w.api.secrets, w.api.Current().token, inputs.listed) == {};
    assert w.api.secrets - {} == w.api.secrets;
  }

  // ------------------------------------------------------------------
  // The code: methods over the stored objects.
  // ------------------------------------------------------------------

  class Cluster {
    var versions: seq<Console>
    var secrets: map<nat, Secret>
    var templates: seq<Template>
    var report: Report

    ghost function Stored(): Api
      reads this
    {
      Api(versions, secrets, templates, report)
    }

    // createEvidenceTokenSecret: AlreadyExists is not an error.
    method CreateEvidenceTokenSecret(generation: nat, token: string)
      modifies this`secrets
      ensures secrets == Minted(old(secrets), generation, token)
    {
      if generation !in secrets {
        secrets := secrets[generation := Secret(true, token)];
      }
    }

    // reconcileEvidenceToken: None is the error return.
    method ReconcileEvidenceToken(snapshot: Console, token: string) returns (name: Option<nat>)
      requires Stored().NonEmpty()
      modifies this`secrets, this`versions
      ensures match Resolve(snapshot, old(Stored()).Current().token, old(secrets))
              case Invalid(_) => name == None && Stored() == old(Stored())
              case Reuse(target) => name == Some(target) && Stored() == old(Stored())
              case Create(target) =>
                name == Some(target) && secrets == Minted(old(secrets), target, token) &&
                versions == (if snapshot.rotate then old(versions + [Stored().Live().(rotate := false)])
                             else old(versions))
    {
      var generation := snapshot.status;
      if !snapshot.rotate {
        var deployed := templates[|templates| - 1].token;
        if deployed > generation {
          generation := deployed;
        }
      }
      if generation == 0 {
        generation := 1;
      } else if snapshot.rotate {
        generation := generation + 1;
      } else {
        if generation in secrets {
          if secrets[generation].token == "" {
            return None;
          }
          return Some(generation);
        }
        generation := generation + 1;
      }
      CreateEvidenceTokenSecret(generation, token);
      if snapshot.rotate {
        versions := versions + [versions[|versions| - 1].(rotate := false)];
      }
      return Some(generation);
    }

    // reconcileDeployment: no write when the live template already matches.
    method ReconcileDeployment(desired: Template) returns (complete: bool)
      requires Stored().NonEmpty()
      modifies this`templates
      ensures Stored() == old(Stored()).WithTemplate(desired)
      ensures complete == Stored().RolloutComplete()
    {
      if templates[|templates| - 1] != desired {
        templates := templates + [desired];
      }
      complete := report.observed >= |templates| - 1 && report.updated == 1 && report.ready == 1;
    }

    // collectSupersededTokens: a NotFound answer to a delete is ignored.
    method CollectSupersededTokens(active: nat, complete: bool, listed: seq<nat>)
      modifies this`secrets
      ensures secrets == if complete then old(secrets) - Superseded(old(secrets), active, listed) else old(secrets)
    {
      if !complete {
        return;
      }
      for i := 0 to |listed|
        invariant secrets == old(secrets) - Superseded(old(secrets), active, listed[..i])
      {
        var item := listed[i];
        assert listed[..i + 1] == listed[..i] + [item];
        if item != active && item in secrets && secrets[item].owned {
          secrets := secrets - {item};
        }
      }
      assert listed[..|listed|] == listed;
    }

    // The token part of one whole reconcile, in the order of its writes. It
    // leaves the stored objects exactly as the protocol steps do.
    method ReconcileConsole(inputs: Inputs, ghost w: World) returns (ok: bool)
      requires Ready(w, inputs) && Stored() == w.api
      modifies this
      ensures Stored() == Reconcile(w, inputs).api
      ensures ok <==> !Resolve(old(versions)[inputs.index], old(Stored()).Current().token, old(secrets)).Invalid?
    {
      TokenPhaseEffect(w, inputs);
      var snapshot := versions[inputs.index];
      var name := ReconcileEvidenceToken(snapshot, inputs.token);
      if name == None {
        return false;
      }
      Deploy(snapshot, name.value, inputs, TokenPhase(w, inputs));
      return true;
    }

    method Deploy(snapshot: Console, active: nat, inputs: Inputs, ghost w: World)
      requires w.api.NonEmpty() && w.job == Deploying(snapshot, active) && Stored() == w.api
      modifies this
      ensures Stored() == WorkloadPhase(w, inputs).api
    {
      WorkloadPhaseEffect(w, inputs);
      var complete := ReconcileDeployment(Template(active, inputs.rest));
      CollectSupersededTokens(active, complete, inputs.listed);
      if active != snapshot.status {
        versions := versions + [versions[|versions| - 1].(status := active)];
      }
    }
  }
}
