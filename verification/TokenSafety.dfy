// What holds over every run of the token protocol.
module TokenSafety {
  import opened TokenProtocol

  ghost predicate Follows(w: World, s: Step, w': World) {
    w.api.NonEmpty() && Enabled(w, s) && w' == Apply(w, s)
  }

  ghost predicate IsRun(states: seq<World>, steps: seq<Step>) {
    && |states| == |steps| + 1
    && Init(states[0])
    && forall i | 0 <= i < |steps| :: Follows(states[i], steps[i], states[i + 1])
  }

  lemma FollowsKeepsInv(w: World, s: Step, w': World)
    requires Inv(w) && Follows(w, s, w')
    ensures Inv(w')
  {
    StepKeepsInv(w, s);
  }

  lemma {:induction false} RunKeepsInv(states: seq<World>, steps: seq<Step>, i: nat)
    requires IsRun(states, steps) && i < |states|
    ensures Inv(states[i])
  {
    if i == 0 {
      InitInv(states[0]);
    } else {
      RunKeepsInv(states, steps, i - 1);
      FollowsKeepsInv(states[i - 1], steps[i - 1], states[i]);
    }
  }

  // ---- The template never rolls back. ----

  lemma {:induction false} HistoriesGrow(states: seq<World>, steps: seq<Step>, i: nat, j: nat)
    requires IsRun(states, steps) && i <= j < |states|
    ensures states[i].api.templates <= states[j].api.templates
    ensures states[i].api.versions <= states[j].api.versions
    decreases j
  {
    if i < j {
      HistoriesGrow(states, steps, i, j - 1);
      assert Follows(states[j - 1], steps[j - 1], states[j]);
    }
  }

  // Whatever is interleaved, the generation in the Deployment template never
  // decreases, and it stays within one of the newest status the cache has shown.
  lemma TemplateNeverRollsBack(states: seq<World>, steps: seq<Step>, i: nat, j: nat)
    requires IsRun(states, steps) && i <= j < |states|
    ensures states[i].api.NonEmpty() && states[j].api.NonEmpty() && states[j].seen < |states[j].api.versions|
    ensures states[i].api.Current().token <= states[j].api.Current().token
    ensures states[j].api.Live().status <= states[j].api.Current().token
            <= states[j].api.versions[states[j].seen].status + 1
  {
    RunKeepsInv(states, steps, i);
    RunKeepsInv(states, steps, j);
    HistoriesGrow(states, steps, i, j);
    var last := |states[i].api.templates| - 1;
    assert states[j].api.templates[last] == states[i].api.Current();
  }

  // ---- One annotation mints at most one successor. ----

  function Asked(steps: seq<Step>): nat {
    if steps == [] then 0
    else Asked(steps[..|steps| - 1]) + if steps[|steps| - 1].AskRotation? then 1 else 0
  }

  // Only the user's own step can count as a request.
  lemma StepAsks(w: World, s: Step, w': World)
    requires Follows(w, s, w')
    ensures Requests(w'.api.versions) <= Requests(w.api.versions) + if s.AskRotation? then 1 else 0
  {
    var live := w.api.Live();
    match s
    case AskRotation => AppendVersion(w.api.versions, live.(rotate := true));
    case WithdrawRotation => AppendVersion(w.api.versions, live.(rotate := false));
    case OtherConsoleWrite => AppendVersion(w.api.versions, live);
    case Acknowledge => AppendVersion(w.api.versions, live.(rotate := false));
    case PublishStatus => AppendVersion(w.api.versions, live.(status := w.job.target));
    case _ => assert w'.api.versions == w.api.versions;
  }

  lemma {:induction false} RequestsAreAsked(states: seq<World>, steps: seq<Step>, i: nat)
    requires IsRun(states, steps) && i < |states|
    ensures Requests(states[i].api.versions) <= Asked(steps[..i])
  {
    if i == 0 {
      assert Requests([Console(0, false)]) == Requests([]);
    } else {
      RequestsAreAsked(states, steps, i - 1);
      StepAsks(states[i - 1], steps[i - 1], states[i]);
      assert steps[..i][..i - 1] == steps[..i - 1];
    }
  }

  // However many reconciles, stale reads and crash re-runs see the annotation,
  // the highest generation that ever exists is one more than the times it was set.
  lemma MintedAtMostOncePerRequest(states: seq<World>, steps: seq<Step>, i: nat, generation: nat)
    requires IsRun(states, steps) && i < |states|
    requires generation in states[i].api.secrets
    ensures 1 <= generation <= 1 + Asked(steps[..i])
  {
    RunKeepsInv(states, steps, i);
    RequestsAreAsked(states, steps, i);
  }

  // ---- The collector is safe. ----

  // In every reachable state the generation named by the template, and the one
  // mounted by each running Pod, is a live Secret.
  lemma MountedTokensAreLive(states: seq<World>, steps: seq<Step>, i: nat)
    requires IsRun(states, steps) && i < |states|
    ensures states[i].api.NonEmpty() && states[i].api.Mountable(states[i].api.Current().token)
    ensures forall p | p in states[i].pods :: states[i].api.Mountable(states[i].pods[p].token)
  {
    RunKeepsInv(states, steps, i);
    var w := states[i];
    assert w.api.Mountable(w.api.templates[|w.api.templates| - 1].token);
  }

  // ---- A referenced generation is never minted again. ----

  predicate Referenced(api: Api, generation: nat) {
    generation > 0 && exists k :: 0 <= k < |api.templates| && api.templates[k].token == generation
  }

  lemma ReferencedIsNotMinted(w: World, s: Step, w': World, generation: nat)
    requires Inv(w) && Follows(w, s, w') && Referenced(w.api, generation)
    requires generation in w'.api.secrets
    ensures generation in w.api.secrets
    ensures w'.api.secrets[generation] == w.api.secrets[generation]
  {
    var k :| 0 <= k < |w.api.templates| && w.api.templates[k].token == generation;
    assert w.api.templates[k].token <= w.api.Current().token;
    assert w.api.Mountable(w.api.templates[|w.api.templates| - 1].token);
  }

  lemma ReferencedIsNotMintedInRun(states: seq<World>, steps: seq<Step>, i: nat, next: World, generation: nat)
    requires IsRun(states, steps) && i < |steps| && Referenced(states[i].api, generation)
    requires next == states[i + 1] && generation in next.api.secrets
    ensures generation in states[i].api.secrets
    ensures next.api.secrets[generation] == states[i].api.secrets[generation]
  {
    RunKeepsInv(states, steps, i);
    ReferencedIsNotMinted(states[i], steps[i], next, generation);
  }

  lemma ReferencedStays(older: Api, newer: Api, generation: nat)
    requires Referenced(older, generation) && older.templates <= newer.templates
    ensures Referenced(newer, generation)
  {
    var k :| 0 <= k < |older.templates| && older.templates[k].token == generation;
    assert newer.templates[k].token == generation;
  }

  lemma ReferencedStaysInRun(states: seq<World>, steps: seq<Step>, i: nat, j: nat, generation: nat)
    requires IsRun(states, steps) && i <= j < |states| && Referenced(states[i].api, generation)
    ensures Referenced(states[j].api, generation)
  {
    HistoriesGrow(states, steps, i, j);
    ReferencedStays(states[i].api, states[j].api, generation);
  }

  // What the later state holds under a generation, the earlier one held too.
  predicate Kept(older: Api, newer: Api, generation: nat) {
    generation in newer.secrets ==>
      generation in older.secrets && older.secrets[generation] == newer.secrets[generation]
  }

  lemma StepKeeps(states: seq<World>, steps: seq<Step>, i: nat, j: nat, newer: World, generation: nat)
    requires IsRun(states, steps) && i <= j < |steps| && Referenced(states[i].api, generation)
    requires newer == states[j + 1]
    ensures Kept(states[j].api, newer.api, generation)
  {
    ReferencedStaysInRun(states, steps, i, j, generation);
    if generation in newer.api.secrets {
      ReferencedIsNotMintedInRun(states, steps, j, newer, generation);
    }
  }

  // Once a template has named a generation, the Secret behind that name either
  // keeps its content or is gone for good, even when a later successor is lost
  // in a crash and created again.
  lemma {:induction false} ReferencedContentNeverChanges(
    states: seq<World>, steps: seq<Step>, i: nat, j: nat, generation: nat)
    requires IsRun(states, steps) && i <= j < |states| && Referenced(states[i].api, generation)
    ensures Kept(states[i].api, states[j].api, generation)
    decreases j
  {
    if i < j {
      ReferencedContentNeverChanges(states, steps, i, j - 1, generation);
      StepKeeps(states, steps, i, j - 1, states[j], generation);
    }
  }
}
