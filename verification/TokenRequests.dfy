// What becomes of a request, whenever it is made: also while a reconcile is
// under way, and before the last generation is published.
module TokenRequests {
  import opened TokenProtocol
  import opened TokenSafety
  import opened TokenReconciler
  import opened TokenLimits

  // A reconcile that has seen the annotation is on its way to the successor of
  // the generation its snapshot shows.
  ghost predicate TargetsInv(w: World) {
    match w.job
    case Minting(snapshot, target) => snapshot.rotate ==> target == snapshot.status + 1
    case Acknowledging(snapshot, target) => target == snapshot.status + 1
    case _ => true
  }

  lemma StepKeepsTargets(w: World, s: Step)
    requires w.api.NonEmpty() && TargetsInv(w) && Enabled(w, s)
    ensures TargetsInv(Apply(w, s))
  {}

  // Part of a run, from any state the protocol may be in.
  ghost predicate IsPart(states: seq<World>, steps: seq<Step>) {
    && |states| == |steps| + 1
    && Inv(states[0]) && TargetsInv(states[0])
    && forall i | 0 <= i < |steps| :: Follows(states[i], steps[i], states[i + 1])
  }

  lemma {:induction false} PartKeepsInv(states: seq<World>, steps: seq<Step>, i: nat)
    requires IsPart(states, steps) && i < |states|
    ensures Inv(states[i]) && TargetsInv(states[i])
    decreases i
  {
    if i > 0 {
      PartKeepsInv(states, steps, i - 1);
      FollowsKeepsInv(states[i - 1], steps[i - 1], states[i]);
      StepKeepsTargets(states[i - 1], steps[i - 1]);
    }
  }

  // What follows any state of any run is such a part.
  lemma RestOfRunIsPart(states: seq<World>, steps: seq<Step>, i: nat)
    requires IsRun(states, steps) && i < |states|
    ensures IsPart(states[i..], steps[i..])
  {
    InitInv(states[0]);
    assert IsPart(states, steps);
    PartKeepsInv(states, steps, i);
    forall k | 0 <= k < |steps[i..]| ensures Follows(states[i..][k], steps[i..][k], states[i..][k + 1]) {
      assert Follows(states[i + k], steps[i + k], states[i + k + 1]);
    }
  }

  // ------------------------------------------------------------------
  // From an acknowledgement to the template.
  // ------------------------------------------------------------------

  // Step k writes the template of the reconcile that acknowledged in step a.
  predicate Delivers(steps: seq<Step>, a: int, k: int) {
    && 0 <= a < k < |steps| && steps[a].Acknowledge? && steps[k].ApplyDeployment?
    && forall m | a < m < k :: !steps[m].Crash? && !steps[m].ApplyDeployment?
  }

  lemma WaitingStep(w: World, s: Step)
    requires w.api.NonEmpty() && Enabled(w, s) && w.job.Deploying? && !s.Crash? && !s.ApplyDeployment?
    ensures Apply(w, s).api.NonEmpty() && Apply(w, s).job == w.job
    ensures Apply(w, s).api.Current().token == w.api.Current().token
  {}

  // Meanwhile the job waits, and the template keeps its token.
  lemma {:induction false} JobWaits(states: seq<World>, steps: seq<Step>, a: nat, k: nat, m: nat)
    requires IsPart(states, steps) && Delivers(steps, a, k) && a < m <= k
    ensures states[a].job.Acknowledging? && states[a].api.NonEmpty() && states[m].api.NonEmpty()
    ensures states[m].job == Deploying(states[a].job.snapshot, states[a].job.target)
    ensures states[m].api.Current().token == states[a].api.Current().token
    decreases m
  {
    assert Follows(states[m - 1], steps[m - 1], states[m]);
    if m > a + 1 {
      JobWaits(states, steps, a, k, m - 1);
      WaitingStep(states[m - 1], steps[m - 1]);
    }
  }

  // The snapshot a reconcile acknowledges from shows the generation that the
  // template names, not an earlier one.
  ghost predicate ShowsDeployed(w: World) {
    w.api.NonEmpty() && w.job.Acknowledging? && w.job.snapshot.status == w.api.Current().token
  }

  lemma AcknowledgedTarget(w: World)
    requires Inv(w) && TargetsInv(w) && w.job.Acknowledging?
    ensures w.job.target == w.job.snapshot.status + 1
    ensures w.api.Current().token <= w.job.target
    ensures w.job.target > w.api.Current().token <==> ShowsDeployed(w)
  {
    assert w.api.versions[w.seen].status <= w.api.Live().status;
  }

  lemma DeployedTarget(w: World, rest: nat)
    requires w.api.NonEmpty() && w.job.Deploying?
    ensures Apply(w, ApplyDeployment(rest)).api.NonEmpty()
    ensures Apply(w, ApplyDeployment(rest)).api.Current().token == w.job.target
  {}

  // In any run, with requests made at any time: the template write that follows
  // an acknowledgement moves the template if and only if the acknowledging
  // reconcile's snapshot showed the generation the template named.
  lemma AcknowledgedMovesIff(states: seq<World>, steps: seq<Step>, a: nat, k: nat)
    requires IsPart(states, steps) && Delivers(steps, a, k)
    ensures states[a].job.Acknowledging?
    ensures states[a].api.NonEmpty() && states[k].api.NonEmpty() && states[k + 1].api.NonEmpty()
    ensures states[k].api.Current().token == states[a].api.Current().token
    ensures states[k + 1].api.Current().token == states[a].job.snapshot.status + 1
    ensures states[k + 1].api.Current().token > states[k].api.Current().token <==> ShowsDeployed(states[a])
  {
    PartKeepsInv(states, steps, a);
    JobWaits(states, steps, a, k, k);
    AcknowledgedTarget(states[a]);
    assert Follows(states[k], steps[k], states[k + 1]);
    DeployedTarget(states[k], steps[k].rest);
  }

  // ------------------------------------------------------------------
  // A pending request.
  // ------------------------------------------------------------------

  // A request is pending in the first state, whatever the reconcile is about to
  // do then, and nobody asks again.
  ghost predicate AfterRequest(states: seq<World>, steps: seq<Step>) {
    && IsPart(states, steps) && states[0].api.Live().rotate
    && forall i | 0 <= i < |steps| :: !steps[i].AskRotation?
  }

  // A reconcile that acknowledged it has moved the template.
  ghost predicate Moved(states: seq<World>, steps: seq<Step>, a: int, k: int)
    requires |states| == |steps| + 1
  {
    && Delivers(steps, a, k) && states[k].api.NonEmpty() && states[k + 1].api.NonEmpty()
    && states[k + 1].api.Current().token > states[k].api.Current().token
  }

  ghost predicate IsServed(states: seq<World>, steps: seq<Step>)
    requires |states| == |steps| + 1
  {
    exists a, k :: Moved(states, steps, a, k)
  }

  // A reconcile has acknowledged it from a snapshot that shows the deployed
  // generation, and has come as far as the template.
  ghost predicate WellAcknowledged(states: seq<World>, steps: seq<Step>, a: int, k: int)
    requires |states| == |steps| + 1
  {
    Delivers(steps, a, k) && ShowsDeployed(states[a])
  }

  ghost predicate IsWellAcknowledged(states: seq<World>, steps: seq<Step>)
    requires |states| == |steps| + 1
  {
    exists a, k :: WellAcknowledged(states, steps, a, k)
  }

  lemma MovedIffWellAcknowledged(states: seq<World>, steps: seq<Step>, a: int, k: int)
    requires IsPart(states, steps)
    ensures Moved(states, steps, a, k) <==> WellAcknowledged(states, steps, a, k)
  {
    if Delivers(steps, a, k) {
      AcknowledgedMovesIff(states, steps, a, k);
    }
  }

  lemma ServedIffWellAcknowledged(states: seq<World>, steps: seq<Step>)
    requires IsPart(states, steps)
    ensures IsServed(states, steps) <==> IsWellAcknowledged(states, steps)
  {
    if IsServed(states, steps) {
      var a, k :| Moved(states, steps, a, k);
      MovedIffWellAcknowledged(states, steps, a, k);
    }
    if IsWellAcknowledged(states, steps) {
      var a, k :| WellAcknowledged(states, steps, a, k);
      MovedIffWellAcknowledged(states, steps, a, k);
    }
  }

  // The next reconcile on a current snapshot takes it up and moves the template.
  ghost predicate TakenUpBy(w: World, next: Inputs)
    requires OnCurrent(w, next)
  {
    && w.api.Live().rotate && Reconcile(w, next).api.NonEmpty()
    && Reconcile(w, next).api.Current().token > w.api.Current().token
  }

  lemma TakenUpIff(w: World, next: Inputs)
    requires Inv(w) && OnCurrent(w, next)
    ensures TakenUpBy(w, next) <==> w.api.Live().rotate && w.api.Live().status == w.api.Current().token
  {
    if w.api.Live().rotate {
      ReconcileRotates(w, next);
    }
  }

  // For a request pending in any state, and whatever follows as long as nobody
  // asks again: it is served by the time the next reconcile on a current
  // snapshot is through if and only if a reconcile that acknowledged it from a
  // snapshot of the deployed generation came as far as the template, or the
  // annotation still stands and the deployed generation is published.
  lemma RequestIsServedIff(states: seq<World>, steps: seq<Step>, next: Inputs)
    requires AfterRequest(states, steps) && OnCurrent(states[|steps|], next)
    ensures IsServed(states, steps) || TakenUpBy(states[|steps|], next)
            <==> || IsWellAcknowledged(states, steps)
                 || (states[|steps|].api.Live().rotate
                     && states[|steps|].api.Live().status == states[|steps|].api.Current().token)
  {
    ServedIffWellAcknowledged(states, steps);
    PartKeepsInv(states, steps, |steps|);
    TakenUpIff(states[|steps|], next);
  }

  predicate Clears(s: Step) { s.Acknowledge? || s.WithdrawRotation? }

  lemma OnlyClearingClears(w: World, s: Step)
    requires w.api.NonEmpty() && Enabled(w, s) && w.api.Live().rotate && !Clears(s)
    ensures Apply(w, s).api.NonEmpty() && Apply(w, s).api.Live().rotate
  {}

  // The annotation stands until a reconcile acknowledges it or the user
  // withdraws it.
  lemma {:induction false} StandsUntilCleared(states: seq<World>, steps: seq<Step>, i: nat)
    requires AfterRequest(states, steps) && i < |states|
    ensures states[i].api.NonEmpty()
    ensures states[i].api.Live().rotate || exists m :: 0 <= m < i && Clears(steps[m])
    decreases i
  {
    if i > 0 {
      StandsUntilCleared(states, steps, i - 1);
      assert Follows(states[i - 1], steps[i - 1], states[i]);
      if Clears(steps[i - 1]) {
        PartKeepsInv(states, steps, i);
      } else if states[i - 1].api.Live().rotate {
        OnlyClearingClears(states[i - 1], steps[i - 1]);
      } else {
        PartKeepsInv(states, steps, i);
      }
    }
  }

  // ------------------------------------------------------------------
  // A request made while a reconcile is in flight.
  // ------------------------------------------------------------------

  // After its template write this reconcile finishes, and no other begins.
  ghost predicate FinishesOnly(states: seq<World>, steps: seq<Step>, k: nat) {
    && AfterRequest(states, steps) && Delivers(steps, 0, k)
    && forall m | 0 <= m < |steps| :: !steps[m].Begin?
  }

  // The template is written, the annotation cleared, and no reconcile begins.
  ghost predicate Finishing(w: World, token: nat) {
    && w.api.NonEmpty() && !w.api.Live().rotate && w.api.Current().token == token
    && (w.job.Collecting? || w.job.Publishing? || w.job.Idle?)
  }

  lemma FinishingFollows(w: World, s: Step, w': World, token: nat)
    requires Finishing(w, token) && Follows(w, s, w') && !s.AskRotation? && !s.Begin?
    ensures Finishing(w', token)
  {}

  lemma WriteFinishes(w: World, s: Step, w': World)
    requires w.api.NonEmpty() && w.job.Deploying? && !w.api.Live().rotate && s.ApplyDeployment? && Follows(w, s, w')
    ensures Finishing(w', w.job.target)
  {}

  lemma ClearedStaysCleared(w: World, s: Step)
    requires w.api.NonEmpty() && Enabled(w, s) && !s.AskRotation? && !w.api.Live().rotate
    ensures Apply(w, s).api.NonEmpty() && !Apply(w, s).api.Live().rotate
  {}

  lemma {:induction false} AcknowledgedStaysCleared(states: seq<World>, steps: seq<Step>, k: nat, i: nat)
    requires AfterRequest(states, steps) && Delivers(steps, 0, k) && 0 < i < |states|
    ensures states[i].api.NonEmpty() && !states[i].api.Live().rotate
    decreases i
  {
    assert Follows(states[i - 1], steps[i - 1], states[i]);
    if i > 1 {
      AcknowledgedStaysCleared(states, steps, k, i - 1);
      ClearedStaysCleared(states[i - 1], steps[i - 1]);
    }
  }

  lemma DeliveryFinishes(states: seq<World>, steps: seq<Step>, k: nat)
    requires AfterRequest(states, steps) && Delivers(steps, 0, k)
    ensures states[0].job.Acknowledging? && Finishing(states[k + 1], states[0].job.target)
  {
    JobWaits(states, steps, 0, k, k);
    AcknowledgedStaysCleared(states, steps, k, k);
    WriteFinishes(states[k], steps[k], states[k + 1]);
  }

  lemma NextFinishes(states: seq<World>, steps: seq<Step>, k: nat, i: nat, token: nat)
    requires FinishesOnly(states, steps, k) && i < |steps| && Finishing(states[i], token)
    ensures Finishing(states[i + 1], token)
  {
    FinishingFollows(states[i], steps[i], states[i + 1], token);
  }

  lemma {:induction false} FinishingKeepsTemplate(states: seq<World>, steps: seq<Step>, k: nat, i: nat)
    requires FinishesOnly(states, steps, k) && k < i < |states|
    ensures states[0].job.Acknowledging? && Finishing(states[i], states[0].job.target)
    decreases i
  {
    if i == k + 1 {
      DeliveryFinishes(states, steps, k);
    } else {
      FinishingKeepsTemplate(states, steps, k, i - 1);
      NextFinishes(states, steps, k, i - 1, states[0].job.target);
    }
  }

  // A reconcile about to acknowledge takes a pending request with it, even one
  // made after it began. It loses the request for good, crash or not, if and
  // only if its snapshot shows an earlier generation than the template names.
  lemma RequestIsSwallowedIff(states: seq<World>, steps: seq<Step>, k: nat, next: Inputs)
    requires FinishesOnly(states, steps, k) && OnCurrent(states[|steps|], next)
    ensures states[0].job.Acknowledging?
    ensures var w' := Reconcile(states[|steps|], next);
            && w'.api.NonEmpty()
            && (w'.api.Current().token == states[0].api.Current().token
                <==> states[0].job.snapshot.status < states[0].api.Current().token)
  {
    FinishingKeepsTemplate(states, steps, k, |steps|);
    PartKeepsInv(states, steps, |steps|);
    AcknowledgedTarget(states[0]);
    ReconcileSettles(states[|steps|], next);
  }

  // That state is reached: the reconcile begins on a snapshot of the first
  // request, and the second is made before it acknowledges.
  lemma RequestInFlightIsReached() returns (w: World)
    ensures Reached(w, 2) && Inv(w) && TargetsInv(w)
    ensures w.job.Acknowledging? && w.api.Live().rotate && w.job.snapshot.status < w.api.Current().token
  {
    var w1 := AskingIsReached(0);
    var inputs := Inputs(|w1.api.versions| - 1, "t", 0, []);
    ReconcileIsARun(w1, 1, inputs);
    RotatedShowsEarlier(w1, inputs);
    w := AskInFlight(Reconcile(w1, inputs), 1, inputs.index);
  }

  lemma RotatedShowsEarlier(w: World, inputs: Inputs)
    requires Asking(w) && OnCurrent(w, inputs)
    ensures var w' := Reconcile(w, inputs);
            && Settled(w') && w'.seen <= inputs.index < |w'.api.versions|
            && w'.api.versions[inputs.index].rotate && w'.api.versions[inputs.index].status < w'.api.Live().status
  {
    RotationKeepsSnapshot(w, inputs);
    assert Reconcile(w, inputs).api.versions[inputs.index] == w.api.versions[inputs.index];
  }

  lemma AskInFlight(w: World, asked: nat, index: nat) returns (w': World)
    requires Reached(w, asked) && Settled(w) && w.seen <= index < |w.api.versions|
    requires w.api.versions[index].rotate && w.api.versions[index].status < w.api.Live().status
    ensures Reached(w', asked + 1) && Inv(w') && TargetsInv(w')
    ensures w'.job.Acknowledging? && w'.api.Live().rotate && w'.job.snapshot.status < w'.api.Current().token
  {
    var w1 := Apply(w, Begin(index));
    ReachedByStep(w, asked, Begin(index));
    StepKeepsInv(w, Begin(index));
    var w2 := Apply(w1, AskRotation);
    ReachedByStep(w1, asked, AskRotation);
    StepKeepsInv(w1, AskRotation);
    w' := DecideAndMint(w2, asked + 1);
  }

  lemma DecideAndMint(w: World, asked: nat) returns (w': World)
    requires Reached(w, asked) && Inv(w) && w.job.Resolving? && w.api.Live().rotate
    requires w.job.snapshot.rotate && w.job.snapshot.status < w.api.Current().token
    ensures Reached(w', asked) && Inv(w') && TargetsInv(w')
    ensures w'.job.Acknowledging? && w'.api.Live().rotate && w'.job.snapshot.status < w'.api.Current().token
  {
    var w1 := Apply(w, Decide);
    ResolutionInRun(w, w.job.snapshot);
    ReachedByStep(w, asked, Decide);
    StepKeepsInv(w, Decide);
    w' := Apply(w1, Mint("t"));
    ReachedByStep(w1, asked, Mint("t"));
    StepKeepsInv(w1, Mint("t"));
  }
}
