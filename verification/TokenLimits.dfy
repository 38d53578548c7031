// How tight the token theorems are: a crash-free reconcile is itself a run, the
// bound on minted generations is reached, and a rotation survives a crash
// exactly outside one window.
module TokenLimits {
  import opened TokenProtocol
  import opened TokenSafety
  import opened TokenReconciler

  // w is the last state of a run in which the annotation was set `asked` times.
  ghost predicate Reached(w: World, asked: nat) {
    exists states, steps :: IsRun(states, steps) && states[|steps|] == w && Asked(steps) == asked
  }

  lemma ReachedByStep(w: World, asked: nat, s: Step)
    requires Reached(w, asked) && w.api.NonEmpty() && Enabled(w, s)
    ensures Reached(Apply(w, s), asked + if s.AskRotation? then 1 else 0)
  {
    var states, steps :| IsRun(states, steps) && states[|steps|] == w && Asked(steps) == asked;
    var states', steps' := states + [Apply(w, s)], steps + [s];
    forall i | 0 <= i < |steps'| ensures Follows(states'[i], steps'[i], states'[i + 1]) {
      if i < |steps| {
        assert Follows(states[i], steps[i], states[i + 1]);
      }
    }
    assert steps'[..|steps|] == steps;
    assert IsRun(states', steps') && states'[|steps'|] == Apply(w, s);
  }

  lemma {:induction false} ReachedByDeletes(w: World, asked: nat, listed: seq<nat>)
    requires Reached(w, asked) && w.api.NonEmpty() && w.job.Collecting?
    ensures Reached(DeleteListed(w, listed), asked)
    decreases |listed|
  {
    if listed != [] {
      if Enabled(w, DeleteSuperseded(listed[0])) {
        ReachedByStep(w, asked, DeleteSuperseded(listed[0]));
        ReachedByDeletes(Apply(w, DeleteSuperseded(listed[0])), asked, listed[1..]);
      } else {
        ReachedByDeletes(w, asked, listed[1..]);
      }
    }
  }

  lemma TokenPhaseIsReached(w: World, asked: nat, inputs: Inputs)
    requires Reached(w, asked) && Ready(w, inputs)
    ensures Reached(TokenPhase(w, inputs), asked)
  {
    var w1 := Apply(w, Begin(inputs.index));
    ReachedByStep(w, asked, Begin(inputs.index));
    var w2 := Apply(w1, Decide);
    ReachedByStep(w1, asked, Decide);
    if w2.job.Minting? {
      var w3 := Apply(w2, Mint(inputs.token));
      ReachedByStep(w2, asked, Mint(inputs.token));
      if w3.job.Acknowledging? {
        ReachedByStep(w3, asked, Acknowledge);
      }
    }
  }

  // A crash-free reconcile, as the code runs it, is a stretch of a protocol run.
  lemma ReconcileIsARun(w: World, asked: nat, inputs: Inputs)
    requires Reached(w, asked) && Ready(w, inputs)
    ensures Reached(Reconcile(w, inputs), asked)
  {
    TokenPhaseIsReached(w, asked, inputs);
    var w4 := TokenPhase(w, inputs);
    if w4.job.Deploying? {
      var w5 := Apply(w4, ApplyDeployment(inputs.rest));
      ReachedByStep(w4, asked, ApplyDeployment(inputs.rest));
      DeleteListedRemovesSuperseded(w5, inputs.listed);
      ReachedByDeletes(w5, asked, inputs.listed);
      var w6 := DeleteListed(w5, inputs.listed);
      ReachedByStep(w6, asked, FinishCollect);
      ReachedByStep(Apply(w6, FinishCollect), asked, PublishStatus);
    }
  }

  lemma StartIsReached()
    ensures var w := World(Api([Console(0, false)], map[], [Template(0, 0)], Report(0, 0, 0)), 0, 0, map[], {}, Idle);
            Init(w) && Reached(w, 0)
  {
    var w := World(Api([Console(0, false)], map[], [Template(0, 0)], Report(0, 0, 0)), 0, 0, map[], {}, Idle);
    var steps: seq<Step> := [];
    assert IsRun([w], steps) && [w][|steps|] == w && Asked(steps) == 0;
  }

  // The bound of MintedAtMostOncePerRequest is reached for every number of
  // requests: n of them can take the template to generation n + 1.
  lemma {:induction false} EveryRequestCanBeServed(n: nat) returns (w: World)
    ensures Reached(w, n) && Settled(w) && w.api.Current().token == n + 1
  {
    if n == 0 {
      StartIsReached();
      w := World(Api([Console(0, false)], map[], [Template(0, 0)], Report(0, 0, 0)), 0, 0, map[], {}, Idle);
      InitInv(w);
      var inputs := Inputs(0, "t", 0, []);
      ReconcileIsARun(w, 0, inputs);
      ReconcileSettles(w, inputs);
      w := Reconcile(w, inputs);
    } else {
      var w0 := EveryRequestCanBeServed(n - 1);
      var w1 := Apply(w0, AskRotation);
      ReachedByStep(w0, n - 1, AskRotation);
      StepKeepsInv(w0, AskRotation);
      var inputs := Inputs(|w1.api.versions| - 1, "t", 0, []);
      ReconcileIsARun(w1, n, inputs);
      ReconcileRotates(w1, inputs);
      w := Reconcile(w1, inputs);
    }
  }

  // ------------------------------------------------------------------
  // A crash in the middle of a rotation.
  // ------------------------------------------------------------------

  // A rotation was asked for, and the generation before it is published.
  ghost predicate Asking(w: World) {
    Inv(w) && w.job.Idle? && w.api.Live().rotate && w.api.Live().status == w.api.Current().token > 0
  }

  // Such a state is reached after every number of rotations.
  lemma AskingIsReached(n: nat) returns (w: World)
    ensures Reached(w, n + 1) && Asking(w) && w.api.Current().token == n + 1
  {
    var w0 := EveryRequestCanBeServed(n);
    ReachedByStep(w0, n, AskRotation);
    StepKeepsInv(w0, AskRotation);
    w := Apply(w0, AskRotation);
  }

  // A stretch of a run in which nobody asks again.
  ghost predicate Stretch(states: seq<World>, steps: seq<Step>) {
    && |states| == |steps| + 1
    && forall i | 0 <= i < |steps| :: !steps[i].AskRotation? && Follows(states[i], steps[i], states[i + 1])
  }

  // What holds all along such a stretch: the request takes the template from g
  // to g + 1 at most, and the template moves only once it is acknowledged.
  ghost predicate Along(w: World, g: nat)
    requires w.api.NonEmpty()
  {
    && 0 < g <= w.api.Live().status
    && g <= w.api.Current().token <= g + 1
    && (w.api.Live().rotate ==> w.api.Current().token == g)
    && (forall i | 0 <= i < |w.api.versions| && w.api.versions[i].rotate :: w.api.versions[i].status <= g)
    && match w.job
       case Minting(snapshot, _) => snapshot.rotate
       case Deploying(_, target) => target == g || (target == g + 1 && !w.api.Live().rotate)
       case _ => true
  }

  lemma VersionStaysAlong(w: World, g: nat, c: Console, job: Job)
    requires w.api.NonEmpty() && Along(w, g) && w.api.Live().status <= c.status
    requires c.rotate ==> w.api.Live().rotate && c.status <= g
    requires match job
             case Idle => true
             case Deploying(_, target) => target == g || (target == g + 1 && !c.rotate)
             case _ => job == w.job
    ensures Along(w.(api := w.api.WithVersion(c), job := job), g)
  {
    var w' := w.(api := w.api.WithVersion(c), job := job);
    assert forall i | 0 <= i < |w.api.versions| :: w'.api.versions[i] == w.api.versions[i];
  }

  lemma DecideStaysAlong(w: World, g: nat)
    requires Inv(w) && Along(w, g) && w.job.Resolving?
    ensures Along(Apply(w, Decide), g)
  {
    ResolutionInRun(w, w.job.snapshot);
  }

  lemma AcknowledgeStaysAlong(w: World, g: nat)
    requires Inv(w) && Along(w, g) && w.job.Acknowledging?
    ensures Along(Apply(w, Acknowledge), g)
  {
    assert w.api.versions[w.seen].status <= g;
    VersionStaysAlong(w, g, w.api.Live().(rotate := false), Deploying(w.job.snapshot, w.job.target));
  }

  lemma PublishStaysAlong(w: World, g: nat)
    requires Inv(w) && Along(w, g) && w.job.Publishing?
    ensures Along(Apply(w, PublishStatus), g)
  {
    if w.job.target != w.job.snapshot.status {
      VersionStaysAlong(w, g, w.api.Live().(status := w.job.target), Idle);
    }
  }

  lemma OtherWriteStaysAlong(w: World, g: nat)
    requires Inv(w) && Along(w, g)
    ensures Along(Apply(w, OtherConsoleWrite), g)
  {
    var w' := Apply(w, OtherConsoleWrite);
    assert forall i | 0 <= i < |w.api.versions| :: w'.api.versions[i] == w.api.versions[i];
    assert w.api.Live().rotate ==> w.api.versions[|w.api.versions| - 1].status <= g;
  }

  // The steps that neither write the console nor decide.
  predicate IsOther(s: Step) {
    !s.AskRotation? && !s.WithdrawRotation? && !s.OtherConsoleWrite? && !s.Decide? && !s.Acknowledge? &&
    !s.PublishStatus?
  }

  lemma OtherStepStaysAlong(w: World, s: Step, g: nat)
    requires w.api.NonEmpty() && Along(w, g) && Enabled(w, s) && IsOther(s)
    ensures Apply(w, s).api.NonEmpty() && Along(Apply(w, s), g)
  {
    assert Apply(w, s).api.versions == w.api.versions;
  }

  lemma StepStaysAlong(w: World, s: Step, g: nat)
    requires Inv(w) && Along(w, g) && Enabled(w, s) && !s.AskRotation?
    ensures Apply(w, s).api.NonEmpty() && Along(Apply(w, s), g)
  {
    match s
    case WithdrawRotation => VersionStaysAlong(w, g, w.api.Live().(rotate := false), w.job);
    case OtherConsoleWrite => OtherWriteStaysAlong(w, g);
    case Decide => DecideStaysAlong(w, g);
    case Acknowledge => AcknowledgeStaysAlong(w, g);
    case PublishStatus => PublishStaysAlong(w, g);
    case _ => OtherStepStaysAlong(w, s, g);
  }

  lemma FollowsStaysAlong(w: World, s: Step, w': World, g: nat)
    requires Inv(w) && Along(w, g) && Follows(w, s, w') && !s.AskRotation?
    ensures w'.api.NonEmpty() && Along(w', g)
  {
    StepStaysAlong(w, s, g);
  }

  lemma {:induction false} StretchKeepsInv(states: seq<World>, steps: seq<Step>, i: nat)
    requires Stretch(states, steps) && Inv(states[0]) && i < |states|
    ensures Inv(states[i])
  {
    if i > 0 {
      StretchKeepsInv(states, steps, i - 1);
      FollowsKeepsInv(states[i - 1], steps[i - 1], states[i]);
    }
  }

  lemma AskingIsAlong(w: World)
    requires Asking(w)
    ensures Along(w, w.api.Current().token)
  {
    var versions := w.api.versions;
    assert forall k | 0 <= k < |versions| :: versions[k].status <= versions[|versions| - 1].status;
  }

  lemma StretchStepStaysAlong(states: seq<World>, steps: seq<Step>, i: nat, g: nat)
    requires Stretch(states, steps) && Inv(states[0]) && i < |steps|
    requires states[i].api.NonEmpty() && Along(states[i], g)
    ensures states[i + 1].api.NonEmpty() && Along(states[i + 1], g)
  {
    StretchKeepsInv(states, steps, i);
    FollowsStaysAlong(states[i], steps[i], states[i + 1], g);
  }

  lemma {:induction false} StretchStaysAlong(states: seq<World>, steps: seq<Step>, i: nat)
    requires Stretch(states, steps) && Asking(states[0]) && i < |states|
    ensures states[i].api.NonEmpty() && Along(states[i], states[0].api.Current().token)
  {
    if i == 0 {
      AskingIsAlong(states[0]);
    } else {
      StretchStaysAlong(states, steps, i - 1);
      StretchStepStaysAlong(states, steps, i - 1, states[0].api.Current().token);
    }
  }

  lemma AlongIsServedIff(w: World, g: nat, next: Inputs)
    requires Inv(w) && Along(w, g) && OnCurrent(w, next)
    ensures Reconcile(w, next).api.NonEmpty()
    ensures Reconcile(w, next).api.Current().token == g + 1
            <==> w.api.Live().rotate || w.api.Current().token == g + 1
  {
    if w.api.Live().rotate {
      ReconcileRotates(w, next);
    } else {
      ReconcileSettles(w, next);
    }
  }

  // Whatever happens after a request made of a published generation while no
  // reconcile was under way, as long as nobody asks again: the next reconcile on
  // a current snapshot deploys the successor asked for if and only if the
  // annotation still stands or the template has moved already.
  lemma PublishedRequestIsServedIff(states: seq<World>, steps: seq<Step>, next: Inputs)
    requires Stretch(states, steps) && Asking(states[0]) && OnCurrent(states[|steps|], next)
    ensures var w, g := states[|steps|], states[0].api.Current().token;
            && Reconcile(w, next).api.NonEmpty()
            && (Reconcile(w, next).api.Current().token == g + 1
                <==> w.api.Live().rotate || w.api.Current().token == g + 1)
  {
    StretchKeepsInv(states, steps, |steps|);
    StretchStaysAlong(states, steps, |steps|);
    AlongIsServedIff(states[|steps|], states[0].api.Current().token, next);
  }

  // ---- One crash of the reconcile that takes the request up. ----

  // That reconcile begins on the current version and crashes at step c, at any
  // point up to its last write; everybody else's steps may come in between and
  // afterwards, except that the request is not withdrawn.
  ghost predicate OneCrash(states: seq<World>, steps: seq<Step>, c: nat) {
    && Stretch(states, steps) && Asking(states[0])
    && 0 < c < |steps|
    && steps[0] == Begin(|states[0].api.versions| - 1) && steps[c] == Crash
    && forall k | 0 < k < |steps| && k != c :: !steps[k].Begin? && !steps[k].Crash? && !steps[k].WithdrawRotation?
  }

  // Where the request stands while that reconcile is under way.
  ghost predicate Underway(w: World, g: nat)
    requires w.api.NonEmpty()
  {
    match w.job
    case Idle => w.api.Current().token == g + 1
    case Resolving(snapshot) => w.api.Live().rotate && snapshot == Console(g, true)
    case Minting(snapshot, target) => w.api.Live().rotate && snapshot == Console(g, true) && target == g + 1
    case Acknowledging(snapshot, target) => w.api.Live().rotate && snapshot == Console(g, true) && target == g + 1
    case Deploying(_, target) => !w.api.Live().rotate && w.api.Current().token == g && target == g + 1
    case Collecting(_, _, _) => w.api.Current().token == g + 1
    case Publishing(_, _) => w.api.Current().token == g + 1
  }

  lemma BeginIsUnderway(w: World)
    requires Asking(w)
    ensures var w' := Apply(w, Begin(|w.api.versions| - 1));
            w'.api.NonEmpty() && Underway(w', w.api.Current().token)
  {}

  lemma DecideStaysUnderway(w: World, g: nat)
    requires Inv(w) && Underway(w, g) && w.job.Resolving?
    ensures Underway(Apply(w, Decide), g)
  {
    ResolutionInRun(w, w.job.snapshot);
  }

  lemma StepStaysUnderway(w: World, s: Step, g: nat)
    requires w.api.NonEmpty() && Along(w, g) && Underway(w, g) && Enabled(w, s)
    requires !s.AskRotation? && !s.WithdrawRotation? && !s.Begin? && !s.Crash? && !s.Decide?
    ensures Apply(w, s).api.NonEmpty() && Underway(Apply(w, s), g)
  {}

  lemma {:induction false} CrashIsUnderway(states: seq<World>, steps: seq<Step>, c: nat, i: nat)
    requires OneCrash(states, steps, c) && 0 < i <= c
    ensures states[i].api.NonEmpty() && Underway(states[i], states[0].api.Current().token)
  {
    var w, s, g := states[i - 1], steps[i - 1], states[0].api.Current().token;
    assert Follows(w, s, states[i]);
    if i == 1 {
      BeginIsUnderway(w);
    } else {
      CrashIsUnderway(states, steps, c, i - 1);
      if s == Decide {
        StretchKeepsInv(states, steps, i - 1);
        DecideStaysUnderway(w, g);
      } else {
        StretchStaysAlong(states, steps, i - 1);
        StepStaysUnderway(w, s, g);
      }
    }
  }

  // Once nobody reconciles, annotation and token stay as the crash left them.
  lemma {:induction false} NothingMovesAfterCrash(states: seq<World>, steps: seq<Step>, c: nat, i: nat)
    requires OneCrash(states, steps, c) && c < i < |states|
    ensures states[c].api.NonEmpty() && states[i].api.NonEmpty() && states[i].job.Idle?
    ensures states[i].api.Live().rotate == states[c].api.Live().rotate
    ensures states[i].api.Current().token == states[c].api.Current().token
  {
    assert Follows(states[i - 1], steps[i - 1], states[i]);
    if i > c + 1 {
      NothingMovesAfterCrash(states, steps, c, i - 1);
      QuietStep(states[i - 1], steps[i - 1]);
    }
  }

  lemma QuietStep(w: World, s: Step)
    requires w.api.NonEmpty() && Enabled(w, s) && w.job.Idle?
    requires !s.AskRotation? && !s.WithdrawRotation? && !s.Begin?
    ensures var w' := Apply(w, s);
            && w'.api.NonEmpty() && w'.job.Idle?
            && w'.api.Live().rotate == w.api.Live().rotate && w'.api.Current().token == w.api.Current().token
  {}

  // However the others' steps fall, the next reconcile on a current snapshot
  // deploys the requested successor if and only if the crash did not come
  // between the acknowledgement and the template.
  lemma RotationSurvivesCrashIff(states: seq<World>, steps: seq<Step>, c: nat, next: Inputs)
    requires OneCrash(states, steps, c) && OnCurrent(states[|steps|], next)
    ensures var w, g := states[|steps|], states[0].api.Current().token;
            && Reconcile(w, next).api.NonEmpty()
            && (Reconcile(w, next).api.Current().token == g + 1 <==> !states[c].job.Deploying?)
  {
    CrashIsUnderway(states, steps, c, c);
    NothingMovesAfterCrash(states, steps, c, |steps|);
    assert Follows(states[c], steps[c], states[c + 1]);
    PublishedRequestIsServedIff(states, steps, next);
  }

  // The stages of that reconcile when nobody else takes a step.
  function CourseStep(w: World, k: nat): Step
    requires w.api.NonEmpty()
  {
    match k
    case 0 => Begin(|w.api.versions| - 1)
    case 1 => Decide
    case 2 => Mint("t")
    case _ => Acknowledge
  }

  predicate AtStage(job: Job, k: nat) {
    match k
    case 0 => job.Idle?
    case 1 => job.Resolving?
    case 2 => job.Minting?
    case 3 => job.Acknowledging?
    case _ => job.Deploying?
  }

  lemma CourseStepMoves(w: World, w0: World, k: nat)
    requires Inv(w) && w0.api.NonEmpty() && AtStage(w.job, k) && k <= 3
    requires if k == 0 then w == w0 else Underway(w, w0.api.Current().token)
    ensures Enabled(w, CourseStep(w0, k)) && AtStage(Apply(w, CourseStep(w0, k)).job, k + 1)
  {
    if k == 1 {
      ResolutionInRun(w, w.job.snapshot);
    }
  }

  lemma StretchGrows(states: seq<World>, steps: seq<Step>, s: Step) returns (states': seq<World>)
    requires Stretch(states, steps) && states[|steps|].api.NonEmpty() && Enabled(states[|steps|], s) && !s.AskRotation?
    ensures states' == states + [Apply(states[|steps|], s)] && Stretch(states', steps + [s])
  {
    states' := states + [Apply(states[|steps|], s)];
    forall i | 0 <= i < |steps + [s]|
      ensures !(steps + [s])[i].AskRotation? && Follows(states'[i], (steps + [s])[i], states'[i + 1])
    {
      if i < |steps| {
        assert Follows(states[i], steps[i], states[i + 1]);
      }
    }
  }

  // Where the reconcile stands after k steps, started from w0.
  ghost predicate CourseAt(w: World, w0: World, k: nat)
    requires w0.api.NonEmpty()
  {
    && w.api.NonEmpty() && AtStage(w.job, k)
    && if k == 0 then w == w0 else Underway(w, w0.api.Current().token)
  }

  lemma CourseStaysUnderway(w: World, s: Step, g: nat)
    requires Inv(w) && Along(w, g) && Underway(w, g) && Enabled(w, s)
    requires s == Decide || s == Mint("t") || s == Acknowledge
    ensures Apply(w, s).api.NonEmpty() && Underway(Apply(w, s), g)
  {
    if s == Decide {
      DecideStaysUnderway(w, g);
    } else {
      StepStaysUnderway(w, s, g);
    }
  }

  lemma CourseMoves(w: World, w0: World, k: nat)
    requires Asking(w0) && Inv(w) && CourseAt(w, w0, k) && k <= 3 && Along(w, w0.api.Current().token)
    ensures Enabled(w, CourseStep(w0, k)) && CourseAt(Apply(w, CourseStep(w0, k)), w0, k + 1)
  {
    CourseStepMoves(w, w0, k);
    if k == 0 {
      BeginIsUnderway(w0);
    } else {
      CourseStaysUnderway(w, CourseStep(w0, k), w0.api.Current().token);
    }
  }

  ghost predicate IsCourse(states: seq<World>, steps: seq<Step>, w0: World, k: nat)
    requires w0.api.NonEmpty()
  {
    && Stretch(states, steps) && |steps| == k && states[0] == w0
    && forall i | 0 <= i < k :: steps[i] == CourseStep(w0, i)
  }

  lemma CourseFollows(w: World, s: Step, w': World, w0: World, k: nat)
    requires Asking(w0) && Inv(w) && CourseAt(w, w0, k) && k <= 3 && Along(w, w0.api.Current().token)
    requires s == CourseStep(w0, k) && Follows(w, s, w')
    ensures CourseAt(w', w0, k + 1)
  {
    CourseMoves(w, w0, k);
  }

  lemma CourseStepIsAt(states: seq<World>, steps: seq<Step>, w0: World, k: nat, i: nat)
    requires Asking(w0) && IsCourse(states, steps, w0, k) && i < k <= 4 && CourseAt(states[i], w0, i)
    ensures CourseAt(states[i + 1], w0, i + 1)
  {
    StretchKeepsInv(states, steps, i);
    StretchStaysAlong(states, steps, i);
    CourseFollows(states[i], steps[i], states[i + 1], w0, i);
  }

  lemma {:induction false} CourseIsAt(states: seq<World>, steps: seq<Step>, w0: World, k: nat, i: nat)
    requires Asking(w0) && IsCourse(states, steps, w0, k) && i <= k <= 4
    ensures CourseAt(states[i], w0, i)
  {
    if i > 0 {
      CourseIsAt(states, steps, w0, k, i - 1);
      CourseStepIsAt(states, steps, w0, k, i - 1);
    }
  }

  lemma CourseGoesOn(states: seq<World>, steps: seq<Step>, w0: World, k: nat)
    requires Asking(w0) && IsCourse(states, steps, w0, k) && k <= 3
    ensures states[k].api.NonEmpty() && Enabled(states[k], CourseStep(w0, k))
  {
    CourseIsAt(states, steps, w0, k, k);
    StretchKeepsInv(states, steps, k);
    StretchStaysAlong(states, steps, k);
    CourseMoves(states[k], w0, k);
  }

  lemma {:induction false} Course(w0: World, k: nat) returns (states: seq<World>, steps: seq<Step>)
    requires Asking(w0) && k <= 4
    ensures IsCourse(states, steps, w0, k)
  {
    if k == 0 {
      states, steps := [w0], [];
    } else {
      var before, taken := Course(w0, k - 1);
      CourseGoesOn(before, taken, w0, k - 1);
      states := StretchGrows(before, taken, CourseStep(w0, k - 1));
      steps := taken + [CourseStep(w0, k - 1)];
    }
  }

  lemma CourseCrashes(states: seq<World>, steps: seq<Step>, w0: World) returns (states': seq<World>)
    requires Asking(w0) && IsCourse(states, steps, w0, 4)
    ensures OneCrash(states', steps + [Crash], 4) && states'[4].job.Deploying? && states'[0] == w0
  {
    CourseIsAt(states, steps, w0, 4, 4);
    StretchKeepsInv(states, steps, 4);
    states' := StretchGrows(states, steps, Crash);
    assert steps[0] == CourseStep(w0, 0);
    forall k | 0 < k < 4 ensures !steps[k].Begin? && !steps[k].Crash? && !steps[k].WithdrawRotation? {
      assert steps[k] == CourseStep(w0, k);
    }
  }

  // The crash that loses a rotation is reached.
  lemma LosingCrashIsReached() returns (states: seq<World>, steps: seq<Step>)
    ensures OneCrash(states, steps, 4) && states[4].job.Deploying? && Reached(states[0], 1)
  {
    var w0 := AskingIsReached(0);
    var before, taken := Course(w0, 4);
    states := CourseCrashes(before, taken, w0);
    steps := taken + [Crash];
  }

  // ---- A request that is lost without any crash. ----

  // A request is pending and no reconcile is under way.
  ghost predicate Pending(w: World) {
    Inv(w) && w.job.Idle? && w.api.Live().rotate
  }

  // What a reconcile on any snapshot deploys while a request is pending.
  function AnyTarget(snapshot: Console, current: nat): nat {
    if snapshot.rotate then snapshot.status + 1 else if current == 0 then 1 else current
  }

  lemma AnyResolution(w: World, index: nat)
    requires Inv(w) && w.job.Idle? && w.seen <= index < |w.api.versions|
    ensures var snapshot, current := w.api.versions[index], w.api.Current().token;
            Resolve(snapshot, current, w.api.secrets) ==
            if snapshot.rotate || current == 0 then Create(AnyTarget(snapshot, current)) else Reuse(current)
  {
    BeginKeepsInv(w, index);
    ResolutionInRun(Apply(w, Begin(index)), w.api.versions[index]);
  }

  lemma AnySnapshotEffect(w: World, inputs: Inputs)
    requires Pending(w) && Ready(w, inputs)
    ensures var snapshot := w.api.versions[inputs.index];
            TokenPhase(w, inputs).job == Deploying(snapshot, AnyTarget(snapshot, w.api.Current().token))
    ensures TokenPhase(w, inputs).api.templates == w.api.templates
    ensures TokenPhase(w, inputs).api.Live() == w.api.Live().(rotate := !w.api.versions[inputs.index].rotate)
  {
    TokenPhaseEffect(w, inputs);
    AnyResolution(w, inputs.index);
  }

  lemma WorkloadPhaseMoves(w: World, inputs: Inputs)
    requires w.api.NonEmpty() && w.job.Deploying?
    ensures var w' := WorkloadPhase(w, inputs);
            && w'.api.NonEmpty() && w'.job.Idle?
            && w'.api.Current().token == w.job.target
            && w'.api.Live().rotate == w.api.Live().rotate
            && w'.api.Live().status == if w.job.target == w.job.snapshot.status then w.api.Live().status else w.job.target
  {
    WorkloadPhaseEffect(w, inputs);
  }

  lemma SnapshotIsBetween(w: World, index: nat)
    requires Inv(w) && w.seen <= index < |w.api.versions|
    ensures w.api.versions[index].status <= w.api.Live().status <= w.api.Current().token
    ensures w.api.Current().token <= w.api.versions[index].status + 1
  {
    assert w.api.versions[w.seen].status <= w.api.versions[index].status;
  }

  // A whole reconcile on whatever snapshot the cache shows leaves a request
  // pending when the snapshot does not show an annotation, serves it when the
  // snapshot shows one at the generation the template names, and loses it for
  // good when it shows one at an earlier generation: the successor that is
  // deployed already is resolved again, and the acknowledgement clears the
  // annotation.
  lemma ReconcileSwallowsIff(w: World, inputs: Inputs, next: Inputs)
    requires Pending(w) && Ready(w, inputs) && OnCurrent(Reconcile(w, inputs), next)
    ensures var w' := Reconcile(Reconcile(w, inputs), next);
            && w'.api.NonEmpty()
            && (w'.api.Current().token == w.api.Current().token
                <==> w.api.versions[inputs.index].rotate
                     && w.api.versions[inputs.index].status < w.api.Current().token)
  {
    var w' := Reconcile(w, inputs);
    AnySnapshotEffect(w, inputs);
    WorkloadPhaseMoves(TokenPhase(w, inputs), inputs);
    ReconcileKeepsInv(w, inputs);
    SnapshotIsBetween(w, inputs.index);
    if w'.api.Live().rotate {
      ReconcileRotates(w', next);
    } else {
      ReconcileSettles(w', next);
    }
  }

  // Such a snapshot is reached: the cache still shows the first of two requests
  // when the second one is taken up.
  lemma EarlierRequestIsShown() returns (w: World, inputs: Inputs)
    ensures Reached(w, 2) && Asking(w) && Ready(w, inputs)
    ensures w.api.versions[inputs.index].rotate && w.api.versions[inputs.index].status < w.api.Current().token
  {
    var w1 := AskingIsReached(0);
    inputs := Inputs(|w1.api.versions| - 1, "t", 0, []);
    ReconcileIsARun(w1, 1, inputs);
    var w2 := Reconcile(w1, inputs);
    RotateAndAskAgain(w1, inputs);
    ReachedByStep(w2, 1, AskRotation);
    w := Apply(w2, AskRotation);
  }

  lemma RotateAndAskAgain(w: World, inputs: Inputs)
    requires Asking(w) && OnCurrent(w, inputs)
    ensures Reconcile(w, inputs).api.NonEmpty()
    ensures var w' := Apply(Reconcile(w, inputs), AskRotation);
            && Asking(w') && Ready(w', inputs)
            && w'.api.versions[inputs.index].rotate && w'.api.versions[inputs.index].status < w'.api.Current().token
  {
    RotationKeepsSnapshot(w, inputs);
    AskAgain(Reconcile(w, inputs));
    assert Apply(Reconcile(w, inputs), AskRotation).api.versions[inputs.index] == w.api.versions[inputs.index];
  }

  lemma RotationKeepsSnapshot(w: World, inputs: Inputs)
    requires Asking(w) && OnCurrent(w, inputs)
    ensures var w' := Reconcile(w, inputs);
            Settled(w') && w'.seen == inputs.index && w.api.versions <= w'.api.versions &&
            w'.api.Live().status == w.api.Live().status + 1
  {
    ReconcileRotates(w, inputs);
    KeepsVersions(w, inputs);
  }

  lemma AskAgain(w: World)
    requires Settled(w)
    ensures var w' := Apply(w, AskRotation);
            Asking(w') && w'.seen == w.seen && w.api.versions <= w'.api.versions &&
            w'.api.Live().status == w.api.Live().status
  {
    AskRotationKeepsInv(w);
  }

  lemma KeepsVersions(w: World, inputs: Inputs)
    requires Ready(w, inputs)
    ensures Reconcile(w, inputs).seen == inputs.index
    ensures w.api.versions <= Reconcile(w, inputs).api.versions
  {
    TokenPhaseEffect(w, inputs);
    if TokenPhase(w, inputs).job.Deploying? {
      WorkloadPhaseEffect(TokenPhase(w, inputs), inputs);
    }
  }
}
