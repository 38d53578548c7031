// The cluster-scoped catalog ClusterRole and its binding over one console's
// life. Nothing else collects them, so the console's finalizer has to.
module CatalogLifecycle {

  // One stored version of the console. `accepted` stands for everything between
  // reading the console and reconcileRBAC: validation, the CNPG Cluster, the
  // rendered proxy configuration.
  datatype Console = Absent | Present(deleting: bool, finalizer: bool, catalogs: bool, skip: bool, accepted: bool)

  // Where the running reconcile stands; the index is the version it read.
  datatype Job =
    | Idle
    | Reading(index: nat)
    | DroppingRole(index: nat, last: bool)
    | DroppingBinding(index: nat, last: bool)
    | Releasing(index: nat)
    | Claiming(index: nat)
    | ApplyingRole(index: nat)
    | ApplyingBinding(index: nat)
    | Converged(index: nat)

  datatype World = World(history: seq<Console>, seen: nat, role: bool, binding: bool, job: Job)
  {
    function Live(): Console requires history != [] { history[|history| - 1] }
  }

  datatype Step =
    // the user, and any other writer of the console
    | Create(catalogs: bool, skip: bool, accepted: bool)
    | Edit(catalogs: bool, skip: bool, accepted: bool)
    | RequestDeletion
    | OtherWrite
    // the reconciler
    | Begin(index: nat)
    | Decide
    | DropRole
    | DropBinding
    | ReleaseFinalizer
    | ClaimFinalizer
    | ApplyRole(cached: bool)
    | ApplyBinding(cached: bool)
    | Finish
    | Crash

  predicate Enabled(w: World, s: Step)
    requires w.history != []
  {
    match s
    case Create(_, _, _) => |w.history| == 1 && w.Live().Absent?
    case Edit(_, _, _) => w.Live().Present?
    case RequestDeletion => w.Live().Present? && !w.Live().deleting
    case OtherWrite => w.Live().Present?
    case Begin(index) => w.job.Idle? && w.seen <= index < |w.history|
    case Decide => w.job.Reading? && w.job.index < |w.history|
    case DropRole => w.job.DroppingRole?
    case DropBinding => w.job.DroppingBinding?
    case ReleaseFinalizer => w.job.Releasing?
    case ClaimFinalizer => w.job.Claiming? && w.job.index < |w.history| && w.history[w.job.index].Present?
    case ApplyRole(_) => w.job.ApplyingRole?
    case ApplyBinding(_) => w.job.ApplyingBinding?
    case Finish => w.job.Converged?
    case Crash => !w.job.Idle?
  }

  // What Reconcile decides from the version it read.
  function Decision(c: Console, index: nat): Job {
    if c.Absent? then Idle
    else if c.deleting then (if c.finalizer then DroppingRole(index, true) else Idle)
    else if !c.finalizer then Claiming(index)
    else if c.skip || !c.accepted then Idle
    else if c.catalogs then ApplyingRole(index)
    else DroppingRole(index, false)
  }

  function Apply(w: World, s: Step): World
    requires w.history != [] && Enabled(w, s)
  {
    match s
    case Create(catalogs, skip, accepted) =>
      w.(history := w.history + [Present(false, false, catalogs, skip, accepted)])
    case Edit(catalogs, skip, accepted) =>
      w.(history := w.history + [w.Live().(catalogs := catalogs, skip := skip, accepted := accepted)])
    // an object without finalizers goes at once
    case RequestDeletion =>
      w.(history := w.history + [if w.Live().finalizer then w.Live().(deleting := true) else Absent])
    case OtherWrite => w.(history := w.history + [w.Live()])
    case Begin(index) => w.(seen := index, job := Reading(index))
    case Decide => w.(job := Decision(w.history[w.job.index], w.job.index))
    case DropRole => w.(role := false, job := DroppingBinding(w.job.index, w.job.last))
    case DropBinding =>
      w.(binding := false, job := if w.job.last then Releasing(w.job.index) else Converged(w.job.index))
    // Updates carry the resourceVersion read: a stale one is a conflict. An
    // object being deleted goes with its last finalizer.
    case ReleaseFinalizer =>
      w.(history := if w.job.index == |w.history| - 1 then w.history + [Absent] else w.history, job := Idle)
    case ClaimFinalizer =>
      w.(history := if w.job.index == |w.history| - 1
                    then w.history + [w.history[w.job.index].(finalizer := true)] else w.history,
         job := Idle)
    // `cached`: the cache shows a matching object, so nothing is written
    case ApplyRole(cached) => w.(role := w.role || !cached, job := ApplyingBinding(w.job.index))
    case ApplyBinding(cached) => w.(binding := w.binding || !cached, job := Converged(w.job.index))
    case Finish => w.(job := Idle)
    case Crash => w.(job := Idle)
  }

  // ------------------------------------------------------------------
  // The invariant.
  // ------------------------------------------------------------------

  // Deletion is never taken back, and a finalizer only goes with its object.
  predicate Follows(a: Console, b: Console) {
    a.Present? && b.Present? ==> (a.deleting ==> b.deleting) && (a.finalizer ==> b.finalizer)
  }

  predicate HistoryInv(w: World) {
    && w.history != [] && w.history[0] == Absent && w.seen < |w.history|
    && (forall i, j | 0 <= i <= j < |w.history| :: Follows(w.history[i], w.history[j]))
  }

  // Once the console is gone, no version the cache may still show leads a
  // reconcile to create anything.
  predicate GoneInv(w: World)
    requires w.history != []
  {
    w.Live().Absent? ==>
      forall i | w.seen <= i < |w.history| && w.history[i].Present? :: w.history[i].deleting || !w.history[i].finalizer
  }

  // The property itself.
  predicate Guarded(w: World)
    requires w.history != []
  {
    w.role || w.binding ==> w.Live().Present? && w.Live().finalizer
  }

  predicate JobInv(w: World)
    requires w.history != [] && w.seen < |w.history|
  {
    var c := w.history[w.seen];
    match w.job
    case Idle => true
    case Reading(index) => index == w.seen
    case DroppingRole(index, last) => index == w.seen && c.Present? && c.deleting == last && c.finalizer && (!last ==> !c.catalogs)
    case DroppingBinding(index, last) =>
      index == w.seen && c.Present? && c.deleting == last && c.finalizer && (!last ==> !c.catalogs) && !w.role
    case Releasing(index) => index == w.seen && c.Present? && c.deleting && !w.role && !w.binding
    case Claiming(index) => index == w.seen && c.Present? && !c.deleting && !c.finalizer
    case ApplyingRole(index) => index == w.seen && c.Present? && !c.deleting && c.finalizer && c.catalogs
    case ApplyingBinding(index) => index == w.seen && c.Present? && !c.deleting && c.finalizer && c.catalogs
    case Converged(index) => index == w.seen && c.Present? && (c.catalogs || (!w.role && !w.binding))
  }

  predicate Inv(w: World) {
    HistoryInv(w) && GoneInv(w) && Guarded(w) && JobInv(w)
  }

  predicate Init(w: World) {
    w == World([Absent], 0, false, false, Idle)
  }

  lemma UserStepKeepsInv(w: World, s: Step)
    requires Inv(w) && Enabled(w, s) && (s.Create? || s.Edit? || s.RequestDeletion? || s.OtherWrite?)
    ensures Inv(Apply(w, s))
  {
    var w' := Apply(w, s);
    assert forall i | 0 <= i < |w.history| :: w'.history[i] == w.history[i] && Follows(w.history[i], w.Live());
    assert w'.history[w.seen] == w.history[w.seen];
  }

  lemma ReadStepKeepsInv(w: World, s: Step)
    requires Inv(w) && Enabled(w, s) && (s.Begin? || s.Decide? || s.Finish? || s.Crash?)
    ensures Inv(Apply(w, s))
  {}

  lemma RbacStepKeepsInv(w: World, s: Step)
    requires Inv(w) && Enabled(w, s) && (s.DropRole? || s.DropBinding? || s.ApplyRole? || s.ApplyBinding?)
    ensures Inv(Apply(w, s))
  {
    assert Follows(w.history[w.seen], w.Live());
  }

  lemma FinalizerStepKeepsInv(w: World, s: Step)
    requires Inv(w) && Enabled(w, s) && (s.ReleaseFinalizer? || s.ClaimFinalizer?)
    ensures Inv(Apply(w, s))
  {
    var w' := Apply(w, s);
    assert forall i | 0 <= i < |w.history| :: w'.history[i] == w.history[i] && Follows(w.history[i], w.Live());
  }

  lemma StepKeepsInv(w: World, s: Step)
    requires Inv(w) && Enabled(w, s)
    ensures Inv(Apply(w, s))
  {
    match s
    case Create(_, _, _) | Edit(_, _, _) | RequestDeletion | OtherWrite => UserStepKeepsInv(w, s);
    case Begin(_) | Decide | Finish | Crash => ReadStepKeepsInv(w, s);
    case DropRole | DropBinding | ApplyRole(_) | ApplyBinding(_) => RbacStepKeepsInv(w, s);
    case ReleaseFinalizer | ClaimFinalizer => FinalizerStepKeepsInv(w, s);
  }

  // ------------------------------------------------------------------
  // Runs.
  // ------------------------------------------------------------------

  ghost predicate IsRun(states: seq<World>, steps: seq<Step>) {
    && |states| == |steps| + 1
    && Init(states[0])
    && forall i | 0 <= i < |steps| ::
         states[i].history != [] && Enabled(states[i], steps[i]) && states[i + 1] == Apply(states[i], steps[i])
  }

  lemma {:induction false} RunKeepsInv(states: seq<World>, steps: seq<Step>, i: nat)
    requires IsRun(states, steps) && i < |states|
    ensures Inv(states[i])
  {
    if i > 0 {
      RunKeepsInv(states, steps, i - 1);
      StepKeepsInv(states[i - 1], steps[i - 1]);
    }
  }

  // In every reachable state an existing catalog ClusterRole or binding implies
  // that the console exists and carries the finalizer; so neither outlives it.
  lemma CatalogImpliesFinalizer(states: seq<World>, steps: seq<Step>, i: nat)
    requires IsRun(states, steps) && i < |states|
    requires states[i].role || states[i].binding
    ensures states[i].history != [] && states[i].Live().Present? && states[i].Live().finalizer
  {
    RunKeepsInv(states, steps, i);
  }

  // A reconcile that came through with the capability off in what it read
  // leaves neither object.
  lemma CapabilityOffLeavesNothing(states: seq<World>, steps: seq<Step>, i: nat)
    requires IsRun(states, steps) && i < |states| && states[i].job.Converged?
    ensures var index := states[i].job.index;
            index < |states[i].history| && states[i].history[index].Present? &&
            (!states[i].history[index].catalogs ==> !states[i].role && !states[i].binding)
  {
    RunKeepsInv(states, steps, i);
  }

  // ------------------------------------------------------------------
  // The code: one crash-free reconcile, and what its cache shows of the two
  // objects, which may lag behind what is stored.
  // ------------------------------------------------------------------

  datatype Cache = Cache(role: bool, binding: bool)

  function Dropped(w: World): World
    requires w.history != [] && w.job.DroppingRole?
  {
    Apply(Apply(w, DropRole), DropBinding)
  }

  function Reconcile(w: World, index: nat, cache: Cache): World
    requires w.history != [] && Enabled(w, Begin(index))
  {
    var w1 := Apply(Apply(w, Begin(index)), Decide);
    match w1.job
    case DroppingRole(_, last) =>
      var w2 := Dropped(w1);
      if last then Apply(w2, ReleaseFinalizer) else w2
    case Claiming(_) => Apply(w1, ClaimFinalizer)
    case ApplyingRole(_) =>
      var w2 := Apply(w1, ApplyRole(cache.role));
      Apply(w2, ApplyBinding(cache.binding))
    case _ => w1
  }

  // One reconcile, by what it read: release, claim, leave alone, or make both
  // objects present or absent.
  lemma ReconcileEffect(w: World, index: nat, cache: Cache)
    requires w.history != [] && Enabled(w, Begin(index))
    ensures var c, w' := w.history[index], Reconcile(w, index, cache);
            var written := (updated: Console) => if index == |w.history| - 1 then w.history + [updated] else w.history;
            if c.Present? && c.deleting && c.finalizer then
              !w'.role && !w'.binding && w'.history == written(Absent)
            else if c.Present? && !c.deleting && !c.finalizer then
              w'.role == w.role && w'.binding == w.binding && w'.history == written(c.(finalizer := true))
            else if c.Present? && !c.deleting && !c.skip && c.accepted then
              w'.role == (c.catalogs && (w.role || !cache.role)) &&
              w'.binding == (c.catalogs && (w.binding || !cache.binding)) && w'.history == w.history
            else
              w'.role == w.role && w'.binding == w.binding && w'.history == w.history
  {}

  class Cluster {
    var history: seq<Console>
    var role: bool
    var binding: bool

    method DeleteCatalogClusterRBAC()
      modifies this`role, this`binding
      ensures !role && !binding
    {
      role := false;
      binding := false;
    }

    // r.Update: refused when another write came first.
    method Update(index: nat, updated: Console)
      requires index < |history|
      modifies this`history
      ensures history == if index == |old(history)| - 1 then old(history) + [updated] else old(history)
    {
      if index == |history| - 1 {
        history := history + [updated];
      }
    }

    // An object the cache shows as it should be is not written.
    method ReconcileRBAC(c: Console, cache: Cache)
      requires c.Present?
      modifies this`role, this`binding
      ensures role == (c.catalogs && (old(role) || !cache.role))
      ensures binding == (c.catalogs && (old(binding) || !cache.binding))
    {
      if !c.catalogs {
        DeleteCatalogClusterRBAC();
        return;
      }
      if !cache.role {
        role := true;
      }
      if !cache.binding {
        binding := true;
      }
    }

    method ReconcileConsole(index: nat, cache: Cache, ghost w: World)
      requires w.history == history && w.role == role && w.binding == binding
      requires history != [] && Enabled(w, Begin(index))
      modifies this
      ensures history == Reconcile(w, index, cache).history
      ensures role == Reconcile(w, index, cache).role && binding == Reconcile(w, index, cache).binding
    {
      ReconcileEffect(w, index, cache);
      var c := history[index];
      if c.Absent? {
        return;
      }
      if c.deleting {
        if !c.finalizer {
          return;
        }
        DeleteCatalogClusterRBAC();
        Update(index, Absent);
        return;
      }
      if !c.finalizer {
        Update(index, c.(finalizer := true));
        return;
      }
      if c.skip || !c.accepted {
        return;
      }
      ReconcileRBAC(c, cache);
    }
  }

  // An accepted console ends up with both objects, or with neither, as its spec
  // says, if and only if the cache shows no object as present that is gone.
  lemma ReconcileConverges(w: World, index: nat, cache: Cache)
    requires Inv(w) && Enabled(w, Begin(index))
    requires w.history[index].Present? && !w.history[index].deleting && w.history[index].finalizer
    requires !w.history[index].skip && w.history[index].accepted
    ensures Reconcile(w, index, cache).role == Reconcile(w, index, cache).binding == w.history[index].catalogs
            <==> (w.history[index].catalogs ==> (cache.role ==> w.role) && (cache.binding ==> w.binding))
    ensures Reconcile(w, index, cache).history == w.history
  {}

  // A console being deleted is released, on its current version, only after
  // both objects are gone; on a lagging version it is kept for the next attempt.
  lemma ReconcileReleases(w: World, index: nat, cache: Cache)
    requires Inv(w) && Enabled(w, Begin(index))
    requires w.history[index].Present? && w.history[index].deleting && w.history[index].finalizer
    ensures !Reconcile(w, index, cache).role && !Reconcile(w, index, cache).binding
    ensures Reconcile(w, index, cache).history
            == if index == |w.history| - 1 then w.history + [Absent] else w.history
  {}
}
