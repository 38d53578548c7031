// The configuration watcher: file events, the debounce timer, and the runtime
// that is served meanwhile.
module HotReload {
  import opened Text
  import opened ProxyConfig
  import opened Session
  import opened Routing

  // time.Second, in nanoseconds.
  const DEBOUNCE: int := 1_000_000_000

  datatype Config = Config(secrets: seq<string>, local: bool, users: seq<User>, routes: seq<RouteConfig>)

  // config.Load on the content of the file: None when it fails to parse or to validate.
  type Loader = string -> Option<Config>

  const MIN_SECRET: nat := 16

  // What validation guarantees of a configuration that loads. Defaults are
  // filled in before it, so the routes carry their levels already.
  ghost predicate Validates(load: Loader, lib: Library) {
    forall content :: load(content).Some? ==>
      var c := load(content).value;
      && c.secrets != [] && (forall i | 0 <= i < |c.secrets| :: |c.secrets[i]| >= MIN_SECRET)
      && UserProblems(c.users, c.local, lib) == []
      && c.routes != [] && RouteProblems(c.routes, lib) == []
  }

  ghost predicate Serves(rt: Runtime, c: Config) { BuiltFrom(rt, c.secrets, c.users, c.routes) }

  // ------------------------------------------------------------------
  // The code: one turn of the select loop for each kind of input.
  // ------------------------------------------------------------------

  datatype Input =
    | FileEvent(relevant: bool, now: int)
    | WatchError
    // with what the file holds then, or nothing when it cannot be read
    | TimerFired(content: Option<string>)
    // the context is done, or one of the watcher's channels is closed
    | Cancelled
    | ChannelClosed

  // The timer and the configuration served, after one input.
  datatype Watch = Watch(deadline: Option<int>, source: Config)

  function Turn(load: Loader, w: Watch, input: Input): Watch {
    match input
    case FileEvent(relevant, now) => if relevant then w.(deadline := Some(now + DEBOUNCE)) else w
    case WatchError | Cancelled | ChannelClosed => w
    case TimerFired(content) =>
      Watch(None, if content.Some? && load(content.value).Some? then load(content.value).value else w.source)
  }

  function Turns(load: Loader, w: Watch, inputs: seq<Input>): Watch {
    if inputs == [] then w else Turn(load, Turns(load, w, inputs[..|inputs| - 1]), inputs[|inputs| - 1])
  }

  lemma TurnsNext(load: Loader, w: Watch, inputs: seq<Input>, i: nat)
    requires i < |inputs|
    ensures Turns(load, w, inputs[..i + 1]) == Turn(load, Turns(load, w, inputs[..i]), inputs[i])
  {
    assert inputs[..i + 1][..i] == inputs[..i];
  }

  // How the loop stands: still selecting, stopped, or failed.
  datatype End = Selecting | Stopped | Failed

  predicate EndsLoop(input: Input) { input.Cancelled? || input.ChannelClosed? }

  // Neither cancellation nor a closed channel is among the first n inputs; a
  // watcher's error may well be.
  predicate RunsThrough(inputs: seq<Input>, n: int) {
    forall k | 0 <= k < |inputs| && k < n :: !inputs[k].Cancelled? && !inputs[k].ChannelClosed?
  }

  predicate FirstEnd(inputs: seq<Input>, n: int) {
    0 <= n < |inputs| && (inputs[n].Cancelled? || inputs[n].ChannelClosed?) && RunsThrough(inputs, n)
  }

  // The number of inputs handled before the one that ends the loop.
  function Handled(inputs: seq<Input>): (n: nat)
    ensures n <= |inputs|
  {
    if inputs == [] || EndsLoop(inputs[0]) then 0 else 1 + Handled(inputs[1..])
  }

  lemma {:induction false} HandledUpTo(inputs: seq<Input>, n: nat)
    requires n <= |inputs| && forall k | 0 <= k < n :: !EndsLoop(inputs[k])
    requires n < |inputs| ==> EndsLoop(inputs[n])
    ensures Handled(inputs) == n
  {
    if n > 0 {
      HandledUpTo(inputs[1..], n - 1);
    }
  }

  class Watcher {
    const load: Loader
    var deadline: Option<int>
    var runtime: Runtime
    ghost var source: Config

    ghost predicate Valid()
      reads this
    {
      Serves(runtime, source)
    }

    ghost function State(): Watch
      reads this
    {
      Watch(deadline, source)
    }

    constructor (load: Loader, runtime: Runtime, ghost source: Config)
      requires Serves(runtime, source)
      ensures Valid() && this.load == load && State() == Watch(None, source)
    {
      this.load := load;
      this.deadline := None;
      this.runtime := runtime;
      this.source := source;
    }

    // A file that cannot be read, and a configuration that does not load or does
    // not build, change nothing.
    method Reload(content: Option<string>, ghost lib: Library)
      requires Valid() && Validates(load, lib)
      modifies this`runtime, this`source
      ensures Valid()
      ensures source == if content.Some? && load(content.value).Some? then load(content.value).value else old(source)
      ensures content.None? || load(content.value).None? ==> runtime == old(runtime)
    {
      if content == None {
        return;
      }
      var loaded := load(content.value);
      if loaded == None {
        return;
      }
      var c := loaded.value;
      var built := BuildRuntime(c.secrets, c.users, c.routes);
      if built == None {
        assert false;
        return;
      }
      runtime := built.value;
      source := c;
    }

    method OnTimer(content: Option<string>, ghost lib: Library)
      requires Valid() && Validates(load, lib)
      modifies this
      ensures Valid() && State() == Turn(load, old(State()), TimerFired(content))
    {
      deadline := None;
      Reload(content, lib);
    }

    // One turn of the loop.
    method Handle(input: Input, ghost lib: Library)
      requires Valid() && Validates(load, lib)
      modifies this
      ensures Valid() && State() == Turn(load, old(State()), input)
    {
      match input {
        case FileEvent(relevant, now) =>
          if relevant {
            deadline := Some(now + DEBOUNCE);
          }
        case TimerFired(content) => OnTimer(content, lib);
        case WatchError | Cancelled | ChannelClosed =>
      }
    }

    // The loop of Run over the inputs select hands it, up to one that ends it.
    method Run(inputs: seq<Input>, ghost lib: Library) returns (end: End)
      requires Valid() && Validates(load, lib)
      modifies this
      ensures Valid() && State() == Turns(load, old(State()), inputs[..Handled(inputs)])
      ensures end == Selecting <==> RunsThrough(inputs, |inputs|)
      ensures end == Stopped <==> exists n :: FirstEnd(inputs, n) && inputs[n].Cancelled?
      ensures end == Failed <==> exists n :: FirstEnd(inputs, n) && inputs[n].ChannelClosed?
    {
      ghost var w := State();
      for i := 0 to |inputs|
        invariant Valid() && State() == Turns(load, w, inputs[..i])
        invariant forall k | 0 <= k < i :: !EndsLoop(inputs[k])
      {
        TurnsNext(load, w, inputs, i);
        if EndsLoop(inputs[i]) {
          HandledUpTo(inputs, i);
          assert FirstEnd(inputs, i);
          return if inputs[i].Cancelled? then Stopped else Failed;
        }
        Handle(inputs[i], lib);
      }
      HandledUpTo(inputs, |inputs|);
      return Selecting;
    }
  }

  // ------------------------------------------------------------------
  // The loop in its environment.
  // ------------------------------------------------------------------

  // A run starts when the file has been loaded; the watch is added later, when
  // the providers are set up. `writes` counts the changes of the file and
  // `lastRead` is the one the last reload saw; `queue` holds the relevance of the
  // events not yet delivered; `seen` is every content read, the one at startup
  // included. Of the relevant events, `raised` counts all, `delivered` those that
  // reached the loop, and `covered` those that did so before the timer last fired.
  datatype World = World(disk: string, writes: nat, watching: bool, queue: seq<bool>, clock: int, lastRelevant: int,
                         watch: Watch, seen: seq<string>, lastRead: nat, raised: nat, delivered: nat, covered: nat)
  {
    // A change of the file no reload has read yet.
    predicate Unread() { lastRead != writes }

    // An event or the timer will lead to a reload.
    predicate Pending() { true in queue || watch.deadline.Some? }

    function WithEvent(relevant: bool): World {
      if watching then this.(queue := queue + [relevant], raised := raised + if relevant then 1 else 0) else this
    }
  }

  datatype Step =
    | Write(content: string)
    | OtherEvent(relevant: bool)
    | AddWatch
    | Tick(now: int)
    | Deliver
    | Fail
    | Fire(readable: bool)

  predicate Enabled(w: World, s: Step) {
    match s
    case AddWatch => !w.watching
    case Tick(now) => w.clock <= now
    case Deliver => w.queue != []
    case Fire(_) => w.watch.deadline.Some? && w.watch.deadline.value <= w.clock
    case _ => true
  }

  function Apply(load: Loader, w: World, s: Step): World
    requires Enabled(w, s)
  {
    match s
    // under the watch, a change of the file raises an event under its name or for ..data
    case Write(content) => w.(disk := content, writes := w.writes + 1).WithEvent(true)
    case OtherEvent(relevant) => w.WithEvent(relevant)
    case AddWatch => w.(watching := true)
    case Tick(now) => w.(clock := now)
    case Deliver =>
      w.(queue := w.queue[1..], watch := Turn(load, w.watch, FileEvent(w.queue[0], w.clock)),
         lastRelevant := if w.queue[0] then w.clock else w.lastRelevant,
         delivered := w.delivered + if w.queue[0] then 1 else 0)
    case Fail => w.(watch := Turn(load, w.watch, WatchError))
    case Fire(readable) =>
      var w' := w.(watch := Turn(load, w.watch, TimerFired(if readable then Some(w.disk) else None)),
                   covered := w.delivered);
      if readable then w'.(seen := w.seen + [w.disk], lastRead := w.writes) else w'
  }

  ghost predicate Init(load: Loader, w: World) {
    && load(w.disk).Some? && w.watch == Watch(None, load(w.disk).value) && !w.watching
    && w.seen == [w.disk] && w.writes == 0 && w.lastRead == 0 && w.queue == [] && w.lastRelevant == w.clock
    && w.raised == 0 && w.delivered == 0 && w.covered == 0
  }

  ghost predicate IsRun(load: Loader, states: seq<World>, steps: seq<Step>) {
    && |states| == |steps| + 1
    && Init(load, states[0])
    && forall i | 0 <= i < |steps| :: Enabled(states[i], steps[i]) && states[i + 1] == Apply(load, states[i], steps[i])
  }

  // The last content seen that loaded and validated.
  function LastLoaded(load: Loader, seen: seq<string>): Option<Config> {
    if seen == [] then None
    else if load(seen[|seen| - 1]).Some? then load(seen[|seen| - 1])
    else LastLoaded(load, seen[..|seen| - 1])
  }

  // The number of relevant events in a queue.
  function Relevant(queue: seq<bool>): nat {
    if queue == [] then 0 else (if queue[0] then 1 else 0) + Relevant(queue[1..])
  }

  lemma {:induction false} RelevantAppend(queue: seq<bool>, relevant: bool)
    ensures Relevant(queue + [relevant]) == Relevant(queue) + if relevant then 1 else 0
  {
    if queue == [] {
      assert [relevant][1..] == [];
    } else {
      assert (queue + [relevant])[1..] == queue[1..] + [relevant];
      RelevantAppend(queue[1..], relevant);
    }
  }

  lemma {:induction false} RelevantIffIn(queue: seq<bool>)
    ensures Relevant(queue) > 0 <==> true in queue
  {
    if queue != [] {
      RelevantIffIn(queue[1..]);
      assert queue == [queue[0]] + queue[1..];
    }
  }

  // Every relevant event is in the queue, or delivered and waited on, or covered.
  ghost predicate EventInv(w: World) {
    && (!w.watching ==> w.raised == 0)
    && w.covered <= w.delivered <= w.raised
    && Relevant(w.queue) == w.raised - w.delivered
    && (w.watch.deadline.Some? <==> w.delivered > w.covered)
  }

  ghost predicate Inv(load: Loader, w: World) {
    && EventInv(w)
    && w.lastRead <= w.writes
    // the configuration served is the last one that loaded
    && LastLoaded(load, w.seen) == Some(w.watch.source)
    && w.seen != []
    && (!w.Unread() ==> w.seen[|w.seen| - 1] == w.disk)
    // a pending timer runs from the last relevant event
    && w.lastRelevant <= w.clock
    && (w.watch.deadline.Some? ==> w.watch.deadline.value == w.lastRelevant + DEBOUNCE)
  }

  lemma StepKeepsInv(load: Loader, w: World, s: Step)
    requires Inv(load, w) && Enabled(w, s)
    ensures Inv(load, Apply(load, w, s))
  {
    match s
    case Write(content) => RelevantAppend(w.queue, true);
    case OtherEvent(relevant) => RelevantAppend(w.queue, relevant);
    case Fire(readable) => assert (w.seen + [w.disk])[..|w.seen|] == w.seen;
    case _ =>
  }

  lemma {:induction false} RunKeepsInv(load: Loader, states: seq<World>, steps: seq<Step>, i: nat)
    requires IsRun(load, states, steps) && i < |states|
    ensures Inv(load, states[i])
    decreases i
  {
    if i == 0 {
      assert LastLoaded(load, states[0].seen) == load(states[0].disk);
    } else {
      RunKeepsInv(load, states, steps, i - 1);
      StepKeepsInv(load, states[i - 1], steps[i - 1]);
    }
  }

  // In every run the last content that loaded and validated is what is served,
  // and a reload is on its way if and only if a relevant event was raised that
  // had not reached the loop when the timer last fired.
  lemma PendingIff(load: Loader, states: seq<World>, steps: seq<Step>, i: nat)
    requires IsRun(load, states, steps) && i < |states|
    ensures LastLoaded(load, states[i].seen) == Some(states[i].watch.source)
    ensures states[i].Pending() <==> states[i].raised > states[i].covered
  {
    RunKeepsInv(load, states, steps, i);
    RelevantIffIn(states[i].queue);
  }

  // ---- Which changes are lost. ----

  // Step k raises a relevant event: it comes after the watch was added.
  ghost predicate Raises(states: seq<World>, steps: seq<Step>, k: int)
    requires |states| == |steps| + 1
  {
    0 <= k < |steps| && states[k].watching && (steps[k].Write? || steps[k] == OtherEvent(true))
  }

  ghost predicate RaisedBefore(states: seq<World>, steps: seq<Step>, i: int)
    requires |states| == |steps| + 1
  {
    exists k :: k < i && Raises(states, steps, k)
  }

  lemma {:induction false} RaisedIff(load: Loader, states: seq<World>, steps: seq<Step>, i: nat)
    requires IsRun(load, states, steps) && i < |states|
    ensures states[i].raised > 0 <==> RaisedBefore(states, steps, i)
    decreases i
  {
    if i > 0 {
      RaisedIff(load, states, steps, i - 1);
      assert states[i] == Apply(load, states[i - 1], steps[i - 1]);
      assert states[i].raised > states[i - 1].raised <==> Raises(states, steps, i - 1);
    }
  }

  ghost predicate ReadsSucceed(steps: seq<Step>, i: int) {
    forall k | 0 <= k < |steps| && k < i :: steps[k] != Fire(false)
  }

  // As long as the file can be read, a change that is unread when some relevant
  // event has been raised has one raised that is not covered.
  lemma {:induction false} UnreadIsUncovered(load: Loader, states: seq<World>, steps: seq<Step>, i: nat)
    requires IsRun(load, states, steps) && i < |states| && ReadsSucceed(steps, i)
    ensures states[i].Unread() && states[i].raised > 0 ==> states[i].raised > states[i].covered
    decreases i
  {
    if i > 0 {
      UnreadIsUncovered(load, states, steps, i - 1);
      RunKeepsInv(load, states, steps, i - 1);
      assert states[i] == Apply(load, states[i - 1], steps[i - 1]);
    }
  }

  // In every run in which reloads can read the file, an unread change leads to a
  // reload if and only if a relevant event has been raised since the watch was
  // added.
  lemma UnreadIsPendingIff(load: Loader, states: seq<World>, steps: seq<Step>, i: nat)
    requires IsRun(load, states, steps) && i < |states| && ReadsSucceed(steps, i) && states[i].Unread()
    ensures states[i].Pending() <==> RaisedBefore(states, steps, i)
  {
    PendingIff(load, states, steps, i);
    RaisedIff(load, states, steps, i);
    UnreadIsUncovered(load, states, steps, i);
  }

  // The file was changed only under the watch.
  ghost predicate WrittenUnderWatch(states: seq<World>, steps: seq<Step>, i: int)
    requires |states| == |steps| + 1
  {
    forall k | 0 <= k < |steps| && k < i && steps[k].Write? :: states[k].watching
  }

  lemma {:induction false} WritesUnderWatchRaise(load: Loader, states: seq<World>, steps: seq<Step>, i: nat)
    requires IsRun(load, states, steps) && i < |states| && WrittenUnderWatch(states, steps, i)
    ensures states[i].writes > 0 ==> RaisedBefore(states, steps, i)
    decreases i
  {
    if i > 0 {
      WritesUnderWatchRaise(load, states, steps, i - 1);
      assert states[i] == Apply(load, states[i - 1], steps[i - 1]);
      if steps[i - 1].Write? {
        assert Raises(states, steps, i - 1);
      }
    }
  }

  // So no change is lost that is made under the watch.
  lemma NoChangeIsLost(load: Loader, states: seq<World>, steps: seq<Step>, i: nat)
    requires IsRun(load, states, steps) && i < |states| && ReadsSucceed(steps, i)
    requires WrittenUnderWatch(states, steps, i)
    ensures states[i].Unread() ==> states[i].Pending()
  {
    RunKeepsInv(load, states, steps, i);
    WritesUnderWatchRaise(load, states, steps, i);
    if states[i].Unread() {
      UnreadIsPendingIff(load, states, steps, i);
    }
  }

  lemma QuietStep(load: Loader, w: World, s: Step)
    requires Inv(load, w) && Enabled(w, s) && !w.Pending()
    requires !(w.watching && (s.Write? || s == OtherEvent(true)))
    ensures !Apply(load, w, s).Pending() && Apply(load, w, s).watch.source == w.watch.source
  {
    match s
    case OtherEvent(relevant) =>
      forall k | 0 <= k < |(w.queue + [relevant])| ensures w.watching ==> !(w.queue + [relevant])[k] {
        assert k < |w.queue| ==> w.queue[k] in w.queue;
      }
    case Deliver => assert w.queue[0] in w.queue;
    case _ =>
  }

  // Without a relevant event nothing ever leads to a reload again.
  lemma {:induction false} LostStaysLost(load: Loader, states: seq<World>, steps: seq<Step>, i: nat, j: nat)
    requires IsRun(load, states, steps) && i <= j < |states| && !states[i].Pending()
    requires forall k | i <= k < j :: !Raises(states, steps, k)
    ensures !states[j].Pending() && states[j].watch.source == states[i].watch.source
    decreases j
  {
    if i < j {
      LostStaysLost(load, states, steps, i, j - 1);
      RunKeepsInv(load, states, steps, j - 1);
      assert !Raises(states, steps, j - 1);
      QuietStep(load, states[j - 1], steps[j - 1]);
    }
  }

  // A change between the load and the watch is lost: the old configuration is
  // served and nothing leads to a reload.
  lemma StartupChangeIsLost(load: Loader, w: World, content: string)
    requires Init(load, w)
    ensures var w1 := Apply(load, w, Write(content));
            var w2 := Apply(load, w1, AddWatch);
            && IsRun(load, [w, w1, w2], [Write(content), AddWatch])
            && w2.disk == content && w2.Unread() && !w2.Pending() && w2.watch.source == load(w.disk).value
  {
    var w1 := Apply(load, w, Write(content));
    var w2 := Apply(load, w1, AddWatch);
    var states, steps := [w, w1, w2], [Write(content), AddWatch];
    forall i | 0 <= i < |steps|
      ensures Enabled(states[i], steps[i]) && states[i + 1] == Apply(load, states[i], steps[i])
    {
      assert i == 0 || i == 1;
    }
  }

  // A relevant event, once delivered, has a timer pending until a reload.
  lemma {:induction false} DeliveredEventIsPending(load: Loader, states: seq<World>, steps: seq<Step>, i: nat, j: nat)
    requires IsRun(load, states, steps) && i < j < |states|
    requires steps[i] == Deliver && states[i].queue[0]
    requires forall k | i < k < j :: !steps[k].Fire?
    ensures states[j].watch.deadline.Some?
    decreases j
  {
    if j > i + 1 {
      DeliveredEventIsPending(load, states, steps, i, j - 1);
      assert states[j] == Apply(load, states[j - 1], steps[j - 1]);
    } else {
      assert states[j] == Apply(load, states[i], steps[i]);
    }
  }

  // A burst collapses: a timer is set for one second after the last relevant
  // event, and a reload comes no earlier than that.
  lemma ReloadWaitsForQuiet(load: Loader, states: seq<World>, steps: seq<Step>, i: nat)
    requires IsRun(load, states, steps) && i < |steps| && steps[i].Fire?
    ensures states[i].watch.deadline == Some(states[i].lastRelevant + 1_000_000_000)
    ensures states[i].clock - states[i].lastRelevant >= 1_000_000_000
  {
    RunKeepsInv(load, states, steps, i);
    assert Enabled(states[i], steps[i]);
  }

  // When events and timer have been worked off, a file that loads is what is
  // served, unless it was changed before the watch only and nothing relevant
  // has been raised since.
  lemma QuietMeansServed(load: Loader, states: seq<World>, steps: seq<Step>, i: nat)
    requires IsRun(load, states, steps) && i < |states| && ReadsSucceed(steps, i)
    requires !states[i].Pending() && load(states[i].disk).Some?
    requires WrittenUnderWatch(states, steps, i) || RaisedBefore(states, steps, i)
    ensures states[i].watch.source == load(states[i].disk).value
  {
    RunKeepsInv(load, states, steps, i);
    if states[i].Unread() {
      UnreadIsPendingIff(load, states, steps, i);
      WritesUnderWatchRaiseIf(load, states, steps, i);
    }
  }

  lemma WritesUnderWatchRaiseIf(load: Loader, states: seq<World>, steps: seq<Step>, i: nat)
    requires IsRun(load, states, steps) && i < |states|
    ensures WrittenUnderWatch(states, steps, i) && states[i].writes > 0 ==> RaisedBefore(states, steps, i)
  {
    if WrittenUnderWatch(states, steps, i) {
      WritesUnderWatchRaise(load, states, steps, i);
    }
  }

  // Sessions outlive reloads: a session sealed by an earlier runtime reads back
  // under a later one exactly when the later configuration still lists the
  // first secret of the earlier one and the session has not expired; it is
  // unchanged then.
  lemma SessionsOutliveReloads(
    load: Loader, lib: Library, states: seq<World>, steps: seq<Step>, i: nat, j: nat,
    earlier: Runtime, later: Runtime, d: Data, now: int)
    requires Validates(load, lib) && IsRun(load, states, steps) && i <= j < |states|
    requires Serves(earlier, states[i].watch.source) && Serves(later, states[j].watch.source)
    ensures earlier.keys != []
    ensures ReadCookie(later.keys, Some(Seal(earlier.keys, d)), now)
            == if states[i].watch.source.secrets[0] in states[j].watch.source.secrets && Valid(d, now) then Some(d)
               else None
  {
    RunKeepsInv(load, states, steps, i);
    LastLoadedLoads(load, states[i].seen);
    var sealing, listed := states[i].watch.source.secrets, states[j].watch.source.secrets;
    assert sealing != [];
    SealedReadsBackIff(earlier.keys, later.keys, d, now);
    KeyOfSecret(listed, sealing[0]);
  }

  lemma KeyOfSecret(secrets: seq<string>, secret: string)
    ensures Key(secret) in Keys(secrets) <==> secret in secrets
  {
    if secret in secrets {
      var k :| 0 <= k < |secrets| && secrets[k] == secret;
      assert Keys(secrets)[k] == Key(secret);
    }
  }

  // In every run the runtime served forwards a request exactly when its session
  // is valid and reaches the longest matching route of the last configuration
  // that loaded; so no session without a known level is ever forwarded.
  lemma ServedForwardsIff(
    load: Loader, lib: Library, states: seq<World>, steps: seq<Step>, i: nat, rt: Runtime,
    path: string, isGet: bool, cookie: Option<Cookie>, now: int, prefix: string, user: string, level: string)
    requires Validates(load, lib) && IsRun(load, states, steps) && i < |states|
    requires Serves(rt, states[i].watch.source)
    ensures LastLoaded(load, states[i].seen) == Some(states[i].watch.source)
    ensures var c := states[i].watch.source;
            HandleProxied(rt, path, isGet, cookie, now) == Forwarded(prefix, user, level)
            <==> exists r :: IsLongestMatch(c.routes, path, r) && r.pathPrefix == prefix
                             && Admits(Keys(c.secrets), cookie, now, r, user, level)
    ensures HandleProxied(rt, path, isGet, cookie, now) == Forwarded(prefix, user, level)
            ==> level in {VIEW, POWERUSER, DBA}
  {
    var c := states[i].watch.source;
    RunKeepsInv(load, states, steps, i);
    LastLoadedLoads(load, states[i].seen);
    assert RouteProblems(c.routes, lib) == [];
    ForwardedIff(rt, c.secrets, c.users, c.routes, lib, path, isGet, cookie, now, prefix, user, level);
    if HandleProxied(rt, path, isGet, cookie, now) == Forwarded(prefix, user, level) {
      UnknownLevelIsNeverForwarded(rt, c.secrets, c.users, c.routes, lib, path, isGet, cookie, now);
    }
  }

  lemma {:induction false} LastLoadedLoads(load: Loader, seen: seq<string>)
    requires LastLoaded(load, seen).Some?
    ensures exists content :: load(content) == LastLoaded(load, seen)
  {
    if load(seen[|seen| - 1]).None? {
      LastLoadedLoads(load, seen[..|seen| - 1]);
    }
  }
}
