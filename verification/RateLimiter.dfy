// The per-IP failure limiter of the local login form.
module RateLimiter {

  const MAX_FAILURES: nat := 10
  // time.Minute, in nanoseconds.
  const WINDOW: int := 60_000_000_000

  datatype Entry = Entry(windowStart: int, count: nat)

  type Failures = map<string, Entry>

  predicate Expired(st: Failures, ip: string, now: int) {
    ip !in st || now - st[ip].windowStart >= WINDOW
  }

  predicate Allows(st: Failures, ip: string, now: int) {
    Expired(st, ip, now) || st[ip].count < MAX_FAILURES
  }

  // fail reads the clock once to check the window and again to open a new one.
  function AfterFail(st: Failures, ip: string, checked: int, stamped: int): Failures {
    if Expired(st, ip, checked) then st[ip := Entry(stamped, 1)]
    else st[ip := Entry(st[ip].windowStart, st[ip].count + 1)]
  }

  // One POST of the login form: the clock readings it takes and what it meets.
  datatype Submission = Submission(ip: string, allowAt: int, checkAt: int, stampAt: int,
                                   parses: bool, known: bool, matches: bool)

  datatype Response = TooManyRequests | BadRequest | Unauthorized | SignedIn

  function Respond(st: Failures, s: Submission): Response {
    if !Allows(st, s.ip, s.allowAt) then TooManyRequests
    else if !s.parses then BadRequest
    else if !s.matches || !s.known then Unauthorized
    else SignedIn
  }

  function AfterSubmit(st: Failures, s: Submission): Failures {
    match Respond(st, s)
    case Unauthorized => AfterFail(st, s.ip, s.checkAt, s.stampAt)
    case SignedIn => st - {s.ip}
    case _ => st
  }

  class Limiter {
    var failures: Failures

    constructor ()
      ensures failures == map[]
    {
      failures := map[];
    }

    method Allow(ip: string, now: int) returns (ok: bool)
      ensures ok == Allows(failures, ip, now)
    {
      if ip !in failures || now - failures[ip].windowStart >= WINDOW {
        return true;
      }
      return failures[ip].count < MAX_FAILURES;
    }

    method Fail(ip: string, checked: int, stamped: int)
      modifies this
      ensures failures == AfterFail(old(failures), ip, checked, stamped)
    {
      if ip !in failures || checked - failures[ip].windowStart >= WINDOW {
        failures := failures[ip := Entry(stamped, 1)];
        return;
      }
      var entry := failures[ip];
      failures := failures[ip := entry.(count := entry.count + 1)];
    }

    method Reset(ip: string)
      modifies this
      ensures failures == old(failures) - {ip}
    {
      failures := failures - {ip};
    }

    // handleSubmit: the limiter is asked first and told last.
    method HandleSubmit(s: Submission) returns (response: Response)
      modifies this
      ensures response == Respond(old(failures), s)
      ensures failures == AfterSubmit(old(failures), s)
    {
      var allowed := Allow(s.ip, s.allowAt);
      if !allowed {
        return TooManyRequests;
      }
      if !s.parses {
        return BadRequest;
      }
      if !s.matches || !s.known {
        Fail(s.ip, s.checkAt, s.stampAt);
        return Unauthorized;
      }
      Reset(s.ip);
      return SignedIn;
    }
  }

  // ------------------------------------------------------------------
  // Sequential submissions: at most 2 * MAX_FAILURES - 1 failures are recorded
  // in any interval of one window's length.
  // ------------------------------------------------------------------

  // The clock never goes back, within a submission or between two.
  predicate Ordered(clock: int, subs: seq<Submission>)
    decreases |subs|
  {
    subs == [] ||
    (clock <= subs[0].allowAt <= subs[0].checkAt <= subs[0].stampAt && Ordered(subs[0].stampAt, subs[1..]))
  }

  // A recorded failure: its time, and the entry it leaves behind.
  datatype Record = Record(at: int, entry: Entry)

  function RecordOf(st: Failures, s: Submission): Record {
    Record(if Expired(st, s.ip, s.checkAt) then s.stampAt else s.checkAt,
           if Expired(st, s.ip, s.checkAt) then Entry(s.stampAt, 1)
           else Entry(st[s.ip].windowStart, st[s.ip].count + 1))
  }

  function Records(st: Failures, subs: seq<Submission>, ip: string): seq<Record>
    decreases |subs|
  {
    if subs == [] then []
    else
      var rest := Records(AfterSubmit(st, subs[0]), subs[1..], ip);
      if subs[0].ip == ip && Respond(st, subs[0]) == Unauthorized then [RecordOf(st, subs[0])] + rest else rest
  }

  predicate NoSignIn(st: Failures, subs: seq<Submission>, ip: string)
    decreases |subs|
  {
    subs == [] ||
    (!(subs[0].ip == ip && Respond(st, subs[0]) == SignedIn) && NoSignIn(AfterSubmit(st, subs[0]), subs[1..], ip))
  }

  // A failure either opens a window, no earlier than one length after the last
  // one opened, or is counted inside the open window.
  predicate Opens(r: Record) { r.entry == Entry(r.at, 1) }

  predicate Counted(e: Entry, r: Record) {
    && r.entry == Entry(e.windowStart, e.count + 1)
    && r.entry.count <= MAX_FAILURES
    && e.windowStart <= r.at < e.windowStart + WINDOW
  }

  predicate Link(e: Entry, r: Record) {
    (Opens(r) && r.at >= e.windowStart + WINDOW) || Counted(e, r)
  }

  predicate Chained(rs: seq<Record>) {
    && (rs != [] ==> Opens(rs[0]))
    && forall k | 0 < k < |rs| :: Link(rs[k - 1].entry, rs[k])
  }

  lemma {:induction false} RecordsLink(st: Failures, subs: seq<Submission>, ip: string, clock: int)
    requires Ordered(clock, subs) && NoSignIn(st, subs, ip)
    requires ip in st ==> st[ip].windowStart <= clock && st[ip].count <= MAX_FAILURES
    ensures var rs := Records(st, subs, ip);
            && (rs != [] ==> if ip in st then Link(st[ip], rs[0]) else Opens(rs[0]))
            && forall k | 0 < k < |rs| :: Link(rs[k - 1].entry, rs[k])
    decreases |subs|
  {
    if subs != [] {
      RecordsLink(AfterSubmit(st, subs[0]), subs[1..], ip, subs[0].stampAt);
    }
  }

  // From failure i to failure j, m windows were opened after that of i, and
  // each holds at most MAX_FAILURES failures.
  lemma {:induction false} WindowsBetween(rs: seq<Record>, i: nat, j: nat) returns (m: nat)
    requires Chained(rs) && i <= j < |rs|
    ensures rs[j].entry.windowStart >= rs[i].entry.windowStart + m * WINDOW
    ensures j - i <= m * MAX_FAILURES + rs[j].entry.count - rs[i].entry.count
    ensures 1 <= rs[j].entry.count <= MAX_FAILURES
  {
    if i == j {
      m := 0;
      if j > 0 {
        var _ := WindowsBetween(rs, i - 1, j - 1);
        assert Link(rs[j - 1].entry, rs[j]);
      }
    } else {
      m := WindowsBetween(rs, i, j - 1);
      assert Link(rs[j - 1].entry, rs[j]);
      if !Counted(rs[j - 1].entry, rs[j]) {
        m := m + 1;
      }
    }
  }

  lemma RecordInItsWindow(rs: seq<Record>, i: nat)
    requires Chained(rs) && i < |rs|
    ensures rs[i].entry.windowStart <= rs[i].at < rs[i].entry.windowStart + WINDOW
    ensures rs[i].entry.count == 1 ==> rs[i].at == rs[i].entry.windowStart
  {
    if i > 0 {
      assert Link(rs[i - 1].entry, rs[i]);
      var _ := WindowsBetween(rs, i - 1, i - 1);
    }
  }

  lemma FarFailuresAreFarInTime(rs: seq<Record>, i: nat, j: nat)
    requires Chained(rs) && i <= j < |rs| && j - i >= 2 * MAX_FAILURES - 1
    ensures rs[j].at - rs[i].at >= WINDOW
  {
    var m := WindowsBetween(rs, i, j);
    var _ := WindowsBetween(rs, i, i);
    RecordInItsWindow(rs, i);
    RecordInItsWindow(rs, j);
    assert m >= 1;
    assert rs[i].entry.count >= 2 ==> m >= 2;
  }

  // A minute in nanoseconds, by which the results measure time.
  const MINUTE: int := 60_000_000_000

  // How many failures fall in the half-open interval of one minute from a.
  function CountIn(rs: seq<Record>, a: int): nat {
    if rs == [] then 0
    else CountIn(rs[..|rs| - 1], a) + if a <= rs[|rs| - 1].at < a + MINUTE then 1 else 0
  }

  lemma {:induction false} FirstAndLastIn(rs: seq<Record>, a: int) returns (i: nat, j: nat)
    requires CountIn(rs, a) > 0
    ensures i <= j < |rs| && CountIn(rs, a) <= j - i + 1
    ensures a <= rs[i].at < a + MINUTE && a <= rs[j].at < a + MINUTE
  {
    var last := |rs| - 1;
    var before := rs[..last];
    if CountIn(before, a) == 0 {
      i, j := last, last;
    } else {
      i, j := FirstAndLastIn(before, a);
      if a <= rs[last].at < a + MINUTE {
        j := last;
      }
    }
  }

  // For one IP with no successful login in between, every half-open interval
  // of one minute holds at most 19 recorded failures.
  lemma FailuresPerInterval(st: Failures, subs: seq<Submission>, ip: string, clock: int, a: int)
    requires Ordered(clock, subs) && NoSignIn(st, subs, ip) && ip !in st
    ensures CountIn(Records(st, subs, ip), a) <= 19
  {
    var rs := Records(st, subs, ip);
    RecordsLink(st, subs, ip, clock);
    if CountIn(rs, a) >= 2 * MAX_FAILURES {
      var i, j := FirstAndLastIn(rs, a);
      FarFailuresAreFarInTime(rs, i, j);
    }
  }

  function After(st: Failures, subs: seq<Submission>): Failures
    decreases |subs|
  {
    if subs == [] then st else After(AfterSubmit(st, subs[0]), subs[1..])
  }

  // The failures an entry was already counting.
  function Already(st: Failures, ip: string, windowStart: int): nat {
    if ip in st && st[ip].windowStart == windowStart then st[ip].count else 0
  }

  lemma {:induction false} CountsOnlyFailures(st: Failures, subs: seq<Submission>, ip: string, clock: int)
    requires Ordered(clock, subs) && (ip in st ==> st[ip].windowStart <= clock)
    ensures ip in After(st, subs) ==>
              var e := After(st, subs)[ip];
              CountIn(Records(st, subs, ip), e.windowStart) >= e.count - Already(st, ip, e.windowStart)
    decreases |subs|
  {
    if subs != [] {
      var s, st' := subs[0], AfterSubmit(st, subs[0]);
      CountsOnlyFailures(st', subs[1..], ip, s.stampAt);
      if ip in After(st, subs) && s.ip == ip && Respond(st, s) == Unauthorized {
        FirstRecord(st, subs, ip, After(st, subs)[ip].windowStart);
      }
    }
  }

  // Nobody is shut out for less: an IP is refused only inside a minute in which
  // ten of its own failures were recorded.
  lemma RefusedOnlyAfterMaxFailures(subs: seq<Submission>, ip: string, clock: int, now: int)
    requires Ordered(clock, subs) && !Allows(After(map[], subs), ip, now)
    ensures exists from :: now < from + MINUTE && CountIn(Records(map[], subs, ip), from) >= 10
  {
    CountsOnlyFailures(map[], subs, ip, clock);
    var from := After(map[], subs)[ip].windowStart;
    assert now < from + MINUTE && CountIn(Records(map[], subs, ip), from) >= 10;
  }

  // Submissions of other IPs change nothing.
  function Only(subs: seq<Submission>, ip: string): seq<Submission> {
    if subs == [] then [] else (if subs[0].ip == ip then [subs[0]] else []) + Only(subs[1..], ip)
  }

  lemma {:induction false} OtherIpsDoNotMatter(st: Failures, st': Failures, subs: seq<Submission>, ip: string)
    requires (ip in st <==> ip in st') && (ip in st ==> st[ip] == st'[ip])
    ensures Records(st, subs, ip) == Records(st', Only(subs, ip), ip)
    decreases |subs|
  {
    if subs != [] {
      var s := subs[0];
      if s.ip == ip {
        assert Only(subs, ip)[1..] == Only(subs[1..], ip);
        OtherIpsDoNotMatter(AfterSubmit(st, s), AfterSubmit(st', s), subs[1..], ip);
      } else {
        assert Only(subs, ip) == Only(subs[1..], ip);
        OtherIpsDoNotMatter(AfterSubmit(st, s), st', subs[1..], ip);
      }
    }
  }

  // The bound is reached: one failure, nine more at the end of its window, ten
  // as the next one opens.
  function Wrong(ip: string, at: int): Submission {
    Submission(ip, at, at, at, true, true, false)
  }

  function Burst(ip: string, at: int, n: nat): seq<Submission> {
    if n == 0 then [] else [Wrong(ip, at)] + Burst(ip, at, n - 1)
  }

  lemma {:induction false} CountInAppend(a: seq<Record>, b: seq<Record>, from: int)
    ensures CountIn(a + b, from) == CountIn(a, from) + CountIn(b, from)
  {
    if b == [] {
      assert a + b == a;
    } else {
      assert (a + b)[..|a + b| - 1] == a + b[..|b| - 1];
      CountInAppend(a, b[..|b| - 1], from);
    }
  }

  lemma FirstRecord(st: Failures, subs: seq<Submission>, ip: string, from: int)
    requires subs != [] && subs[0].ip == ip && Respond(st, subs[0]) == Unauthorized
    ensures CountIn(Records(st, subs, ip), from)
            == CountIn(Records(AfterSubmit(st, subs[0]), subs[1..], ip), from)
               + if from <= RecordOf(st, subs[0]).at < from + MINUTE then 1 else 0
  {
    var r := RecordOf(st, subs[0]);
    CountInAppend([r], Records(AfterSubmit(st, subs[0]), subs[1..], ip), from);
    assert [r][..0] == [];
  }

  lemma {:induction false} BurstIsOrdered(ip: string, at: int, n: nat, rest: seq<Submission>)
    requires Ordered(at, rest)
    ensures Ordered(at, Burst(ip, at, n) + rest)
  {
    var subs := Burst(ip, at, n) + rest;
    if n == 0 {
      assert subs == rest;
    } else {
      BurstIsOrdered(ip, at, n - 1, rest);
      assert subs[1..] == Burst(ip, at, n - 1) + rest;
    }
  }

  lemma {:induction false} BurstRecords(st: Failures, ip: string, at: int, n: nat, rest: seq<Submission>, from: int)
    requires from <= at < from + MINUTE
    requires ip in st && at - st[ip].windowStart < WINDOW && st[ip].count + n <= MAX_FAILURES
    ensures CountIn(Records(st, Burst(ip, at, n) + rest, ip), from)
            == n + CountIn(Records(st[ip := st[ip].(count := st[ip].count + n)], rest, ip), from)
  {
    var subs := Burst(ip, at, n) + rest;
    if n == 0 {
      assert subs == rest && st[ip := st[ip].(count := st[ip].count + n)] == st;
    } else {
      var st' := AfterSubmit(st, Wrong(ip, at));
      assert subs[1..] == Burst(ip, at, n - 1) + rest;
      BurstRecords(st', ip, at, n - 1, rest, from);
      assert st'[ip := st'[ip].(count := st'[ip].count + (n - 1))] == st[ip := st[ip].(count := st[ip].count + n)];
      FirstRecord(st, subs, ip, from);
    }
  }

  lemma BoundIsReached(ip: string)
    ensures exists subs :: Ordered(0, subs) && CountIn(Records(map[], subs, ip), 1) == 19
  {
    var last := Burst(ip, WINDOW, MAX_FAILURES - 1);
    var next := [Wrong(ip, WINDOW)] + last;
    var subs := [Wrong(ip, 0)] + (Burst(ip, WINDOW - 1, MAX_FAILURES - 1) + next);
    var st1: Failures := map[ip := Entry(0, 1)];
    var st2: Failures := map[ip := Entry(0, MAX_FAILURES)];
    var st3: Failures := map[ip := Entry(WINDOW, 1)];
    assert last + [] == last;
    BurstRecords(st3, ip, WINDOW, MAX_FAILURES - 1, [], 1);
    assert next[1..] == last;
    FirstRecord(st2, next, ip, 1);
    BurstIsOrdered(ip, WINDOW, MAX_FAILURES - 1, []);
    assert Ordered(WINDOW - 1, next);
    BurstIsOrdered(ip, WINDOW - 1, MAX_FAILURES - 1, next);
    BurstRecords(st1, ip, WINDOW - 1, MAX_FAILURES - 1, next, 1);
    assert st1[ip := st1[ip].(count := st1[ip].count + (MAX_FAILURES - 1))] == st2;
    assert AfterSubmit(st2, next[0]) == st3;
    assert subs[1..] == Burst(ip, WINDOW - 1, MAX_FAILURES - 1) + next;
    FirstRecord(map[], subs, ip, 1);
    assert AfterSubmit(map[], subs[0]) == st1;
    assert Ordered(WINDOW - 1, subs[1..]);
    assert Ordered(0, subs[1..]);
    assert Ordered(0, subs);
  }

  // ------------------------------------------------------------------
  // What a single submission meets, and what it leaves behind.
  // ------------------------------------------------------------------

  // An IP is let in unless ten failures are counted in a window that was opened
  // less than a minute ago.
  predicate LetIn(st: Failures, ip: string, now: int) {
    ip in st ==> now - st[ip].windowStart >= MINUTE || st[ip].count < 10
  }

  // The answer, told by what is the case: a submission signs in if and only if it
  // is let in, parses, names a known user and matches its password.
  lemma AnswerIs(st: Failures, s: Submission)
    ensures Respond(st, s) == SignedIn <==> LetIn(st, s.ip, s.allowAt) && s.parses && s.known && s.matches
    ensures Respond(st, s) == Unauthorized <==> LetIn(st, s.ip, s.allowAt) && s.parses && !(s.known && s.matches)
    ensures Respond(st, s) == BadRequest <==> LetIn(st, s.ip, s.allowAt) && !s.parses
    ensures Respond(st, s) == TooManyRequests <==> !LetIn(st, s.ip, s.allowAt)
  {}

  // What it leaves behind: a sign-in clears the IP, a failure let in is counted,
  // in the open window or in a new one, and everything else changes nothing. No
  // other IP is ever affected.
  lemma LeftBehind(st: Failures, s: Submission, other: string)
    ensures LetIn(st, s.ip, s.allowAt) && s.parses && s.known && s.matches ==> s.ip !in AfterSubmit(st, s)
    ensures LetIn(st, s.ip, s.allowAt) && s.parses && !(s.known && s.matches) ==>
              s.ip in AfterSubmit(st, s) &&
              AfterSubmit(st, s)[s.ip] ==
              if s.ip in st && s.checkAt < st[s.ip].windowStart + MINUTE
              then Entry(st[s.ip].windowStart, st[s.ip].count + 1) else Entry(s.stampAt, 1)
    ensures !LetIn(st, s.ip, s.allowAt) || !s.parses ==> AfterSubmit(st, s) == st
    ensures other != s.ip ==> (other in AfterSubmit(st, s) <==> other in st)
                              && (other in st ==> AfterSubmit(st, s)[other] == st[other])
  {}

  lemma {:induction false} CountGrowsByOwn(st: Failures, subs: seq<Submission>, ip: string)
    ensures ip in After(st, subs) ==>
              After(st, subs)[ip].count <= |Only(subs, ip)| + if ip in st then st[ip].count else 0
    decreases |subs|
  {
    if subs != [] {
      CountGrowsByOwn(AfterSubmit(st, subs[0]), subs[1..], ip);
      LeftBehind(st, subs[0], ip);
    }
  }

  // After a sign-in, the next ten submissions of the IP are let in, whatever the
  // others do.
  lemma SignInClears(st: Failures, s: Submission, subs: seq<Submission>, now: int)
    requires LetIn(st, s.ip, s.allowAt) && s.parses && s.known && s.matches
    requires |Only(subs, s.ip)| < 10
    ensures LetIn(After(AfterSubmit(st, s), subs), s.ip, now)
  {
    LeftBehind(st, s, s.ip);
    CountGrowsByOwn(AfterSubmit(st, s), subs, s.ip);
  }

  lemma {:induction false} BurstCounts(st: Failures, ip: string, at: int, n: nat, start: int, count: nat)
    requires ip in st && st[ip] == Entry(start, count) && start <= at < start + MINUTE && count + n <= 10
    ensures ip in After(st, Burst(ip, at, n)) && After(st, Burst(ip, at, n))[ip] == Entry(start, count + n)
  {
    if n > 0 {
      BurstCounts(AfterSubmit(st, Wrong(ip, at)), ip, at, n - 1, start, count + 1);
      assert Burst(ip, at, n)[1..] == Burst(ip, at, n - 1);
    }
  }

  // After ten failures at one instant an IP is refused for a minute, to the
  // nanosecond.
  lemma TenFailuresRefuseForAMinute(ip: string, at: int, now: int)
    requires now >= at
    ensures LetIn(After(map[], Burst(ip, at, 10)), ip, now) <==> now >= at + MINUTE
    ensures Respond(After(map[], Burst(ip, at, 10)), Wrong(ip, now)) == TooManyRequests <==> now < at + MINUTE
  {
    BurstCounts(AfterSubmit(map[], Wrong(ip, at)), ip, at, 9, at, 1);
    assert Burst(ip, at, 10)[1..] == Burst(ip, at, 9);
  }

  // ------------------------------------------------------------------
  // Interleaved submissions: with at most n in flight for one IP, the stored
  // count never exceeds MAX_FAILURES - 1 + n.
  // ------------------------------------------------------------------

  // Submissions in flight have been let in and have not yet been recorded.
  datatype Server = Server(failures: Failures, inFlight: map<string, nat>, clock: int)

  function InFlight(w: Server, ip: string): nat {
    if ip in w.inFlight then w.inFlight[ip] else 0
  }

  datatype Action =
    | Enter(ip: string, at: int)
    | RecordFailure(ip: string, checked: int, stamped: int)
    | Succeed(ip: string, at: int)
    | Abandon(ip: string, at: int)

  predicate Possible(w: Server, act: Action) {
    match act
    case Enter(_, at) => w.clock <= at
    case RecordFailure(ip, checked, stamped) => w.clock <= checked <= stamped && InFlight(w, ip) > 0
    case Succeed(ip, at) => w.clock <= at && InFlight(w, ip) > 0
    case Abandon(ip, at) => w.clock <= at && InFlight(w, ip) > 0
  }

  function Take(w: Server, act: Action): Server
    requires Possible(w, act)
  {
    match act
    case Enter(ip, at) =>
      if Allows(w.failures, ip, at) then w.(inFlight := w.inFlight[ip := InFlight(w, ip) + 1], clock := at)
      else w.(clock := at)
    case RecordFailure(ip, checked, stamped) =>
      Server(AfterFail(w.failures, ip, checked, stamped), w.inFlight[ip := InFlight(w, ip) - 1], stamped)
    case Succeed(ip, at) => Server(w.failures - {ip}, w.inFlight[ip := InFlight(w, ip) - 1], at)
    case Abandon(ip, at) => w.(inFlight := w.inFlight[ip := InFlight(w, ip) - 1], clock := at)
  }

  ghost predicate IsSchedule(states: seq<Server>, actions: seq<Action>) {
    && |states| == |actions| + 1
    && states[0].failures == map[] && states[0].inFlight == map[]
    && forall i | 0 <= i < |actions| :: Possible(states[i], actions[i]) && states[i + 1] == Take(states[i], actions[i])
  }

  // While the window is open, the count and the submissions in flight share
  // the budget; a window that has expired will be replaced, not counted up.
  predicate Budget(w: Server, ip: string, n: nat) {
    ip in w.failures ==>
      && w.failures[ip].windowStart <= w.clock
      && w.failures[ip].count <= MAX_FAILURES - 1 + n
      && (!Expired(w.failures, ip, w.clock) ==> w.failures[ip].count + InFlight(w, ip) <= MAX_FAILURES - 1 + n)
  }

  lemma TakeKeepsBudget(w: Server, act: Action, ip: string, n: nat)
    requires Possible(w, act) && Budget(w, ip, n)
    requires InFlight(w, ip) <= n && InFlight(Take(w, act), ip) <= n
    ensures Budget(Take(w, act), ip, n)
  {}

  lemma {:induction false} InterleavedCount(states: seq<Server>, actions: seq<Action>, ip: string, n: nat, i: nat)
    requires IsSchedule(states, actions) && i < |states|
    requires forall k | 0 <= k <= i :: InFlight(states[k], ip) <= n
    ensures Budget(states[i], ip, n)
    ensures ip in states[i].failures ==> states[i].failures[ip].count <= 9 + n
  {
    if i > 0 {
      InterleavedCount(states, actions, ip, n, i - 1);
      assert states[i] == Take(states[i - 1], actions[i - 1]);
      TakeKeepsBudget(states[i - 1], actions[i - 1], ip, n);
    }
  }

  // ---- The interleaved bound is reached as well. ----

  // w is the last state of a schedule that never has more than n of the IP's
  // submissions in flight.
  ghost predicate Scheduled(w: Server, ip: string, n: nat) {
    exists states, actions :: Ends(states, actions, w) && forall k | 0 <= k < |states| :: InFlight(states[k], ip) <= n
  }

  ghost predicate Ends(states: seq<Server>, actions: seq<Action>, w: Server) {
    IsSchedule(states, actions) && states[|actions|] == w
  }

  lemma ScheduledStep(w: Server, act: Action, ip: string, n: nat)
    requires Scheduled(w, ip, n) && Possible(w, act) && InFlight(Take(w, act), ip) <= n
    ensures Scheduled(Take(w, act), ip, n)
  {
    var states, actions :| Ends(states, actions, w) && forall k | 0 <= k < |states| :: InFlight(states[k], ip) <= n;
    var states', actions' := states + [Take(w, act)], actions + [act];
    forall i | 0 <= i < |actions'|
      ensures Possible(states'[i], actions'[i]) && states'[i + 1] == Take(states'[i], actions'[i])
    {
      if i < |actions| {
        assert Possible(states[i], actions[i]);
      }
    }
    assert Ends(states', actions', Take(w, act));
  }

  predicate Stands(w: Server, ip: string, count: nat, inFlight: nat) {
    && w.clock == 0 && InFlight(w, ip) == inFlight
    && if count == 0 then ip !in w.failures else ip in w.failures && w.failures[ip] == Entry(0, count)
  }

  // One submission after the other fails.
  lemma {:induction false} FailInTurn(ip: string, n: nat, count: nat) returns (w: Server)
    requires 1 <= n && count < MAX_FAILURES
    ensures Scheduled(w, ip, n) && Stands(w, ip, count, 0)
  {
    if count == 0 {
      w := Server(map[], map[], 0);
      var actions: seq<Action> := [];
      assert Ends([w], actions, w);
    } else {
      var before := FailInTurn(ip, n, count - 1);
      ScheduledStep(before, Enter(ip, 0), ip, n);
      w := Take(before, Enter(ip, 0));
      ScheduledStep(w, RecordFailure(ip, 0, 0), ip, n);
      w := Take(w, RecordFailure(ip, 0, 0));
    }
  }

  // m submissions are let in before any of them is recorded.
  lemma {:induction false} EnterTogether(ip: string, n: nat, m: nat) returns (w: Server)
    requires 1 <= n && m <= n
    ensures Scheduled(w, ip, n) && Stands(w, ip, MAX_FAILURES - 1, m)
  {
    if m == 0 {
      w := FailInTurn(ip, n, MAX_FAILURES - 1);
    } else {
      var before := EnterTogether(ip, n, m - 1);
      ScheduledStep(before, Enter(ip, 0), ip, n);
      w := Take(before, Enter(ip, 0));
    }
  }

  lemma {:induction false} RecordTogether(ip: string, n: nat, m: nat) returns (w: Server)
    requires 1 <= n && m <= n
    ensures Scheduled(w, ip, n) && Stands(w, ip, MAX_FAILURES - 1 + m, n - m)
  {
    if m == 0 {
      w := EnterTogether(ip, n, n);
    } else {
      var before := RecordTogether(ip, n, m - 1);
      ScheduledStep(before, RecordFailure(ip, 0, 0), ip, n);
      w := Take(before, RecordFailure(ip, 0, 0));
    }
  }

  // For every n from 1 on some schedule with n in flight stores nine more than n.
  lemma InterleavedBoundIsReached(ip: string, n: nat)
    requires n >= 1
    ensures exists w :: Scheduled(w, ip, n) && Stands(w, ip, 9 + n, 0)
  {
    var _ := RecordTogether(ip, n, n);
  }
}
