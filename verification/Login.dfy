/** The login throttle of backend/handlers_auth.go:21-63 and
    backend/store.go:356-389: attempts are counted, verified and recorded in
    separate steps, and old ones are purged. Times are whole seconds. */
module Login {
  import opened GoStrings

  const DAY: int := 86400

  /** A row of login_attempts. */
  datatype Attempt = Attempt(email: string, ip: string, ok: bool, at: int)

  /** What failures are counted by. */
  datatype Subject = Email(email: string) | Source(ip: string)

  predicate Against(a: Attempt, s: Subject) {
    !a.ok && match s case Email(e) => a.email == e case Source(ip) => a.ip == ip
  }

  /** The times of a subject's failures, in the order they were recorded. */
  function Failures(rows: seq<Attempt>, s: Subject): seq<int> {
    if rows == [] then []
    else
      var rest, a := Failures(rows[..|rows| - 1], s), rows[|rows| - 1];
      if Against(a, s) then rest + [a.at] else rest
  }

  function CountSince(times: seq<int>, since: int): nat {
    if times == [] then 0
    else CountSince(times[..|times| - 1], since) + if times[|times| - 1] >= since then 1 else 0
  }

  function Recent(times: seq<int>, since: int): seq<int> {
    if times == [] then []
    else
      var rest, t := Recent(times[..|times| - 1], since), times[|times| - 1];
      if t >= since then rest + [t] else rest
  }

  /** How a login request ended; a throttled one never had its password looked
      at, and a failing database ends one without a record. */
  datatype Verdict = Throttled | Refused | Welcome | Broken

  class LoginStore {
    var attempts: seq<Attempt>

    constructor ()
      ensures attempts == []
    { attempts := []; }

    method RecordLoginAttempt(email: string, ip: string, ok: bool, now: int)
      modifies this
      ensures attempts == old(attempts) + [Attempt(ToLower(email), ip, ok, now)]
    {
      attempts := attempts + [Attempt(ToLower(email), ip, ok, now)];
    }

    method Count(s: Subject, since: int) returns (n: nat)
      ensures n == CountSince(Failures(attempts, s), since)
    {
      n := 0;
      for i := 0 to |attempts|
        invariant n == CountSince(Failures(attempts[..i], s), since)
      {
        assert attempts[..i + 1][..i] == attempts[..i];
        if Against(attempts[i], s) && attempts[i].at >= since { n := n + 1; }
      }
      assert attempts[..|attempts|] == attempts;
    }

    method RecentFailures(email: string, ip: string, window: int, now: int) returns (byEmail: nat, byIP: nat)
      ensures byEmail == CountSince(Failures(attempts, Email(ToLower(email))), now - window)
      ensures byIP == CountSince(Failures(attempts, Source(ip)), now - window)
    {
      var since := now - window;
      byEmail := Count(Email(ToLower(email)), since);
      byIP := Count(Source(ip), since);
    }

    /** PurgeOldLoginAttempts: what is left of every subject's failures is the
        recent ones. */
    method Purge(olderThan: int, now: int)
      modifies this
      ensures forall s :: Failures(attempts, s) == Recent(old(Failures(attempts, s)), now - olderThan)
      ensures forall a :: a in attempts <==> a in old(attempts) && a.at >= now - olderThan
    {
      var left: seq<Attempt> := [];
      for i := 0 to |attempts|
        invariant forall s :: Failures(left, s) == Recent(Failures(attempts[..i], s), now - olderThan)
        invariant forall a :: a in left <==> a in attempts[..i] && a.at >= now - olderThan
      {
        var a := attempts[i];
        assert attempts[..i + 1] == attempts[..i] + [a];
        assert attempts[..i + 1][..i] == attempts[..i] && (left + [a])[..|left|] == left;
        if a.at >= now - olderThan { left := left + [a]; }
      }
      assert attempts[..|attempts|] == attempts;
      attempts := left;
    }
  }

  /** One login request, with the times of its count and of its record. `valid`
      is whether there is such an account, active and with this password;
      `counts` and `opens` are whether the database lets the failures be counted
      and the session be made. */
  datatype Login = Login(email: string, ip: string, valid: bool, counts: bool, opens: bool, now: int, later: int)

  function Cap(s: Subject, max: nat): nat { if s.Email? then max else max * 3 }

  predicate OverCap(rows: seq<Attempt>, s: Subject, window: int, max: nat, now: int) {
    CountSince(Failures(rows, s), now - window) >= Cap(s, max)
  }

  function VerdictOn(rows: seq<Attempt>, l: Login, window: int, max: nat): Verdict {
    if !l.counts then Broken
    else if OverCap(rows, Email(ToLower(l.email)), window, max, l.now)
         || OverCap(rows, Source(l.ip), window, max, l.now) then Throttled
    else if !l.valid then Refused
    else if l.opens then Welcome else Broken
  }

  function RowsAfter(rows: seq<Attempt>, l: Login, window: int, max: nat): seq<Attempt> {
    var v := VerdictOn(rows, l, window, max);
    if v == Refused || v == Welcome then rows + [Attempt(ToLower(l.email), l.ip, l.valid, l.later)] else rows
  }

  /** handleLogin: throttle, verify, record. */
  method HandleLogin(store: LoginStore, l: Login, window: int, max: nat) returns (v: Verdict)
    modifies store
    ensures v == VerdictOn(old(store.attempts), l, window, max)
    ensures store.attempts == RowsAfter(old(store.attempts), l, window, max)
  {
    if !l.counts { return Broken; }
    var byEmail, byIP := store.RecentFailures(l.email, l.ip, window, l.now);
    if byEmail >= max || byIP >= max * 3 { return Throttled; }
    if !l.valid {
      store.RecordLoginAttempt(l.email, l.ip, false, l.later);
      return Refused;
    }
    if !l.opens { return Broken; }
    store.RecordLoginAttempt(l.email, l.ip, true, l.later);
    return Welcome;
  }

  /** The rows that fail a subject since a moment, counted. */
  predicate FailsSince(a: Attempt, s: Subject, since: int) {
    && !a.ok && a.at >= since
    && match s case Email(e) => a.email == e case Source(ip) => a.ip == ip
  }

  function FailingRows(rows: seq<Attempt>, s: Subject, since: int): set<int> {
    set i | 0 <= i < |rows| && FailsSince(rows[i], s, since)
  }

  lemma OneMoreRow(rows: seq<Attempt>, s: Subject, since: int)
    requires rows != []
    ensures var n := |rows| - 1;
      |FailingRows(rows, s, since)|
      == |FailingRows(rows[..n], s, since)| + if FailsSince(rows[n], s, since) then 1 else 0
  {
    var n := |rows| - 1;
    assert FailingRows(rows, s, since)
        == FailingRows(rows[..n], s, since) + if FailsSince(rows[n], s, since) then {n} else {};
  }

  lemma {:induction false} CountIsRows(rows: seq<Attempt>, s: Subject, since: int)
    ensures CountSince(Failures(rows, s), since) == |FailingRows(rows, s, since)|
  {
    if rows != [] {
      var n := |rows| - 1;
      CountIsRows(rows[..n], s, since);
      OneMoreRow(rows, s, since);
    }
  }

  /** Too many failures of the e-mail address, whatever its case, or three times
      as many of the source. */
  predicate TooMany(rows: seq<Attempt>, l: Login, window: int, max: nat) {
    || |FailingRows(rows, Email(ToLower(l.email)), l.now - window)| >= max
    || |FailingRows(rows, Source(l.ip), l.now - window)| >= 3 * max
  }

  /** How a login ends: let in exactly if it is not throttled, its password is
      right and the database works; and exactly the attempts whose password was
      looked at, and that were answered, are recorded, for what they were. */
  lemma VerdictIff(rows: seq<Attempt>, l: Login, window: int, max: nat)
    ensures var v, after := VerdictOn(rows, l, window, max), RowsAfter(rows, l, window, max);
      && (v == Throttled <==> l.counts && TooMany(rows, l, window, max))
      && (v == Refused <==> l.counts && !TooMany(rows, l, window, max) && !l.valid)
      && (v == Welcome <==> l.counts && !TooMany(rows, l, window, max) && l.valid && l.opens)
      && (v == Welcome ==> after == rows + [Attempt(ToLower(l.email), l.ip, true, l.later)])
      && (v == Refused ==> after == rows + [Attempt(ToLower(l.email), l.ip, false, l.later)])
      && (v != Welcome && v != Refused ==> after == rows)
  {
    CountIsRows(rows, Email(ToLower(l.email)), l.now - window);
    CountIsRows(rows, Source(l.ip), l.now - window);
  }

  // ---- one request at a time ----

  function Logins(ls: seq<Login>, window: int, max: nat): seq<Attempt> {
    if ls == [] then [] else RowsAfter(Logins(ls[..|ls| - 1], window, max), ls[|ls| - 1], window, max)
  }

  /** How many of the times lie in the closed span of `window` seconds. */
  function CountSpan(times: seq<int>, from: int, window: int): nat {
    if times == [] then 0
    else CountSpan(times[..|times| - 1], from, window) + if from <= times[|times| - 1] <= from + window then 1 else 0
  }

  lemma {:induction false} SpanWithinSince(times: seq<int>, from: int, window: int, since: int)
    requires since <= from
    ensures CountSpan(times, from, window) <= CountSince(times, since)
  {
    if times != [] { SpanWithinSince(times[..|times| - 1], from, window, since); }
  }

  lemma OneMoreAttempt(rows: seq<Attempt>, a: Attempt, s: Subject)
    ensures Failures(rows + [a], s) == if Against(a, s) then Failures(rows, s) + [a.at] else Failures(rows, s)
  {
    assert (rows + [a])[..|rows|] == rows;
  }

  /** A failure is recorded against subjects that were under their cap. */
  lemma RecordedUnderCap(rows: seq<Attempt>, l: Login, window: int, max: nat, s: Subject)
    requires VerdictOn(rows, l, window, max) == Refused
    requires Against(Attempt(ToLower(l.email), l.ip, l.valid, l.later), s)
    ensures CountSince(Failures(rows, s), l.now - window) < Cap(s, max)
  {}

  lemma SpanOneMore(times: seq<int>, t: int, from: int, window: int, since: int, cap: nat)
    requires CountSpan(times, from, window) <= cap && CountSince(times, since) < cap && t - window >= since
    ensures CountSpan(times + [t], from, window) <= cap
  {
    assert (times + [t])[..|times|] == times;
    if from <= t <= from + window { SpanWithinSince(times, from, window, since); }
  }

  lemma AttemptKeepsCap(rows: seq<Attempt>, l: Login, window: int, max: nat, s: Subject, from: int)
    requires l.now <= l.later && CountSpan(Failures(rows, s), from, window) <= Cap(s, max)
    ensures CountSpan(Failures(RowsAfter(rows, l, window, max), s), from, window) <= Cap(s, max)
  {
    var v, a := VerdictOn(rows, l, window, max), Attempt(ToLower(l.email), l.ip, l.valid, l.later);
    OneMoreAttempt(rows, a, s);
    if v == Refused && Against(a, s) {
      RecordedUnderCap(rows, l, window, max, s);
      SpanOneMore(Failures(rows, s), a.at, from, window, l.now - window, Cap(s, max));
    }
  }

  /** Logins handled one at a time: no span as long as the window ever holds more
      failures of one e-mail address than the maximum, or of one source than
      three times that. */
  lemma {:induction false} OneAtATime(ls: seq<Login>, window: int, max: nat, s: Subject, from: int)
    requires forall i :: 0 <= i < |ls| ==> ls[i].now <= ls[i].later
    ensures CountSpan(Failures(Logins(ls, window, max), s), from, window) <= Cap(s, max)
  {
    if ls != [] {
      OneAtATime(ls[..|ls| - 1], window, max, s, from);
      AttemptKeepsCap(Logins(ls[..|ls| - 1], window, max), ls[|ls| - 1], window, max, s, from);
    }
  }

  // ---- one subject, any number of requests at a time ----

  /** A request about the subject: what it counted and from when on, how many
      failures had been recorded by then, and how many other requests were then
      between their count and their end. */
  datatype Request = Request(since: int, count: nat, seen: nat, open: nat, closed: bool)

  datatype Failure = Failure(at: int, who: nat)

  /** The failures ever recorded, the times still in the table, and the requests. */
  datatype Sys = Sys(hist: seq<Failure>, table: seq<int>, requests: seq<Request>)

  /** A request counts the subject's failures; records one of its own; ends
      without (throttled on the other count, or let in); a purge runs. */
  datatype Event = Counted(now: int) | Recorded(who: nat, now: int) | Left(who: nat, now: int) | Purged(now: int)

  const START := Sys([], [], [])

  /** Open requests among the first `n`. */
  function Open(rs: seq<Request>, n: nat): nat
    requires n <= |rs|
  {
    if n == 0 then 0 else Open(rs, n - 1) + if rs[n - 1].closed then 0 else 1
  }

  predicate UnderWay(y: Sys, r: nat) { r < |y.requests| && !y.requests[r].closed }

  function Close(y: Sys, r: nat): Sys
    requires r < |y.requests|
  {
    y.(requests := y.requests[r := y.requests[r].(closed := true)])
  }

  /** A request that finds `cap` failures in the window ends there. */
  function Step(y: Sys, e: Event, window: int, cap: nat): Sys {
    match e
    case Counted(now) =>
      var n := CountSince(y.table, now - window);
      y.(requests := y.requests + [Request(now - window, n, |y.hist|, Open(y.requests, |y.requests|), n >= cap)])
    case Recorded(r, now) =>
      if UnderWay(y, r) then Close(y, r).(hist := y.hist + [Failure(now, r)], table := y.table + [now]) else y
    case Left(r, _) => if UnderWay(y, r) then Close(y, r) else y
    case Purged(now) => y.(table := Recent(y.table, now - DAY))
  }

  function After(evs: seq<Event>, window: int, cap: nat): Sys {
    if evs == [] then START else Step(After(evs[..|evs| - 1], window, cap), evs[|evs| - 1], window, cap)
  }

  /** Clock readings do not decrease from step to step. */
  ghost predicate Steady(evs: seq<Event>) { forall i, j :: 0 <= i < j < |evs| ==> evs[i].now <= evs[j].now }

  /** Failures among the first `n` that are not older than `since`. */
  function Since(hist: seq<Failure>, n: nat, since: int): nat
    requires n <= |hist|
  {
    if n == 0 then 0 else Since(hist, n - 1, since) + if hist[n - 1].at >= since then 1 else 0
  }

  // ---- the login and its steps ----

  predicate About(l: Login, s: Subject) { s == Email(ToLower(l.email)) || s == Source(l.ip) }

  /** A login as request number `n` about a subject, if it is one. */
  function Steps(rows: seq<Attempt>, l: Login, window: int, max: nat, s: Subject, n: nat): seq<Event> {
    if !l.counts || !About(l, s) then []
    else
      [Counted(l.now), if VerdictOn(rows, l, window, max) == Refused then Recorded(n, l.later) else Left(n, l.later)]
  }

  lemma AfterTwoMore(evs: seq<Event>, a: Event, b: Event, window: int, cap: nat)
    ensures After(evs + [a, b], window, cap) == Step(Step(After(evs, window, cap), a, window, cap), b, window, cap)
  {
    assert (evs + [a, b])[..|evs| + 1] == evs + [a] && (evs + [a])[..|evs|] == evs;
  }

  /** What a login leaves of a subject's failures. */
  lemma FailuresAfter(rows: seq<Attempt>, l: Login, window: int, max: nat, s: Subject)
    ensures Failures(RowsAfter(rows, l, window, max), s)
         == if VerdictOn(rows, l, window, max) == Refused && About(l, s) then Failures(rows, s) + [l.later]
            else Failures(rows, s)
    ensures l.counts && About(l, s) && VerdictOn(rows, l, window, max) == Refused ==>
      !OverCap(rows, s, window, max, l.now)
  {
    OneMoreAttempt(rows, Attempt(ToLower(l.email), l.ip, l.valid, l.later), s);
  }

  /** How a request stands that counted in `y` and has ended by `z`. */
  ghost predicate Ended(y: Sys, z: Sys, over: bool, cap: nat) {
    var n := |y.requests|;
    && |z.requests| == n + 1 && z.requests[..n] == y.requests
    && z.requests[n].closed && z.requests[n].open == Open(y.requests, n) && (z.requests[n].count >= cap <==> over)
  }

  lemma TwoSteps(y: Sys, now: int, later: int, recorded: bool, window: int, cap: nat)
    requires recorded ==> CountSince(y.table, now - window) < cap
    ensures var n := |y.requests|;
      var z := Step(Step(y, Counted(now), window, cap), if recorded then Recorded(n, later) else Left(n, later),
                    window, cap);
      && z.table == (if recorded then y.table + [later] else y.table)
      && Ended(y, z, CountSince(y.table, now - window) >= cap, cap)
  {}

  /** A whole login from `y` on, by its steps. */
  function Played(y: Sys, rows: seq<Attempt>, l: Login, window: int, max: nat, s: Subject): Sys {
    var steps := Steps(rows, l, window, max, s, |y.requests|);
    if steps == [] then y else Step(Step(y, steps[0], window, Cap(s, max)), steps[1], window, Cap(s, max))
  }

  lemma PlayedLogin(y: Sys, rows: seq<Attempt>, l: Login, window: int, max: nat, s: Subject)
    requires y.table == Failures(rows, s)
    ensures var z := Played(y, rows, l, window, max, s);
      && z.table == Failures(RowsAfter(rows, l, window, max), s)
      && (l.counts && About(l, s) ==> Ended(y, z, OverCap(rows, s, window, max, l.now), Cap(s, max)))
      && (!l.counts || !About(l, s) ==> z == y)
  {
    FailuresAfter(rows, l, window, max, s);
    if l.counts && About(l, s) {
      TwoSteps(y, l.now, l.later, VerdictOn(rows, l, window, max) == Refused, window, Cap(s, max));
    }
  }

  /** These are the steps of handleLogin: a login that nothing comes in between
      leaves a subject's failures exactly as the method does, and is stopped at
      its count exactly when the subject is over its cap. */
  lemma UndisturbedIsLogin(evs: seq<Event>, rows: seq<Attempt>, l: Login, window: int, max: nat, s: Subject)
    requires After(evs, window, Cap(s, max)).table == Failures(rows, s)
    ensures var y := After(evs, window, Cap(s, max));
      var z := After(evs + Steps(rows, l, window, max, s, |y.requests|), window, Cap(s, max));
      && z.table == Failures(RowsAfter(rows, l, window, max), s)
      && (l.counts && About(l, s) ==> Ended(y, z, OverCap(rows, s, window, max, l.now), Cap(s, max)))
      && (!l.counts || !About(l, s) ==> z == y)
  {
    var y, cap := After(evs, window, Cap(s, max)), Cap(s, max);
    var steps := Steps(rows, l, window, max, s, |y.requests|);
    PlayedLogin(y, rows, l, window, max, s);
    if steps == [] {
      assert evs + steps == evs;
    } else {
      assert steps == [steps[0], steps[1]];
      AfterTwoMore(evs, steps[0], steps[1], window, cap);
    }
  }

  /** Logins one after another, as one subject sees them. */
  function Scripted(ls: seq<Login>, window: int, max: nat, s: Subject): seq<Event> {
    if ls == [] then []
    else
      var evs, l := Scripted(ls[..|ls| - 1], window, max, s), ls[|ls| - 1];
      var rows := Logins(ls[..|ls| - 1], window, max);
      evs + Steps(rows, l, window, max, s, |After(evs, window, Cap(s, max)).requests|)
  }

  lemma {:induction false} AllClosed(rs: seq<Request>, n: nat)
    requires n <= |rs| && forall r :: r in rs ==> r.closed
    ensures Open(rs, n) == 0
  {
    if n > 0 { AllClosed(rs, n - 1); }
  }

  ghost predicate Alone(y: Sys) { forall r :: r in y.requests ==> r.closed && r.open == 0 }

  lemma EndedAlone(y: Sys, z: Sys, over: bool, cap: nat)
    requires Alone(y) && Ended(y, z, over, cap)
    ensures Alone(z)
  {
    AllClosed(y.requests, |y.requests|);
    assert z.requests == y.requests + [z.requests[|y.requests|]];
  }

  /** So a run of whole logins is a run of those steps, in which no request ever
      finds another one under way. */
  lemma {:induction false} LoginsAreSteps(ls: seq<Login>, window: int, max: nat, s: Subject)
    ensures var y := After(Scripted(ls, window, max, s), window, Cap(s, max));
      y.table == Failures(Logins(ls, window, max), s) && Alone(y)
  {
    if ls != [] {
      var init, l := ls[..|ls| - 1], ls[|ls| - 1];
      var evs, rows := Scripted(init, window, max, s), Logins(init, window, max);
      LoginsAreSteps(init, window, max, s);
      var y := After(evs, window, Cap(s, max));
      UndisturbedIsLogin(evs, rows, l, window, max, s);
      var z := After(evs + Steps(rows, l, window, max, s, |y.requests|), window, Cap(s, max));
      assert Scripted(ls, window, max, s) == evs + Steps(rows, l, window, max, s, |y.requests|);
      if l.counts && About(l, s) { EndedAlone(y, z, OverCap(rows, s, window, max, l.now), Cap(s, max)); }
    }
  }

  // ---- purging ----

  lemma {:induction false} RecentKeeps(times: seq<int>, cut: int, since: int)
    requires cut <= since
    ensures CountSince(Recent(times, cut), since) == CountSince(times, since)
  {
    if times != [] { RecentKeeps(times[..|times| - 1], cut, since); }
  }

  lemma {:induction false} SinceFrame(hist: seq<Failure>, more: seq<Failure>, n: nat, since: int)
    requires n <= |hist|
    ensures Since(hist + more, n, since) == Since(hist, n, since)
  {
    if n > 0 { SinceFrame(hist, more, n - 1, since); }
  }

  /** The table still counts right from a day ago on. */
  ghost predicate TableKnows(y: Sys, clock: int) {
    forall since :: since >= clock - DAY ==> CountSince(y.table, since) == Since(y.hist, |y.hist|, since)
  }

  lemma StepKeepsTable(y: Sys, e: Event, window: int, cap: nat, clock: int)
    requires TableKnows(y, clock) && clock <= e.now
    ensures TableKnows(Step(y, e, window, cap), e.now)
  {
    var z := Step(y, e, window, cap);
    forall since | since >= e.now - DAY ensures CountSince(z.table, since) == Since(z.hist, |z.hist|, since) {
      if e.Recorded? && UnderWay(y, e.who) { SinceFrame(y.hist, [Failure(e.now, e.who)], |y.hist|, since); }
      if e.Purged? { RecentKeeps(y.table, e.now - DAY, since); }
    }
  }

  lemma {:induction false} TableAlwaysKnows(evs: seq<Event>, window: int, cap: nat, clock: int)
    requires Steady(evs) && (evs != [] ==> evs[|evs| - 1].now <= clock)
    ensures TableKnows(After(evs, window, cap), clock)
  {
    if evs != [] {
      var n := |evs| - 1;
      TableAlwaysKnows(evs[..n], window, cap, evs[n].now);
      StepKeepsTable(After(evs[..n], window, cap), evs[n], window, cap, evs[n].now);
    }
  }

  /** A request that counts now counts all the failures there have been. */
  ghost predicate CountsAll(y: Sys, now: int, window: int) {
    CountSince(y.table, now - window) == Since(y.hist, |y.hist|, now - window)
  }

  ghost predicate PurgeUnseen(window: int) {
    forall evs: seq<Event>, cap: nat, now :: Steady(evs) && (evs != [] ==> evs[|evs| - 1].now <= now) ==>
      CountsAll(After(evs, window, cap), now, window)
  }

  // ---- how many failures a window can hold ----

  /** Failures among rows [lo, hi) of requests numbered below `g`. */
  function Earlier(hist: seq<Failure>, lo: nat, hi: nat, g: nat): nat
    requires hi <= |hist|
    decreases hi
  {
    if hi <= lo then 0 else Earlier(hist, lo, hi - 1, g) + if hist[hi - 1].who < g then 1 else 0
  }

  /** What is known of a request since it counted: each other request then open
      may have recorded one failure since, or is open still. */
  ghost predicate RequestOk(y: Sys, g: nat, cap: nat)
    requires g < |y.requests|
  {
    var r := y.requests[g];
    && r.seen <= |y.hist| && r.count == Since(y.hist, r.seen, r.since)
    && Earlier(y.hist, r.seen, |y.hist|, g) + Open(y.requests, g) <= r.open
    && (!r.closed ==> r.count < cap)
  }

  /** Every failure is the only one of a closed request that was let through. */
  ghost predicate FailureOk(y: Sys, i: nat, window: int, cap: nat)
    requires i < |y.hist|
  {
    var f := y.hist[i];
    && f.who < |y.requests| && y.requests[f.who].closed && y.requests[f.who].count < cap
    && y.requests[f.who].seen <= i && y.requests[f.who].since + window <= f.at
  }

  ghost predicate Inv(y: Sys, window: int, cap: nat, clock: int) {
    && TableKnows(y, clock)
    && (forall g :: 0 <= g < |y.requests| ==> RequestOk(y, g, cap) && y.requests[g].since + window <= clock)
    && (forall i :: 0 <= i < |y.hist| ==> FailureOk(y, i, window, cap))
    && (forall i, j :: 0 <= i < j < |y.hist| ==> y.hist[i].who != y.hist[j].who)
  }

  lemma {:induction false} EarlierFrame(hist: seq<Failure>, more: seq<Failure>, lo: nat, hi: nat, g: nat)
    requires hi <= |hist|
    ensures Earlier(hist + more, lo, hi, g) == Earlier(hist, lo, hi, g)
    decreases hi
  {
    if hi > lo { EarlierFrame(hist, more, lo, hi - 1, g); }
  }

  lemma {:induction false} OpenFrame(a: seq<Request>, b: seq<Request>, n: nat)
    requires n <= |a| && n <= |b| && forall i :: 0 <= i < n ==> a[i].closed == b[i].closed
    ensures Open(a, n) == Open(b, n)
  {
    if n > 0 { OpenFrame(a, b, n - 1); }
  }

  lemma {:induction false} OpenClosed(a: seq<Request>, b: seq<Request>, r: nat, n: nat)
    requires n <= |a| == |b| && r < |a| && !a[r].closed && b == a[r := a[r].(closed := true)]
    ensures Open(b, n) == Open(a, n) - if r < n then 1 else 0
  {
    if n > 0 { OpenClosed(a, b, r, n - 1); }
  }

  lemma CountKeepsRequest(y: Sys, now: int, window: int, cap: nat, g: nat)
    requires window <= DAY && TableKnows(y, now) && g <= |y.requests| && (g < |y.requests| ==> RequestOk(y, g, cap))
    ensures RequestOk(Step(y, Counted(now), window, cap), g, cap)
  {
    OpenFrame(y.requests, Step(y, Counted(now), window, cap).requests, g);
  }

  lemma RecordKeepsRequest(y: Sys, who: nat, now: int, window: int, cap: nat, g: nat)
    requires UnderWay(y, who) && g < |y.requests| && RequestOk(y, g, cap)
    ensures RequestOk(Step(y, Recorded(who, now), window, cap), g, cap)
  {
    var z := Step(y, Recorded(who, now), window, cap);
    var r := y.requests[g];
    OpenClosed(y.requests, z.requests, who, g);
    SinceFrame(y.hist, [Failure(now, who)], r.seen, r.since);
    EarlierFrame(y.hist, [Failure(now, who)], r.seen, |y.hist|, g);
  }

  lemma LeaveKeepsRequest(y: Sys, who: nat, now: int, window: int, cap: nat, g: nat)
    requires UnderWay(y, who) && g < |y.requests| && RequestOk(y, g, cap)
    ensures RequestOk(Step(y, Left(who, now), window, cap), g, cap)
  {
    OpenClosed(y.requests, Step(y, Left(who, now), window, cap).requests, who, g);
  }

  lemma StepKeepsRequest(y: Sys, e: Event, window: int, cap: nat, clock: int, g: nat)
    requires Inv(y, window, cap, clock) && clock <= e.now && window <= DAY && g < |Step(y, e, window, cap).requests|
    ensures RequestOk(Step(y, e, window, cap), g, cap)
  {
    match e
    case Counted(now) => CountKeepsRequest(y, now, window, cap, g);
    case Recorded(who, now) => if UnderWay(y, who) { RecordKeepsRequest(y, who, now, window, cap, g); }
    case Left(who, now) => if UnderWay(y, who) { LeaveKeepsRequest(y, who, now, window, cap, g); }
    case Purged(now) =>
  }

  lemma StepKeepsFailures(y: Sys, e: Event, window: int, cap: nat, clock: int)
    requires Inv(y, window, cap, clock) && clock <= e.now
    ensures var z := Step(y, e, window, cap);
      && (forall i :: 0 <= i < |z.hist| ==> FailureOk(z, i, window, cap))
      && (forall i, j :: 0 <= i < j < |z.hist| ==> z.hist[i].who != z.hist[j].who)
  {
    var z := Step(y, e, window, cap);
    forall i | 0 <= i < |z.hist| ensures FailureOk(z, i, window, cap) {
      if i < |y.hist| {
        assert FailureOk(y, i, window, cap) && z.hist[i] == y.hist[i];
      } else {
        assert RequestOk(y, e.who, cap);
      }
    }
    forall i, j | 0 <= i < j < |z.hist| ensures z.hist[i].who != z.hist[j].who {
      assert FailureOk(y, i, window, cap) && z.hist[i] == y.hist[i];
      if j < |y.hist| { assert z.hist[j] == y.hist[j]; }
    }
  }

  lemma {:induction false} AlwaysInv(evs: seq<Event>, window: int, cap: nat, clock: int)
    requires Steady(evs) && window <= DAY && (evs != [] ==> evs[|evs| - 1].now <= clock)
    ensures Inv(After(evs, window, cap), window, cap, clock)
  {
    TableAlwaysKnows(evs, window, cap, clock);
    if evs != [] {
      var n := |evs| - 1;
      var y, e := After(evs[..n], window, cap), evs[n];
      AlwaysInv(evs[..n], window, cap, e.now);
      var z := Step(y, e, window, cap);
      StepKeepsFailures(y, e, window, cap, e.now);
      forall g | 0 <= g < |z.requests| ensures RequestOk(z, g, cap) && z.requests[g].since + window <= clock {
        StepKeepsRequest(y, e, window, cap, e.now, g);
        if g < |y.requests| { assert y.requests[g].since + window <= e.now; }
      }
    }
  }

  predicate InSpan(f: Failure, from: int, window: int) { from <= f.at <= from + window }

  /** Failures recorded in the closed span of `window` seconds starting at `from`. */
  function Spanned(hist: seq<Failure>, n: nat, from: int, window: int): nat
    requires n <= |hist|
  {
    if n == 0 then 0 else Spanned(hist, n - 1, from, window) + if InSpan(hist[n - 1], from, window) then 1 else 0
  }

  lemma {:induction false} SpannedSince(hist: seq<Failure>, n: nat, from: int, window: int, since: int)
    requires n <= |hist| && since <= from
    ensures Spanned(hist, n, from, window) <= Since(hist, n, since)
  {
    if n > 0 { SpannedSince(hist, n - 1, from, window, since); }
  }

  /** The failure in the span, if any, whose request counted last. */
  lemma {:induction false} LastCounter(hist: seq<Failure>, n: nat, from: int, window: int) returns (k: int)
    requires n <= |hist|
    ensures k == -1 ==> Spanned(hist, n, from, window) == 0
    ensures k != -1 ==> 0 <= k < n && InSpan(hist[k], from, window)
    ensures k != -1 ==> forall i :: 0 <= i < n && InSpan(hist[i], from, window) ==> hist[i].who <= hist[k].who
  {
    k := -1;
    if n > 0 {
      k := LastCounter(hist, n - 1, from, window);
      if InSpan(hist[n - 1], from, window) && (k == -1 || hist[k].who < hist[n - 1].who) {
        if k == -1 { NoneSpanned(hist, n - 1, from, window); }
        k := n - 1;
      }
    }
  }

  lemma {:induction false} NoneSpanned(hist: seq<Failure>, n: nat, from: int, window: int)
    requires n <= |hist| && Spanned(hist, n, from, window) == 0
    ensures forall i :: 0 <= i < n ==> !InSpan(hist[i], from, window)
  {
    if n > 0 { NoneSpanned(hist, n - 1, from, window); }
  }

  /** After `lo`, only earlier requests and request `g` itself add to the span. */
  lemma {:induction false} SpannedAfter(hist: seq<Failure>, lo: nat, hi: nat, from: int, window: int, k: nat)
    requires lo <= hi <= |hist| && k < |hist|
    requires forall i, j :: 0 <= i < j < |hist| ==> hist[i].who != hist[j].who
    requires forall i :: 0 <= i < |hist| && InSpan(hist[i], from, window) ==> hist[i].who <= hist[k].who
    ensures Spanned(hist, hi, from, window)
         <= Spanned(hist, lo, from, window) + Earlier(hist, lo, hi, hist[k].who) + if k < hi then 1 else 0
    decreases hi
  {
    if hi > lo {
      SpannedAfter(hist, lo, hi - 1, from, window, k);
      if hi - 1 != k && InSpan(hist[hi - 1], from, window) { assert hist[hi - 1].who != hist[k].who; }
    }
  }

  /** The throttle's bound. If no request was counted while `others` more were
      under way, then however requests, purges and outcomes interleave, any span
      as long as the window holds at most cap + others recorded failures - and so
      at most cap, when requests come one at a time. */
  lemma FailuresBounded(evs: seq<Event>, window: int, cap: nat, others: nat, from: int)
    requires Steady(evs) && window <= DAY && cap >= 1
    requires forall r :: r in After(evs, window, cap).requests ==> r.open <= others
    ensures var hist := After(evs, window, cap).hist;
      Spanned(hist, |hist|, from, window) <= cap + others
  {
    var y := After(evs, window, cap);
    if evs != [] { AlwaysInv(evs, window, cap, evs[|evs| - 1].now); } else { AlwaysInv(evs, window, cap, 0); }
    var k := LastCounter(y.hist, |y.hist|, from, window);
    if k != -1 {
      var g := y.hist[k].who;
      assert FailureOk(y, k, window, cap) && RequestOk(y, g, cap);
      var r := y.requests[g];
      SpannedSince(y.hist, r.seen, from, window, r.since);
      SpannedAfter(y.hist, r.seen, |y.hist|, from, window, k);
    }
  }

  // ---- the bound is reached ----

  /** A run all in second 0, which has recorded `n` failures and left `m` requests
      open, the last ones to count; none saw more than `crowd` others open. */
  ghost predicate Instant(evs: seq<Event>, window: int, cap: nat, n: nat, closed: nat, m: nat, crowd: nat) {
    var y := After(evs, window, cap);
    && (forall e :: e in evs ==> e.now == 0)
    && |y.hist| == n && (forall f :: f in y.hist ==> f.at == 0)
    && |y.table| == n && (forall i :: 0 <= i < n ==> y.table[i] == 0)
    && |y.requests| == closed + m && (forall i :: closed <= i < closed + m ==> !y.requests[i].closed)
    && Open(y.requests, closed + m) == m && forall r :: r in y.requests ==> r.open <= crowd
  }

  lemma {:induction false} CountZeros(times: seq<int>, since: int)
    requires since <= 0 && forall i :: 0 <= i < |times| ==> times[i] == 0
    ensures CountSince(times, since) == |times|
  {
    if times != [] {
      CountZeros(times[..|times| - 1], since);
    }
  }

  lemma MoreCounts(evs: seq<Event>, window: int, cap: nat, n: nat, closed: nat, m: nat, crowd: nat)
    requires window >= 0 && n < cap && m <= crowd && Instant(evs, window, cap, n, closed, m, crowd)
    ensures Instant(evs + [Counted(0)], window, cap, n, closed, m + 1, crowd)
  {
    var y, all := After(evs, window, cap), evs + [Counted(0)];
    assert all[..|evs|] == evs;
    CountZeros(y.table, -window);
    var z := After(all, window, cap);
    assert z == Step(y, Counted(0), window, cap);
    OpenFrame(y.requests, z.requests, closed + m);
  }

  lemma MoreRecords(evs: seq<Event>, window: int, cap: nat, n: nat, closed: nat, m: nat, crowd: nat)
    requires m > 0 && Instant(evs, window, cap, n, closed, m, crowd)
    ensures Instant(evs + [Recorded(closed, 0)], window, cap, n + 1, closed + 1, m - 1, crowd)
  {
    var y, all := After(evs, window, cap), evs + [Recorded(closed, 0)];
    assert all[..|evs|] == evs;
    var z := After(all, window, cap);
    assert z == Step(y, Recorded(closed, 0), window, cap);
    OpenClosed(y.requests, z.requests, closed, closed + m);
  }

  lemma {:induction false} OneByOne(window: int, cap: nat, n: nat) returns (evs: seq<Event>)
    requires window >= 0 && n <= cap
    ensures Instant(evs, window, cap, n, n, 0, 0)
  {
    evs := [];
    if n > 0 {
      evs := OneByOne(window, cap, n - 1);
      MoreCounts(evs, window, cap, n - 1, n - 1, 0, 0);
      evs := evs + [Counted(0)];
      MoreRecords(evs, window, cap, n - 1, n - 1, 1, 0);
      evs := evs + [Recorded(n - 1, 0)];
    }
  }

  lemma {:induction false} AllCount(window: int, cap: nat, n: nat, m: nat, crowd: nat) returns (evs: seq<Event>)
    requires window >= 0 && n < cap && m <= crowd + 1
    ensures Instant(evs, window, cap, n, n, m, crowd)
  {
    if m == 0 {
      evs := OneByOne(window, cap, n);
    } else {
      evs := AllCount(window, cap, n, m - 1, crowd);
      MoreCounts(evs, window, cap, n, n, m - 1, crowd);
      evs := evs + [Counted(0)];
    }
  }

  lemma {:induction false} AllRecord(window: int, cap: nat, n: nat, m: nat, j: nat, crowd: nat)
    returns (evs: seq<Event>)
    requires window >= 0 && n < cap && m <= crowd + 1 && j <= m
    ensures Instant(evs, window, cap, n + j, n + j, m - j, crowd)
  {
    if j == 0 {
      evs := AllCount(window, cap, n, m, crowd);
    } else {
      evs := AllRecord(window, cap, n, m, j - 1, crowd);
      MoreRecords(evs, window, cap, n + j - 1, n + j - 1, m - j + 1, crowd);
      evs := evs + [Recorded(n + j - 1, 0)];
    }
  }

  lemma {:induction false} AllSpanned(hist: seq<Failure>, n: nat, window: int)
    requires n <= |hist| && window >= 0 && forall f :: f in hist ==> f.at == 0
    ensures Spanned(hist, n, 0, window) == n
  {
    if n > 0 { AllSpanned(hist, n - 1, window); }
  }

  /** No smaller bound would do: some run with at most `others` more requests
      under way records cap + others failures within the window. So the cap alone
      bounds them exactly when requests come one at a time. */
  lemma BoundReached(window: int, cap: nat, others: nat) returns (evs: seq<Event>)
    requires window >= 0 && cap >= 1
    ensures Steady(evs) && forall r :: r in After(evs, window, cap).requests ==> r.open <= others
    ensures var hist := After(evs, window, cap).hist; Spanned(hist, |hist|, 0, window) == cap + others
  {
    evs := AllRecord(window, cap, cap - 1, others + 1, others + 1, others);
    AllSpanned(After(evs, window, cap).hist, cap + others, window);
  }

  // ---- and a purge that reaches into the window is seen ----

  lemma PurgeSeen(window: int)
    requires window > DAY
    ensures !PurgeUnseen(window)
  {
    var evs := OneByOne(window, 1, 1);
    var now := DAY + 1;
    var y, all := After(evs, window, 1), evs + [Purged(now)];
    assert all[..|evs|] == evs;
    var z := After(all, window, 1);
    assert z == Step(y, Purged(now), window, 1);
    OneGone(y.table, now - DAY, now - window);
    assert y.hist[0] in y.hist && Since(y.hist, 1, now - window) == 1;
    assert Steady(all) && !CountsAll(z, now, window);
  }

  lemma OneGone(times: seq<int>, cut: int, since: int)
    requires |times| == 1 && times[0] < cut
    ensures CountSince(Recent(times, cut), since) == 0
  {
    assert times[..0] == [];
    assert Recent(times, cut) == Recent([], cut);
  }

  /** Purging what is older than a day, however often, never changes a count, and
      so no throttle decision, exactly when the window is at most a day. */
  lemma PurgeUnseenIff(window: int)
    ensures PurgeUnseen(window) <==> window <= 86_400
  {
    if window <= DAY {
      forall evs: seq<Event>, cap: nat, now | Steady(evs) && (evs != [] ==> evs[|evs| - 1].now <= now)
        ensures CountsAll(After(evs, window, cap), now, window)
      {
        TableAlwaysKnows(evs, window, cap, now);
      }
    } else {
      PurgeSeen(window);
    }
  }
}
