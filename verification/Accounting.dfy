/** Accounting end to end: many Resolve calls and many usage flushes interleave,
    each counter step by step, and at rest the books balance. */
module Accounting {
  import opened GoStrings
  import opened Dns
  import CacheModel
  import opened Pipeline
  import opened Counters
  import Framing
  import Policy
  import Usage

  /** One atomic update made by a Resolve call. */
  datatype Act = Count(m: Metric) | Strip(n: nat) | Use(s: Usage.Sample)

  /** What decides the updates of a call. The sample of a call refused unheard is
      never used. */
  datatype Kind = Kind(out: Outcome, allowed: bool, stripped: nat, s: Usage.Sample)

  predicate Plain(s: Usage.Sample) { !s.blocked && !s.overridden && !s.throttled }

  /** The sample a call records is of the kind its outcome says. */
  predicate Fits(k: Kind) {
    match k.out
    case Rejected => true
    case Denied => true
    case OverRate => k.s.throttled && !k.s.blocked && !k.s.overridden
    case Redirected => k.s.overridden && !k.s.blocked && !k.s.throttled
    case Sunk => k.s.blocked && !k.s.overridden && !k.s.throttled
    case _ => Plain(k.s)
  }

  /** The updates of a call, in the order the code makes them. */
  function Script(k: Kind): (acts: seq<Act>)
    ensures 2 <= |acts| <= 5 && acts[0] == Count(Queries)
  {
    var looked := [Count(Queries)] + (if k.allowed then [Count(Allowed)] else []) + [Use(k.s)];
    match k.out
    case Rejected => [Count(Queries), Count(Malformed)]
    case Denied => [Count(Queries), Count(Metric.Refused)]
    case OverRate => [Count(Queries), Count(Throttled), Use(k.s)]
    case Probed => [Count(Queries), Use(k.s)]
    case Redirected => [Count(Queries), Count(Overridden), Use(k.s)]
    case Sunk => [Count(Queries), Count(Blocked), Use(k.s)]
    case FromCache => looked + [Count(CacheHits)]
    case Failed => looked + [Count(Unanswered)]
    case Fetched => looked + [Count(Answered)] + if k.stripped > 0 then [Strip(k.stripped)] else []
  }

  // ---- the scripts are those of Resolve ----

  function KindOf(res: Result): Kind {
    Kind(res.out, res.tallied[Allowed] > 0, res.tallied[Stripped],
         if res.sample.Some? then res.sample.value else Usage.Sample("", false, false, false, 0))
  }

  /** What the books are kept in: each metric, and each usage counter of one
      tenant or of all. */
  datatype Ledger = OfMetric(m: Metric) | OfUses(id: Option<string>, c: Usage.Counter)

  predicate Flag(s: Usage.Sample, c: Usage.Counter) {
    match c
    case Queries => true
    case Blocked => s.blocked
    case Overridden => s.overridden
    case Throttled => s.throttled
  }

  predicate Marks(s: Usage.Sample, id: Option<string>, c: Usage.Counter) {
    (id == None || s.routeID == id.value) && Flag(s, c)
  }

  function One(b: bool): nat { if b then 1 else 0 }

  function Effect(a: Act, l: Ledger): nat {
    match a
    case Count(m) => One(l == OfMetric(m))
    case Strip(n) => (if l == OfMetric(Stripped) then n else 0)
    case Use(s) => One(l.OfUses? && Marks(s, l.id, l.c))
  }

  /** A ledger after the first `n` updates of a script. */
  function Done(acts: seq<Act>, n: nat, l: Ledger): nat
    requires n <= |acts|
  {
    if n == 0 then 0 else Done(acts, n - 1, l) + Effect(acts[n - 1], l)
  }

  function Share(acts: seq<Act>, i: nat, n: nat, l: Ledger): nat
    requires n <= |acts|
  {
    if i < n then Effect(acts[i], l) else 0
  }

  lemma {:induction false} DoneIsShares(acts: seq<Act>, n: nat, l: Ledger)
    requires n <= |acts| <= 5
    ensures Done(acts, n, l)
         == Share(acts, 0, n, l) + Share(acts, 1, n, l) + Share(acts, 2, n, l) + Share(acts, 3, n, l)
          + Share(acts, 4, n, l)
  {
    if n > 0 { DoneIsShares(acts, n - 1, l); }
  }

  /** The metric that tells a call's outcome; probes have none of their own. */
  function Mark(out: Outcome): Metric {
    match out
    case Rejected => Malformed
    case Denied => Metric.Refused
    case OverRate => Throttled
    case Probed => Queries
    case Redirected => Overridden
    case Sunk => Blocked
    case FromCache => CacheHits
    case Failed => Unanswered
    case Fetched => Answered
  }

  predicate Looks(out: Outcome) { out == FromCache || out == Failed || out == Fetched }

  predicate Charges(out: Outcome) { out != Rejected && out != Denied }

  /** The books of a whole call, ledger by ledger. */
  function Expected(k: Kind, l: Ledger): nat {
    match l
    case OfUses(id, c) => One(Charges(k.out) && Marks(k.s, id, c))
    case OfMetric(m) =>
      One(m == Queries) + One(k.out != Probed && m == Mark(k.out)) + One(Looks(k.out) && k.allowed && m == Allowed)
      + if k.out == Fetched && m == Stripped then k.stripped else 0
  }

  lemma ScriptExpected(k: Kind, l: Ledger)
    ensures Done(Script(k), |Script(k)|, l) == Expected(k, l)
  {
    var acts := Script(k);
    DoneIsShares(acts, |acts|, l);
    if Looks(k.out) {
      if k.allowed { assert acts[1] == Count(Allowed) && acts[2] == Use(k.s); } else { assert acts[1] == Use(k.s); }
    }
  }

  ghost predicate Explains(res: Result) {
    && Fits(KindOf(res))
    && (forall m :: res.tallied[m] == Done(Script(KindOf(res)), |Script(KindOf(res))|, OfMetric(m)))
    && (res.sample.Some? <==> Use(KindOf(res).s) in Script(KindOf(res)))
  }

  /** The books of a query, by its outcome. */
  ghost predicate Booked(res: Result, allowed: bool) {
    var mark := multiset{Queries} + (if allowed then multiset{Allowed} else multiset{});
    && (res.sample.None? <==> res.out == Rejected || res.out == Denied)
    && (res.sample.Some? ==> Fits(Kind(res.out, allowed, 0, res.sample.value)))
    && match res.out
       case Rejected => res.tallied == multiset{Queries, Malformed}
       case Denied => res.tallied == multiset{Queries, Metric.Refused}
       case OverRate => res.tallied == multiset{Queries, Throttled}
       case Probed => res.tallied == multiset{Queries}
       case Redirected => res.tallied == multiset{Queries, Overridden}
       case Sunk => res.tallied == multiset{Queries, Blocked}
       case FromCache => res.tallied == mark + multiset{CacheHits}
       case Failed => res.tallied == mark + multiset{Unanswered}
       case Fetched => res.tallied == mark + multiset{Answered} + Drops(res.tallied[Stripped])
  }

  /** What a lookup adds to the books, by its outcome. */
  ghost predicate LookedUp(res: Result) {
    && res.sample.Some? && Plain(res.sample.value)
    && match res.out
       case FromCache => res.tallied == multiset{CacheHits}
       case Failed => res.tallied == multiset{Unanswered}
       case Fetched => res.tallied == multiset{Answered} + Drops(res.tallied[Stripped])
       case _ => false
  }

  lemma LookupBooked(c: Config, s: State, r: Request, rid: string, t: Times, up: Option<Msg>)
    requires CacheModel.Past(s.cache, t.get) && |r.msg.question| == 1
    ensures LookedUp(Lookup(c, s, r, rid, t, up))
  {}

  lemma LookedUpBooked(res: Result)
    requires LookedUp(res)
    ensures Booked(Counted(Queries, res), false) && Booked(Counted(Queries, Counted(Allowed, res)), true)
  {}

  lemma CarryBooked(c: Config, s: State, r: Request, rid: string, verdict: Verdict, t: Times, up: Option<Msg>)
    requires CacheModel.Past(s.cache, t.get) && |r.msg.question| == 1
    ensures Booked(Counted(Queries, Carry(c, s, r, rid, verdict, t, up)), verdict.Allow?)
  {
    LookupBooked(c, s, r, rid, t, up);
    LookedUpBooked(Lookup(c, s, r, rid, t, up));
  }

  lemma IdentifyBooked(c: Config, v: View, s: State, r: Request, tenant: Option<Policy.Tenant>, t: Times,
                       up: Option<Msg>) returns (allowed: bool)
    requires CacheModel.Past(s.cache, t.get) && |r.msg.question| == 1
    ensures Booked(Counted(Queries, Identify(c, v, s, r, tenant, t, up)), allowed)
  {
    allowed := false;
    if Policy.Active(tenant, t.unix) {
      var rid := tenant.value.routeID;
      var admitted := Admit(c, s.buckets, rid, t.allow);
      var verdict := Judge(c, v, r, tenant.value, t.unix);
      allowed := admitted.1 && verdict.Allow?;
      CarryBooked(c, s.(buckets := admitted.0), r, rid, verdict, t, up);
    }
  }

  lemma ResolveBooked(c: Config, v: View, s: State, r: Request, t: Times, up: Option<Msg>) returns (allowed: bool)
    requires CacheModel.Past(s.cache, t.get)
    ensures Booked(ResolveIn(c, v, s, r, t, up), allowed)
  {
    allowed := false;
    if ValidRequest(r) { allowed := IdentifyBooked(c, v, s, r, TenantSeen(v.atTenant, r.id), t, up); }
  }

  lemma SettledExpected(res: Result, m: Metric)
    requires Booked(res, false) && !Looks(res.out)
    ensures res.tallied[m] == Expected(KindOf(res), OfMetric(m))
  {
    if res.out != Probed {
      assert res.tallied == multiset{Queries, Mark(res.out)};
    }
  }

  function Marked(out: Outcome, allowed: bool, n: nat): Metrics {
    multiset{Queries} + (if allowed then multiset{Allowed} else multiset{}) + multiset{Mark(out)} + Drops(n)
  }

  lemma MarkedAt(out: Outcome, allowed: bool, n: nat, m: Metric)
    requires Looks(out)
    ensures Marked(out, allowed, n)[m]
         == One(m == Queries) + One(allowed && m == Allowed) + One(m == Mark(out)) + if m == Stripped then n else 0
  {}

  lemma BookedMarked(res: Result, allowed: bool) returns (n: nat)
    requires Booked(res, allowed) && Looks(res.out)
    ensures res.tallied == Marked(res.out, allowed, n) && (res.out != Fetched ==> n == 0)
  {
    n := if res.out == Fetched then res.tallied[Stripped] else 0;
    assert multiset{Mark(res.out)} + Drops(0) == multiset{Mark(res.out)};
  }

  lemma LookedExpected(res: Result, allowed: bool, m: Metric)
    requires Booked(res, allowed) && Looks(res.out)
    ensures res.tallied[m] == Expected(KindOf(res), OfMetric(m))
  {
    var n := BookedMarked(res, allowed);
    MarkedAt(res.out, allowed, n, m);
    MarkedAt(res.out, allowed, n, Allowed);
    MarkedAt(res.out, allowed, n, Stripped);
  }

  lemma BookedExplains(res: Result, allowed: bool)
    requires Booked(res, allowed)
    ensures Explains(res)
  {
    forall m ensures res.tallied[m] == Done(Script(KindOf(res)), |Script(KindOf(res))|, OfMetric(m)) {
      ScriptExpected(KindOf(res), OfMetric(m));
      if Looks(res.out) { LookedExpected(res, allowed, m); } else { SettledExpected(res, m); }
    }
    BookedUses(res, allowed);
  }

  lemma UsesWhen(k: Kind)
    ensures Use(k.s) in Script(k) <==> k.out != Rejected && k.out != Denied
  {
    var acts := Script(k);
    if Looks(k.out) {
      assert acts[if k.allowed then 2 else 1] == Use(k.s);
    } else if k.out == Probed {
      assert acts[1] == Use(k.s);
    } else if k.out != Rejected && k.out != Denied {
      assert acts[2] == Use(k.s);
    }
  }

  lemma BookedUses(res: Result, allowed: bool)
    requires Booked(res, allowed)
    ensures res.sample.Some? <==> Use(KindOf(res).s) in Script(KindOf(res))
  {
    UsesWhen(KindOf(res));
  }

  /** Every call of Resolve makes exactly the updates of its script. */
  lemma ResolveExplained(c: Config, v: View, s: State, r: Request, t: Times, up: Option<Msg>)
    requires CacheModel.Past(s.cache, t.get)
    ensures Explains(ResolveIn(c, v, s, r, t, up))
  {
    var allowed := ResolveBooked(c, v, s, r, t, up);
    BookedExplains(ResolveIn(c, v, s, r, t, up), allowed);
  }

  // ---- every interleaving ----

  datatype Call = Call(k: Kind, done: nat)

  /** All calls ever begun and how far each has come, the metrics, and the steps
      the usage collector has taken. */
  datatype Sys = Sys(calls: seq<Call>, metrics: Metrics, uses: seq<Usage.Event>)

  datatype Event = Began(k: Kind) | Advanced(call: nat) | Background(e: Usage.Event) | Garbled

  const START := Sys([], multiset{}, [])

  function Apply(y: Sys, a: Act): Sys {
    match a
    case Count(m) => y.(metrics := y.metrics + multiset{m})
    case Strip(n) => y.(metrics := y.metrics[Stripped := y.metrics[Stripped] + n])
    case Use(s) => y.(uses := y.uses + [Usage.Recorded(s)])
  }

  /** One step: a call begins, or makes its next update, or a flush takes,
      commits or puts back a batch, or a listener turns away a message that does
      not parse, which no call ever sees. What cannot happen changes nothing. */
  function Step(y: Sys, e: Event): Sys {
    match e
    case Began(k) => if Fits(k) then y.(calls := y.calls + [Call(k, 0)]) else y
    case Advanced(i) =>
      if i < |y.calls| && y.calls[i].done < |Script(y.calls[i].k)| then
        var c := y.calls[i];
        Apply(y, Script(c.k)[c.done]).(calls := y.calls[i := Call(c.k, c.done + 1)])
      else y
    case Background(e) => if e.Recorded? then y else y.(uses := y.uses + [e])
    case Garbled => y.(metrics := y.metrics + Rejection(true))
  }

  function After(evs: seq<Event>): Sys {
    if evs == [] then START else Step(After(evs[..|evs| - 1]), evs[|evs| - 1])
  }

  predicate Within(calls: seq<Call>) {
    forall i :: 0 <= i < |calls| ==> Fits(calls[i].k) && calls[i].done <= |Script(calls[i].k)|
  }

  /** What the first `n` calls have entered so far. */
  function Sum(calls: seq<Call>, n: nat, l: Ledger): nat
    requires n <= |calls| && Within(calls)
  {
    if n == 0 then 0 else Sum(calls, n - 1, l) + Done(Script(calls[n - 1].k), calls[n - 1].done, l)
  }

  /** Uses recorded in the collector's history. */
  function Recorded(uses: seq<Usage.Event>, id: Option<string>, c: Usage.Counter): nat {
    if uses == [] then 0
    else
      var e := uses[|uses| - 1];
      Recorded(uses[..|uses| - 1], id, c) + One(e.Recorded? && Marks(e.s, id, c))
  }

  function Read(y: Sys, l: Ledger): nat {
    match l case OfMetric(m) => y.metrics[m] case OfUses(id, c) => Recorded(y.uses, id, c)
  }

  lemma {:induction false} SumFrame(calls: seq<Call>, calls': seq<Call>, n: nat, l: Ledger)
    requires n <= |calls| && n <= |calls'| && Within(calls) && Within(calls') && calls[..n] == calls'[..n]
    ensures Sum(calls, n, l) == Sum(calls', n, l)
  {
    if n > 0 {
      assert calls[..n][n - 1] == calls'[..n][n - 1];
      assert calls[..n - 1] == calls[..n][..n - 1] && calls'[..n - 1] == calls'[..n][..n - 1];
      SumFrame(calls, calls', n - 1, l);
    }
  }

  lemma {:induction false} SumAdvance(calls: seq<Call>, next: seq<Call>, i: nat, n: nat, l: Ledger, more: nat)
    requires i < n <= |calls| == |next| && Within(calls) && Within(next)
    requires forall j :: 0 <= j < |calls| && j != i ==> next[j] == calls[j]
    requires Done(Script(next[i].k), next[i].done, l) == Done(Script(calls[i].k), calls[i].done, l) + more
    ensures Sum(next, n, l) == Sum(calls, n, l) + more
  {
    if i < n - 1 {
      SumAdvance(calls, next, i, n - 1, l, more);
      assert next[n - 1] == calls[n - 1];
    } else {
      assert next[..n - 1] == calls[..n - 1];
      SumFrame(calls, next, n - 1, l);
      assert next[n - 1] == next[i] && calls[n - 1] == calls[i];
    }
  }

  lemma ApplyReads(y: Sys, a: Act, l: Ledger)
    ensures Read(Apply(y, a), l) == Read(y, l) + Effect(a, l)
  {
    if a.Use? { assert (y.uses + [Usage.Recorded(a.s)])[..|y.uses|] == y.uses; }
  }

  lemma AdvanceKeeps(y: Sys, i: nat, l: Ledger, outside: nat)
    requires Within(y.calls) && Read(y, l) == Sum(y.calls, |y.calls|, l) + outside
    ensures Within(Step(y, Advanced(i)).calls)
    ensures Read(Step(y, Advanced(i)), l) == Sum(Step(y, Advanced(i)).calls, |y.calls|, l) + outside
  {
    if i < |y.calls| && y.calls[i].done < |Script(y.calls[i].k)| {
      var c := y.calls[i];
      ApplyReads(y, Script(c.k)[c.done], l);
      var next := y.calls[i := Call(c.k, c.done + 1)];
      SumAdvance(y.calls, next, i, |y.calls|, l, Effect(Script(c.k)[c.done], l));
    }
  }

  /** The messages that did not parse. */
  function Unparsed(evs: seq<Event>): nat {
    if evs == [] then 0 else Unparsed(evs[..|evs| - 1]) + One(evs[|evs| - 1].Garbled?)
  }

  /** What the listeners have entered so far, past all calls. */
  function Outside(evs: seq<Event>, l: Ledger): nat { if l == OfMetric(Malformed) then Unparsed(evs) else 0 }

  /** What a step adds to a ledger from outside all calls. */
  function FromListener(e: Event, l: Ledger): nat { One(l == OfMetric(Malformed) && e.Garbled?) }

  lemma BeganKeeps(y: Sys, k: Kind, l: Ledger, outside: nat)
    requires Within(y.calls) && Read(y, l) == Sum(y.calls, |y.calls|, l) + outside
    ensures var z := Step(y, Began(k)); Within(z.calls) && Read(z, l) == Sum(z.calls, |z.calls|, l) + outside
  {
    if Fits(k) {
      var calls := y.calls + [Call(k, 0)];
      SumFrame(y.calls, calls, |y.calls|, l);
      assert Within(calls) && Sum(calls, |calls|, l) == Sum(calls, |y.calls|, l);
    }
  }

  lemma StepKeepsBooks(y: Sys, e: Event, l: Ledger, outside: nat)
    requires Within(y.calls) && Read(y, l) == Sum(y.calls, |y.calls|, l) + outside
    ensures var z := Step(y, e);
      Within(z.calls) && Read(z, l) == Sum(z.calls, |z.calls|, l) + outside + FromListener(e, l)
  {
    match e
    case Began(k) => BeganKeeps(y, k, l, outside);
    case Advanced(i) => AdvanceKeeps(y, i, l, outside);
    case Background(b) =>
      if l.OfUses? && !b.Recorded? { assert (y.uses + [b])[..|y.uses|] == y.uses; }
    case Garbled =>
  }

  /** Conservation, at every moment of every interleaving: each metric, and each
      usage counter, is exactly what the calls have entered so far, and in the
      one counter of malformed messages what the listeners have. */
  lemma {:induction false} BooksAreCalls(evs: seq<Event>, l: Ledger)
    ensures Within(After(evs).calls)
    ensures Read(After(evs), l) == Sum(After(evs).calls, |After(evs).calls|, l) + Outside(evs, l)
  {
    if evs != [] {
      var init := evs[..|evs| - 1];
      BooksAreCalls(init, l);
      StepKeepsBooks(After(init), evs[|evs| - 1], l, Outside(init, l));
    }
  }

  // ---- the books balance ----

  /** No call is under way. */
  predicate AtRest(y: Sys) {
    forall i :: 0 <= i < |y.calls| ==> y.calls[i].done == |Script(y.calls[i].k)|
  }

  function ProbesAsked(calls: seq<Call>, n: nat): nat
    requires n <= |calls|
  {
    if n == 0 then 0 else ProbesAsked(calls, n - 1) + One(calls[n - 1].k.out == Probed)
  }

  function SumOf(calls: seq<Call>, n: nat, m: Metric): nat
    requires n <= |calls| && Within(calls)
  {
    Sum(calls, n, OfMetric(m))
  }

  /** The counters that tell outcomes, together. */
  function Outcomes(calls: seq<Call>, n: nat): nat
    requires n <= |calls| && Within(calls)
  {
    SumOf(calls, n, Malformed) + SumOf(calls, n, Metric.Refused) + SumOf(calls, n, Throttled)
    + SumOf(calls, n, Overridden) + SumOf(calls, n, Blocked) + SumOf(calls, n, CacheHits)
    + SumOf(calls, n, Answered) + SumOf(calls, n, Unanswered)
  }

  function OutcomesOf(acts: seq<Act>, n: nat): nat
    requires n <= |acts|
  {
    Done(acts, n, OfMetric(Malformed)) + Done(acts, n, OfMetric(Metric.Refused)) + Done(acts, n, OfMetric(Throttled))
    + Done(acts, n, OfMetric(Overridden)) + Done(acts, n, OfMetric(Blocked)) + Done(acts, n, OfMetric(CacheHits))
    + Done(acts, n, OfMetric(Answered)) + Done(acts, n, OfMetric(Unanswered))
  }

  lemma WholeCall(k: Kind)
    ensures var acts := Script(k);
      && Done(acts, |acts|, OfMetric(Queries)) == 1
      && OutcomesOf(acts, |acts|) == One(k.out != Probed)
  {
    ScriptExpected(k, OfMetric(Queries));
    ScriptExpected(k, OfMetric(Malformed));
    ScriptExpected(k, OfMetric(Metric.Refused));
    ScriptExpected(k, OfMetric(Throttled));
    ScriptExpected(k, OfMetric(Overridden));
    ScriptExpected(k, OfMetric(Blocked));
    ScriptExpected(k, OfMetric(CacheHits));
    ScriptExpected(k, OfMetric(Answered));
    ScriptExpected(k, OfMetric(Unanswered));
  }

  lemma {:induction false} OutcomesGrow(acts: seq<Act>, n: nat, n': nat)
    requires n <= n' <= |acts|
    ensures OutcomesOf(acts, n) <= OutcomesOf(acts, n')
    ensures Done(acts, n, OfMetric(Queries)) <= Done(acts, n', OfMetric(Queries))
  {
    if n < n' { OutcomesGrow(acts, n, n' - 1); }
  }

  lemma PartCall(k: Kind, n: nat)
    requires n <= |Script(k)|
    ensures OutcomesOf(Script(k), n) <= Done(Script(k), n, OfMetric(Queries))
  {
    if n > 0 {
      var acts := Script(k);
      WholeCall(k);
      OutcomesGrow(acts, n, |acts|);
      OutcomesGrow(acts, 1, n);
      assert Done(acts, 1, OfMetric(Queries)) == Done(acts, 0, OfMetric(Queries)) + Effect(acts[0], OfMetric(Queries));
    }
  }

  lemma OneMoreCall(calls: seq<Call>, n: nat)
    requires 0 < n <= |calls| && Within(calls)
    ensures var acts, done := Script(calls[n - 1].k), calls[n - 1].done;
      && Outcomes(calls, n) == Outcomes(calls, n - 1) + OutcomesOf(acts, done)
      && SumOf(calls, n, Queries) == SumOf(calls, n - 1, Queries) + Done(acts, done, OfMetric(Queries))
  {}

  lemma {:induction false} OutcomesBehind(calls: seq<Call>, n: nat)
    requires n <= |calls| && Within(calls)
    ensures Outcomes(calls, n) <= SumOf(calls, n, Queries)
    ensures (forall i :: 0 <= i < n ==> calls[i].done == |Script(calls[i].k)|) ==>
      SumOf(calls, n, Queries) == Outcomes(calls, n) + ProbesAsked(calls, n)
  {
    if n > 0 {
      OutcomesBehind(calls, n - 1);
      OneMoreCall(calls, n);
      PartCall(calls[n - 1].k, calls[n - 1].done);
      WholeCall(calls[n - 1].k);
    }
  }

  /** The counters that tell how queries ended, as an operator reads them. */
  function Told(m: Metrics): nat {
    m[Malformed] + m[Metric.Refused] + m[Throttled] + m[Overridden]
    + m[Blocked] + m[CacheHits] + m[Answered] + m[Unanswered]
  }

  lemma ToldIsOutcomes(evs: seq<Event>)
    ensures var y := After(evs);
      && Within(y.calls) && y.metrics[Queries] == SumOf(y.calls, |y.calls|, Queries)
      && Told(y.metrics) == Outcomes(y.calls, |y.calls|) + Unparsed(evs)
  {
    BooksAreCalls(evs, OfMetric(Queries));
    BooksAreCalls(evs, OfMetric(Malformed));
    BooksAreCalls(evs, OfMetric(Metric.Refused));
    BooksAreCalls(evs, OfMetric(Throttled));
    BooksAreCalls(evs, OfMetric(Overridden));
    BooksAreCalls(evs, OfMetric(Blocked));
    BooksAreCalls(evs, OfMetric(CacheHits));
    BooksAreCalls(evs, OfMetric(Answered));
    BooksAreCalls(evs, OfMetric(Unanswered));
  }

  /** At every moment the outcome counters are at most the queries and the
      messages that did not parse; and whenever no call is under way every query
      and every such message is accounted for by exactly one outcome or probe. */
  lemma MetricsBalance(evs: seq<Event>)
    ensures var y := After(evs);
      && Told(y.metrics) <= y.metrics[Queries] + Unparsed(evs)
      && (AtRest(y) ==> y.metrics[Queries] + Unparsed(evs) == Told(y.metrics) + ProbesAsked(y.calls, |y.calls|))
  {
    ToldIsOutcomes(evs);
    OutcomesBehind(After(evs).calls, |After(evs).calls|);
  }

  /** So the query counter by itself is the sum of the outcomes and the probes
      exactly as long as no message has failed to parse, and is at least the sum
      of the outcomes exactly as long as no more of them than probes have. */
  lemma QueriesAloneIff(evs: seq<Event>)
    requires AtRest(After(evs))
    ensures var y := After(evs);
      && (y.metrics[Queries] == Told(y.metrics) + ProbesAsked(y.calls, |y.calls|) <==> Unparsed(evs) == 0)
      && (Told(y.metrics) <= y.metrics[Queries] <==> Unparsed(evs) <= ProbesAsked(y.calls, |y.calls|))
  {
    MetricsBalance(evs);
  }

  /** One message of garbage to a fresh server: a malformed message and no query. */
  lemma OneBadMessage()
    ensures var y := After([Garbled]);
      AtRest(y) && y.metrics[Malformed] == 1 && y.metrics[Queries] == 0 && Told(y.metrics) > y.metrics[Queries]
  {
    assert [Garbled][..0] == [];
    assert After([Garbled]) == Step(START, Garbled);
  }

  /** Where such a message comes from: a stream whose serving ends with a request
      that does not parse counts one, adds what ServeStream adds to the metrics,
      and a stream that ends in any other way counts none. */
  lemma StreamCounts(evs: seq<Event>, handle: Framing.Handler, s: Framing.Bytes, sends: nat)
    ensures var (replies, end) := Framing.Served(handle, s, 0, sends);
      var after := if end == Framing.End.Malformed then evs + [Garbled] else evs;
      && After(after).metrics == After(evs).metrics + Rejection(end == Framing.End.Malformed)
      && Unparsed(after) == Unparsed(evs)
           + One(|replies| < |Framing.Frames(s)| && handle(|replies|, Framing.Frames(s)[|replies|]) == Framing.Unparsed)
  {
    var (replies, end) := Framing.Served(handle, s, 0, sends);
    Framing.ServedLongest(handle, s, 0, sends);
    assert 0 + |replies| == |replies|;
    assert (evs + [Garbled])[..|evs|] == evs;
  }

  // ---- and agree with what tenants are charged ----

  /** The metric that counts the same calls as a usage flag. */
  function Twin(c: Usage.Counter): Metric {
    match c case Queries => Queries case Blocked => Blocked case Overridden => Overridden case Throttled => Throttled
  }

  lemma CallCharges(k: Kind, c: Usage.Counter)
    requires Fits(k)
    ensures Expected(k, OfUses(None, c))
          + (if c == Usage.Queries then Expected(k, OfMetric(Malformed)) + Expected(k, OfMetric(Metric.Refused)) else 0)
         == Expected(k, OfMetric(Twin(c)))
  {}

  lemma {:induction false} ChargesBalance(calls: seq<Call>, n: nat, c: Usage.Counter)
    requires n <= |calls| && Within(calls)
    requires forall i :: 0 <= i < n ==> calls[i].done == |Script(calls[i].k)|
    ensures Sum(calls, n, OfUses(None, c))
          + (if c == Usage.Queries then SumOf(calls, n, Malformed) + SumOf(calls, n, Metric.Refused) else 0)
         == SumOf(calls, n, Twin(c))
  {
    if n > 0 {
      ChargesBalance(calls, n - 1, c);
      var k := calls[n - 1].k;
      CallCharges(k, c);
      ScriptExpected(k, OfUses(None, c));
      ScriptExpected(k, OfMetric(Malformed));
      ScriptExpected(k, OfMetric(Metric.Refused));
      ScriptExpected(k, OfMetric(Twin(c)));
    }
  }

  /** The tenants' totals, wherever they are kept: stored, in flight, pending. */
  function Charged(y: Sys, ids: seq<string>, n: nat, c: Usage.Counter): nat
    requires n <= |ids|
  {
    if n == 0 then 0 else Charged(y, ids, n - 1, c) + Usage.Total(Usage.After(y.uses), ids[n - 1], c)
  }

  /** Distinct named tenants, all that any use names among them. */
  predicate Tenants(ids: seq<string>, uses: seq<Usage.Event>) {
    && "" !in ids && (forall i, j :: 0 <= i < j < |ids| ==> ids[i] != ids[j])
    && forall i :: 0 <= i < |uses| && uses[i].Recorded? ==> uses[i].s.routeID == "" || uses[i].s.routeID in ids
  }

  lemma {:induction false} HistoryIsRecorded(uses: seq<Usage.Event>, id: string, c: Usage.Counter)
    requires id != ""
    ensures Usage.History(uses, id, c) == Recorded(uses, Some(id), c)
  {
    if uses != [] { HistoryIsRecorded(uses[..|uses| - 1], id, c); }
  }

  function RecordedBy(uses: seq<Usage.Event>, ids: seq<string>, n: nat, c: Usage.Counter): nat
    requires n <= |ids|
  {
    if n == 0 then 0 else RecordedBy(uses, ids, n - 1, c) + Recorded(uses, Some(ids[n - 1]), c)
  }

  lemma {:induction false} ChargedIsRecorded(y: Sys, ids: seq<string>, n: nat, c: Usage.Counter)
    requires n <= |ids| && "" !in ids
    ensures Charged(y, ids, n, c) == RecordedBy(y.uses, ids, n, c)
  {
    if n > 0 {
      ChargedIsRecorded(y, ids, n - 1, c);
      Usage.NothingLost(y.uses, ids[n - 1], c);
      HistoryIsRecorded(y.uses, ids[n - 1], c);
    }
  }

  /** One more event counts for the one tenant it names. */
  lemma {:induction false} OneMoreRecorded(uses: seq<Usage.Event>, e: Usage.Event, ids: seq<string>, n: nat,
                                           c: Usage.Counter)
    requires n <= |ids| && forall i, j :: 0 <= i < j < |ids| ==> ids[i] != ids[j]
    ensures RecordedBy(uses + [e], ids, n, c)
         == RecordedBy(uses, ids, n, c) + One(e.Recorded? && Flag(e.s, c) && e.s.routeID in ids[..n])
  {
    if n > 0 {
      OneMoreRecorded(uses, e, ids, n - 1, c);
      assert (uses + [e])[..|uses|] == uses;
      assert ids[..n] == ids[..n - 1] + [ids[n - 1]];
    }
  }

  lemma {:induction false} NoneRecorded(ids: seq<string>, n: nat, c: Usage.Counter)
    requires n <= |ids|
    ensures RecordedBy([], ids, n, c) == 0
  {
    if n > 0 { NoneRecorded(ids, n - 1, c); }
  }

  lemma {:induction false} TenantsAreAll(uses: seq<Usage.Event>, ids: seq<string>, c: Usage.Counter)
    requires Tenants(ids, uses)
    ensures RecordedBy(uses, ids, |ids|, c) + Recorded(uses, Some(""), c) == Recorded(uses, None, c)
  {
    if uses == [] {
      NoneRecorded(ids, |ids|, c);
    } else {
      var init, e := uses[..|uses| - 1], uses[|uses| - 1];
      TenantsAreAll(init, ids, c);
      OneMoreRecorded(init, e, ids, |ids|, c);
      assert uses == init + [e] && ids[..|ids|] == ids;
    }
  }

  /** What of a usage counter's metric no tenant is charged for. */
  function Uncharged(y: Sys, c: Usage.Counter): nat {
    Recorded(y.uses, Some(""), c) + if c == Usage.Queries then y.metrics[Malformed] + y.metrics[Metric.Refused] else 0
  }

  /** The whole account. Whenever no call is under way - whatever flushes are -
      all tenants' queries, stored, in flight and pending, and those of nameless
      tenants, which are not kept, and what was malformed or refused, make up
      every query and every message that did not parse; and so for each flag and
      its metric, where such messages do not come in. */
  lemma ChargesMatchMetrics(evs: seq<Event>, ids: seq<string>, c: Usage.Counter)
    requires AtRest(After(evs)) && Tenants(ids, After(evs).uses)
    ensures var y := After(evs);
      Charged(y, ids, |ids|, c) + Uncharged(y, c)
      == y.metrics[Twin(c)] + if c == Usage.Queries then Unparsed(evs) else 0
  {
    var y := After(evs);
    ChargedIsRecorded(y, ids, |ids|, c);
    TenantsAreAll(y.uses, ids, c);
    BooksAreCalls(evs, OfUses(None, c));
    BooksAreCalls(evs, OfMetric(Malformed));
    BooksAreCalls(evs, OfMetric(Metric.Refused));
    BooksAreCalls(evs, OfMetric(Twin(c)));
    ChargesBalance(y.calls, |y.calls|, c);
  }

  /** Without the messages that did not parse the account of queries closes
      exactly when there were none. */
  lemma ChargesAloneIff(evs: seq<Event>, ids: seq<string>)
    requires AtRest(After(evs)) && Tenants(ids, After(evs).uses)
    ensures var y := After(evs);
      Charged(y, ids, |ids|, Usage.Queries) + Uncharged(y, Usage.Queries) == y.metrics[Queries] <==> Unparsed(evs) == 0
  {
    ChargesMatchMetrics(evs, ids, Usage.Queries);
  }

  lemma {:induction false} FlagsWithin(acts: seq<Act>, n: nat, id: string)
    requires n <= |acts|
    requires forall a :: a in acts && a.Use? ==> One(a.s.blocked) + One(a.s.overridden) + One(a.s.throttled) <= 1
    ensures Done(acts, n, OfUses(Some(id), Usage.Blocked)) + Done(acts, n, OfUses(Some(id), Usage.Overridden))
          + Done(acts, n, OfUses(Some(id), Usage.Throttled)) <= Done(acts, n, OfUses(Some(id), Usage.Queries))
  {
    if n > 0 {
      FlagsWithin(acts, n - 1, id);
      assert acts[n - 1] in acts;
    }
  }

  lemma {:induction false} FlagsWithinAll(calls: seq<Call>, n: nat, id: string)
    requires n <= |calls| && Within(calls)
    ensures Sum(calls, n, OfUses(Some(id), Usage.Blocked)) + Sum(calls, n, OfUses(Some(id), Usage.Overridden))
          + Sum(calls, n, OfUses(Some(id), Usage.Throttled)) <= Sum(calls, n, OfUses(Some(id), Usage.Queries))
  {
    if n > 0 {
      FlagsWithinAll(calls, n - 1, id);
      FlagsWithin(Script(calls[n - 1].k), calls[n - 1].done, id);
    }
  }

  /** At every moment a tenant's blocked, overridden and throttled queries are
      disjoint parts of its queries. */
  lemma FlagsArePartOfQueries(evs: seq<Event>, id: string)
    requires id != ""
    ensures var u := Usage.After(After(evs).uses);
      Usage.Total(u, id, Usage.Blocked) + Usage.Total(u, id, Usage.Overridden) + Usage.Total(u, id, Usage.Throttled)
      <= Usage.Total(u, id, Usage.Queries)
  {
    var y := After(evs);
    UsesAre(evs, id, Usage.Blocked);
    UsesAre(evs, id, Usage.Overridden);
    UsesAre(evs, id, Usage.Throttled);
    UsesAre(evs, id, Usage.Queries);
    FlagsWithinAll(y.calls, |y.calls|, id);
  }

  lemma UsesAre(evs: seq<Event>, id: string, c: Usage.Counter)
    requires id != ""
    ensures Within(After(evs).calls)
    ensures Usage.Total(Usage.After(After(evs).uses), id, c)
         == Sum(After(evs).calls, |After(evs).calls|, OfUses(Some(id), c))
  {
    BooksAreCalls(evs, OfUses(Some(id), c));
    Usage.NothingLost(After(evs).uses, id, c);
    HistoryIsRecorded(After(evs).uses, id, c);
  }
}
