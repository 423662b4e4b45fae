/** resolver/ratelimit.go: lazily refilled token buckets, connection slots, and
    a sweeper that forgets idle tenants. Times are seconds on one clock and
    tokens are exact reals. */
module RateModel {
  import opened GoStrings

  const IDLE_TTL := 600.0

  datatype Limits = Limits(qps: real, burst: nat, maxConns: int)

  datatype Level = Level(tokens: real, lastFill: real, lastUsed: real, conns: nat)

  type Buckets = map<string, Level>

  datatype Handle = Handle(id: string, released: bool)

  /** The limiter and every release closure it has handed out. */
  datatype Sys = Sys(buckets: Buckets, handles: seq<Handle>)

  const START := Sys(map[], [])

  datatype Event =
    | Query(id: string, now: real)
    | Dial(id: string, now: real)
    | Hangup(handle: nat)
    | Swept(now: real)

  /** The tenant's bucket; a new one starts full. */
  function Bucket(l: Limits, m: Buckets, id: string, now: real): Level {
    if id in m then m[id] else Level(l.burst as real, now, now, 0)
  }

  function Refill(l: Limits, b: Level, now: real): Level {
    if now - b.lastFill > 0.0 then
      var t := b.tokens + (now - b.lastFill) * l.qps;
      b.(tokens := if t > l.burst as real then l.burst as real else t, lastFill := now)
    else b
  }

  /** Refill, then take a token if there is one. */
  function Take(l: Limits, b: Level, now: real): (Level, bool) {
    var f := Refill(l, b, now).(lastUsed := now);
    if f.tokens < 1.0 then (f, false) else (f.(tokens := f.tokens - 1.0), true)
  }

  lemma TakeIgnoresLastUsed(l: Limits, b: Level, used: real, now: real)
    ensures Take(l, b.(lastUsed := used), now) == Take(l, b, now)
  {
    var other := b.(lastUsed := used);
    assert other.tokens == b.tokens && other.lastFill == b.lastFill;
    assert Refill(l, other, now).(lastUsed := now) == Refill(l, b, now).(lastUsed := now);
  }

  /** Allow. */
  function AllowIn(l: Limits, m: Buckets, id: string, now: real): (Buckets, bool) {
    var (b, ok) := Take(l, Bucket(l, m, id, now), now);
    (m[id := b], ok)
  }

  /** The connections a tenant holds. */
  function Conns(m: Buckets, id: string): nat { if id in m then m[id].conns else 0 }

  /** AcquireConn: a slot, and the handle that gives it back. */
  function AcquireIn(l: Limits, y: Sys, id: string, now: real): (Sys, bool) {
    if l.maxConns <= 0 then (y, true)
    else
      var b := Bucket(l, y.buckets, id, now);
      if b.conns >= l.maxConns then (y.(buckets := y.buckets[id := b]), false)
      else (Sys(y.buckets[id := b.(conns := b.conns + 1, lastUsed := now)], y.handles + [Handle(id, false)]), true)
  }

  lemma AcquireCases(l: Limits, y: Sys, id: string, now: real)
    requires l.maxConns > 0
    ensures Conns(y.buckets, id) >= l.maxConns ==> AcquireIn(l, y, id, now) == (y, false)
    ensures Conns(y.buckets, id) < l.maxConns ==>
      var b := Bucket(l, y.buckets, id, now).(conns := Conns(y.buckets, id) + 1, lastUsed := now);
      AcquireIn(l, y, id, now) == (Sys(y.buckets[id := b], y.handles + [Handle(id, false)]), true)
  {
    if id in y.buckets { assert y.buckets[id := y.buckets[id]] == y.buckets; }
  }

  /** One call of a release closure: the first has effect, later ones none. */
  function ReleaseIn(y: Sys, h: nat): Sys {
    if h >= |y.handles| || y.handles[h].released then y
    else
      var id := y.handles[h].id;
      var m := if id in y.buckets && y.buckets[id].conns > 0
               then y.buckets[id := y.buckets[id].(conns := y.buckets[id].conns - 1)] else y.buckets;
      Sys(m, y.handles[h := Handle(id, true)])
  }

  predicate Idle(b: Level, now: real) { b.conns == 0 && now - b.lastUsed > IDLE_TTL }

  function SweepIn(m: Buckets, now: real): Buckets {
    map id | id in m && !Idle(m[id], now) :: m[id]
  }

  /** One event, and what it answered. With `sweeping` off the sweeper only
      pretends to run, which is the limiter that never forgets. */
  function Step(l: Limits, y: Sys, e: Event, sweeping: bool): (Sys, bool) {
    match e
    case Query(id, now) => var (m, ok) := AllowIn(l, y.buckets, id, now); (y.(buckets := m), ok)
    case Dial(id, now) => AcquireIn(l, y, id, now)
    case Hangup(h) => (ReleaseIn(y, h), true)
    case Swept(now) => (if sweeping then y.(buckets := SweepIn(y.buckets, now)) else y, true)
  }

  function After(l: Limits, y: Sys, evs: seq<Event>, sweeping: bool): Sys
    decreases |evs|
  {
    if evs == [] then y else After(l, Step(l, y, evs[0], sweeping).0, evs[1..], sweeping)
  }

  function Answers(l: Limits, y: Sys, evs: seq<Event>, sweeping: bool): (r: seq<bool>)
    ensures |r| == |evs|
    decreases |evs|
  {
    if evs == [] then []
    else var (z, ok) := Step(l, y, evs[0], sweeping); [ok] + Answers(l, z, evs[1..], sweeping)
  }

  function Tick(clock: real, e: Event): real {
    match e
    case Query(_, now) => now
    case Dial(_, now) => now
    case Hangup(_) => clock
    case Swept(now) => if now > clock then now else clock
  }

  /** Clock readings do not decrease in the order the lock is taken. A sweep may
      carry an old tick, but none that later readings would precede. */
  predicate Steady(clock: real, evs: seq<Event>)
    decreases |evs|
  {
    evs == [] || (clock <= Tick(clock, evs[0]) && Steady(Tick(clock, evs[0]), evs[1..]))
  }

  /** Queries of `id` granted with a reading in [t1, t2]. */
  function Granted(evs: seq<Event>, answers: seq<bool>, id: string, t1: real, t2: real): nat
    requires |answers| == |evs|
  {
    if evs == [] then 0
    else
      var one := if evs[0].Query? && evs[0].id == id && t1 <= evs[0].now <= t2 && answers[0] then 1 else 0;
      one + Granted(evs[1..], answers[1..], id, t1, t2)
  }

  /** Refilling for as long as a bucket can stay idle fills it. */
  predicate FillsWhileIdle(l: Limits) { l.burst as real <= 600.0 * l.qps }

  // ---- the tokens a tenant would find at time t ----

  function Full(l: Limits, b: Level, t: real): real {
    var x := b.tokens + (t - b.lastFill) * l.qps;
    if x > l.burst as real then l.burst as real else x
  }

  function Tokens(l: Limits, m: Buckets, id: string, t: real): real {
    if id in m then Full(l, m[id], t) else l.burst as real
  }

  predicate LevelOk(l: Limits, b: Level, clock: real) {
    0.0 <= b.tokens <= l.burst as real && b.lastFill <= b.lastUsed <= clock
  }

  ghost predicate BucketsOk(l: Limits, m: Buckets, clock: real) {
    forall id :: id in m ==> LevelOk(l, m[id], clock)
  }

  lemma MulMono(a: real, b: real, q: real)
    requires q > 0.0 && a <= b
    ensures a * q <= b * q
    ensures 0.0 <= (b - a) * q
  {}

  function Capped(l: Limits, x: real): real { if x > l.burst as real then l.burst as real else x }

  lemma SpanSplits(a: real, c: real, t: real, q: real)
    requires q > 0.0 && a <= c <= t
    ensures (t - a) * q == (c - a) * q + (t - c) * q && 0.0 <= (c - a) * q && 0.0 <= (t - c) * q
  {
    MulMono(a, c, q);
    MulMono(c, t, q);
    assert t - a == (c - a) + (t - c);
  }

  lemma FullLater(l: Limits, b: Level, c: real, t: real)
    requires l.qps > 0.0 && b.lastFill <= c <= t && 0.0 <= b.tokens <= l.burst as real
    ensures Full(l, b, t) == Capped(l, Full(l, b, c) + (t - c) * l.qps)
    ensures 0.0 <= Full(l, b, c) <= Full(l, b, t) <= l.burst as real
  {
    SpanSplits(b.lastFill, c, t, l.qps);
  }

  lemma FullAtFill(l: Limits, b: Level)
    requires b.tokens <= l.burst as real
    ensures Full(l, b, b.lastFill) == b.tokens
  {
    assert (b.lastFill - b.lastFill) * l.qps == 0.0;
  }

  lemma RefillIsFull(l: Limits, b: Level, now: real)
    requires b.lastFill <= now && b.tokens <= l.burst as real
    ensures Refill(l, b, now) == b.(tokens := Full(l, b, now), lastFill := now)
  {
    FullAtFill(l, b);
  }

  /** Waiting from c to t adds the refill, up to the burst. */
  lemma TokensLater(l: Limits, m: Buckets, id: string, c: real, t: real)
    requires l.qps > 0.0 && BucketsOk(l, m, c) && c <= t
    ensures Tokens(l, m, id, t) == Capped(l, Tokens(l, m, id, c) + (t - c) * l.qps)
    ensures 0.0 <= Tokens(l, m, id, c) <= Tokens(l, m, id, t) <= l.burst as real
  {
    MulMono(0.0, t - c, l.qps);
    if id in m { FullLater(l, m[id], c, t); }
  }

  /** Allow answers by, and takes from, exactly the refilled tokens. */
  lemma AllowExact(l: Limits, m: Buckets, id: string, clock: real, now: real)
    requires l.qps > 0.0 && BucketsOk(l, m, clock) && clock <= now
    ensures var (m', ok) := AllowIn(l, m, id, now);
      && (ok <==> Tokens(l, m, id, now) >= 1.0)
      && Tokens(l, m', id, now) == Tokens(l, m, id, now) - (if ok then 1.0 else 0.0)
      && BucketsOk(l, m', now)
      && m'.Keys == m.Keys + {id} && (forall k :: k in m && k != id ==> m'[k] == m[k])
      && m'[id].conns == Conns(m, id) && m'[id].lastUsed == now
  {
    TokensLater(l, m, id, clock, now);
    var b := Bucket(l, m, id, now);
    FullAtFill(l, b);
    RefillIsFull(l, b, now);
    var m' := AllowIn(l, m, id, now).0;
    FullAtFill(l, m'[id]);
  }

  /** Nothing but Allow changes what a tenant would find; a sweep does not when
      idling fills the bucket (or when it does not really run). */
  lemma OthersKeepTokens(l: Limits, y: Sys, e: Event, sweeping: bool, id: string, clock: real, t: real)
    requires l.qps > 0.0 && BucketsOk(l, y.buckets, clock) && clock <= Tick(clock, e) <= t
    requires FillsWhileIdle(l) || !sweeping
    requires !e.Query? || e.id != id
    ensures var m := Step(l, y, e, sweeping).0.buckets;
      Tokens(l, m, id, t) == Tokens(l, y.buckets, id, t)
  {
    match e
    case Query(k, now) => AllowExact(l, y.buckets, k, clock, now);
    case Dial(k, now) => NewIsFull(l, t, now);
    case Hangup(h) =>
    case Swept(now) =>
      if id in y.buckets && Idle(y.buckets[id], now) { IdleIsFull(l, y.buckets[id], now, t); }
  }

  lemma NewIsFull(l: Limits, t: real, now: real)
    requires l.qps > 0.0 && now <= t
    ensures Full(l, Level(l.burst as real, now, now, 1), t) == l.burst as real
    ensures Full(l, Level(l.burst as real, now, now, 0), t) == l.burst as real
  {
    MulMono(0.0, t - now, l.qps);
  }

  lemma IdleIsFull(l: Limits, b: Level, now: real, t: real)
    requires l.qps > 0.0 && Idle(b, now) && now <= t && b.lastFill <= b.lastUsed && 0.0 <= b.tokens
    ensures FillsWhileIdle(l) ==> Full(l, b, t) == l.burst as real
  {
    var idle := t - b.lastFill;
    assert idle >= IDLE_TTL;
    MulMono(IDLE_TTL, idle, l.qps);
    var gain := idle * l.qps;
    assert FillsWhileIdle(l) ==> b.tokens + gain >= l.burst as real;
  }

  lemma StepKeepsBuckets(l: Limits, y: Sys, e: Event, sweeping: bool, clock: real)
    requires l.qps > 0.0 && BucketsOk(l, y.buckets, clock) && clock <= Tick(clock, e)
    ensures BucketsOk(l, Step(l, y, e, sweeping).0.buckets, Tick(clock, e))
  {
    match e
    case Query(k, now) => AllowExact(l, y.buckets, k, clock, now);
    case Dial(_, _) =>
    case Hangup(_) =>
    case Swept(_) =>
  }

  function Later(a: real, b: real): real { if a < b then b else a }

  /** g grants up to time `end` are paid for by `tokens` found at `from`. */
  predicate Paid(g: nat, tokens: real, from: real, end: real, qps: real) {
    if from <= end then g as real <= tokens + (end - from) * qps else g == 0
  }

  lemma PaidNothing(tokens: real, from: real, end: real, qps: real)
    requires qps > 0.0 && tokens >= 0.0
    ensures Paid(0, tokens, from, end, qps)
  {
    if from <= end { MulMono(from, end, qps); }
  }

  /** From any state: grants in the window are paid for by the tokens found at
      its start and the refill during it. */
  lemma {:induction false} WindowBound(l: Limits, y: Sys, evs: seq<Event>, sweeping: bool,
                                       clock: real, id: string, t1: real, t2: real)
    requires l.qps > 0.0 && BucketsOk(l, y.buckets, clock) && Steady(clock, evs)
    requires FillsWhileIdle(l) || !sweeping
    ensures Paid(Granted(evs, Answers(l, y, evs, sweeping), id, t1, t2),
                 Tokens(l, y.buckets, id, Later(clock, t1)), Later(clock, t1), t2, l.qps)
    decreases |evs|
  {
    var from := Later(clock, t1);
    TokensLater(l, y.buckets, id, clock, from);
    if evs == [] {
      PaidNothing(Tokens(l, y.buckets, id, from), from, t2, l.qps);
    } else {
      var e := evs[0];
      var (z, ok) := Step(l, y, e, sweeping);
      var to := Later(Tick(clock, e), t1);
      var one := if e.Query? && e.id == id && t1 <= e.now <= t2 && ok then 1 else 0;
      StepKeepsBuckets(l, y, e, sweeping, clock);
      WindowBound(l, z, evs[1..], sweeping, Tick(clock, e), id, t1, t2);
      GrantedHead(l, y, evs, sweeping, id, t1, t2);
      PaidStep(l, y, e, sweeping, clock, id, from, to, t2, one,
               Granted(evs[1..], Answers(l, z, evs[1..], sweeping), id, t1, t2));
    }
  }

  lemma GrantedHead(l: Limits, y: Sys, evs: seq<Event>, sweeping: bool, id: string, t1: real, t2: real)
    requires evs != []
    ensures var (z, ok) := Step(l, y, evs[0], sweeping);
      Granted(evs, Answers(l, y, evs, sweeping), id, t1, t2)
        == Granted(evs[1..], Answers(l, z, evs[1..], sweeping), id, t1, t2)
         + if evs[0].Query? && evs[0].id == id && t1 <= evs[0].now <= t2 && ok then 1 else 0
  {
    var z := Step(l, y, evs[0], sweeping).0;
    assert Answers(l, y, evs, sweeping)[1..] == Answers(l, z, evs[1..], sweeping);
  }

  lemma Spread(c: real, b: real, a: real, q: real)
    ensures (c - a) * q == (c - b) * q + (b - a) * q
  {}

  /** One event: what it grants comes out of the tokens there were, plus the
      refill between the two moments. */
  lemma PaidFor(l: Limits, y: Sys, e: Event, sweeping: bool, clock: real, id: string,
                from: real, to: real, one: nat)
    requires l.qps > 0.0 && BucketsOk(l, y.buckets, clock) && clock <= Tick(clock, e) <= to && clock <= from <= to
    requires FillsWhileIdle(l) || !sweeping
    requires one == 0 || (one == 1 && e.Query? && e.id == id && e.now == to && Step(l, y, e, sweeping).1)
    ensures Tokens(l, Step(l, y, e, sweeping).0.buckets, id, to) + one as real
         <= Tokens(l, y.buckets, id, from) + (to - from) * l.qps
  {
    var z := Step(l, y, e, sweeping).0;
    TokensLater(l, y.buckets, id, from, to);
    if e.Query? && e.id == id {
      AllowExact(l, y.buckets, id, clock, e.now);
      TokensLater(l, y.buckets, id, e.now, to);
      TokensLater(l, z.buckets, id, e.now, to);
      MulMono(0.0, to - e.now, l.qps);
    } else {
      OthersKeepTokens(l, y, e, sweeping, id, clock, to);
    }
  }

  lemma PaidStep(l: Limits, y: Sys, e: Event, sweeping: bool, clock: real, id: string,
                 from: real, to: real, end: real, one: nat, g: nat)
    requires l.qps > 0.0 && BucketsOk(l, y.buckets, clock) && clock <= Tick(clock, e) <= to && clock <= from <= to
    requires FillsWhileIdle(l) || !sweeping
    requires one == 0 || (one == 1 && e.Query? && e.id == id && e.now == to <= end && Step(l, y, e, sweeping).1)
    requires Paid(g, Tokens(l, Step(l, y, e, sweeping).0.buckets, id, to), to, end, l.qps)
    ensures Paid(g + one, Tokens(l, y.buckets, id, from), from, end, l.qps)
  {
    PaidFor(l, y, e, sweeping, clock, id, from, to, one);
    TokensLater(l, y.buckets, id, clock, from);
    if to <= end {
      Spread(end, to, from, l.qps);
    } else {
      PaidNothing(Tokens(l, y.buckets, id, from), from, end, l.qps);
    }
  }

  /** In every run, one tenant is granted at most burst + qps * (t2 - t1)
      queries in [t1, t2], however often it is swept and reconnects. */
  lemma GrantsBounded(l: Limits, evs: seq<Event>, id: string, t1: real, t2: real)
    requires l.qps > 0.0 && FillsWhileIdle(l) && Steady(0.0, evs) && t1 <= t2
    ensures Granted(evs, Answers(l, START, evs, true), id, t1, t2) as real <= l.burst as real + (t2 - t1) * l.qps
  {
    WindowBound(l, START, evs, true, 0.0, id, t1, t2);
    var granted := Granted(evs, Answers(l, START, evs, true), id, t1, t2);
    PaidFromEarlier(granted, l.burst as real, Later(0.0, t1), t1, t2, l.qps);
  }

  lemma PaidFromEarlier(g: nat, tokens: real, from: real, start: real, end: real, qps: real)
    requires qps > 0.0 && tokens >= 0.0 && start <= from && start <= end && Paid(g, tokens, from, end, qps)
    ensures g as real <= tokens + (end - start) * qps
  {
    MulMono(start, from, qps);
    MulMono(start, end, qps);
    Spread(end, from, start, qps);
  }

  /** Tokens never leave [0, burst], and no bucket is filled or used in the future. */
  lemma {:induction false} LevelsInRange(l: Limits, y: Sys, evs: seq<Event>, sweeping: bool, clock: real)
    requires l.qps > 0.0 && BucketsOk(l, y.buckets, clock) && Steady(clock, evs)
    ensures var m := After(l, y, evs, sweeping).buckets;
      forall id :: id in m ==> 0.0 <= m[id].tokens <= l.burst as real
    decreases |evs|
  {
    if evs == [] {
      assert forall id :: id in y.buckets ==> LevelOk(l, y.buckets[id], clock);
    } else {
      StepKeepsBuckets(l, y, evs[0], sweeping, clock);
      assert After(l, y, evs, sweeping) == After(l, Step(l, y, evs[0], sweeping).0, evs[1..], sweeping);
      LevelsInRange(l, Step(l, y, evs[0], sweeping).0, evs[1..], sweeping, Tick(clock, evs[0]));
    }
  }

  // ---- connection slots ----

  /** Handles of `id` not yet released, among the first n. */
  function Live(hs: seq<Handle>, n: nat, id: string): nat
    requires n <= |hs|
  {
    if n == 0 then 0
    else Live(hs, n - 1, id) + if hs[n - 1].id == id && !hs[n - 1].released then 1 else 0
  }

  lemma {:induction false} LiveAdded(hs: seq<Handle>, h: Handle, n: nat, id: string)
    requires n <= |hs|
    ensures Live(hs + [h], n, id) == Live(hs, n, id)
  {
    if n > 0 { LiveAdded(hs, h, n - 1, id); }
  }

  lemma {:induction false} LiveReleased(hs: seq<Handle>, h: nat, n: nat, id: string)
    requires n <= |hs| && h < |hs| && !hs[h].released
    ensures Live(hs[h := Handle(hs[h].id, true)], n, id)
         == Live(hs, n, id) - if h < n && hs[h].id == id then 1 else 0
    ensures h < n && hs[h].id == id ==> Live(hs, n, id) > 0
  {
    if n > 0 { LiveReleased(hs, h, n - 1, id); }
  }

  /** The slot count of a tenant is its number of unreleased handles, within the
      limit; so a live handle always finds its bucket, with a slot to give back. */
  predicate SlotsOk(l: Limits, y: Sys, id: string) {
    && Conns(y.buckets, id) == Live(y.handles, |y.handles|, id)
    && (Conns(y.buckets, id) <= l.maxConns || Conns(y.buckets, id) == 0)
  }

  lemma StepKeepsSlots(l: Limits, y: Sys, e: Event, sweeping: bool, id: string)
    requires SlotsOk(l, y, id)
    ensures SlotsOk(l, Step(l, y, e, sweeping).0, id)
  {
    match e
    case Query(_, _) =>
    case Dial(k, now) => LiveAdded(y.handles, Handle(k, false), |y.handles|, id);
    case Hangup(h) =>
      if h < |y.handles| && !y.handles[h].released { LiveReleased(y.handles, h, |y.handles|, id); }
    case Swept(_) =>
  }

  ghost predicate AllSlotsOk(l: Limits, y: Sys) { forall id :: SlotsOk(l, y, id) }

  lemma StepKeepsAllSlots(l: Limits, y: Sys, e: Event, sweeping: bool)
    requires AllSlotsOk(l, y)
    ensures AllSlotsOk(l, Step(l, y, e, sweeping).0)
  {
    forall id ensures SlotsOk(l, Step(l, y, e, sweeping).0, id) { StepKeepsSlots(l, y, e, sweeping, id); }
  }

  /** A live handle's bucket holds a slot, so no sweep ever takes it. */
  lemma LiveNeverSwept(l: Limits, y: Sys, now: real)
    requires AllSlotsOk(l, y)
    ensures forall h :: 0 <= h < |y.handles| && !y.handles[h].released ==>
      Conns(y.buckets, y.handles[h].id) > 0 && y.handles[h].id in SweepIn(y.buckets, now)
  {
    forall h | 0 <= h < |y.handles| && !y.handles[h].released
      ensures Conns(y.buckets, y.handles[h].id) > 0
    {
      assert SlotsOk(l, y, y.handles[h].id);
      LiveReleased(y.handles, h, |y.handles|, y.handles[h].id);
    }
  }

  lemma {:induction false} SlotsAlwaysOk(l: Limits, y: Sys, evs: seq<Event>, sweeping: bool, id: string)
    requires SlotsOk(l, y, id)
    ensures SlotsOk(l, After(l, y, evs, sweeping), id)
    decreases |evs|
  {
    if evs != [] {
      StepKeepsSlots(l, y, evs[0], sweeping, id);
      SlotsAlwaysOk(l, Step(l, y, evs[0], sweeping).0, evs[1..], sweeping, id);
    }
  }

  /** In every run the first release of a handle finds its bucket in the map and
      the `conns > 0` guard open; it frees exactly one slot of its own tenant. */
  lemma FirstReleaseFreesOne(l: Limits, evs: seq<Event>, h: nat, sweeping: bool)
    requires h < |After(l, START, evs, sweeping).handles| && !After(l, START, evs, sweeping).handles[h].released
    ensures var y := After(l, START, evs, sweeping);
      var id := y.handles[h].id;
      && id in y.buckets && y.buckets[id].conns > 0
      && forall k :: Conns(ReleaseIn(y, h).buckets, k) == Conns(y.buckets, k) - if k == id then 1 else 0
  {
    var y := After(l, START, evs, sweeping);
    SlotsAlwaysOk(l, START, evs, sweeping, y.handles[h].id);
    LiveReleased(y.handles, h, |y.handles|, y.handles[h].id);
  }

  // ---- a tenant by itself ----

  /** A tenant's own handles, in their order. */
  function Mine(hs: seq<Handle>, id: string): seq<Handle> {
    if hs == [] then []
    else
      var rest, h := Mine(hs[..|hs| - 1], id), hs[|hs| - 1];
      if h.id == id then rest + [h] else rest
  }

  /** A handle's number among those of its tenant. */
  function Rank(hs: seq<Handle>, h: nat): nat
    requires h < |hs|
  {
    |Mine(hs[..h], hs[h].id)|
  }

  lemma {:induction false} MineReleased(hs: seq<Handle>, h: nat, id: string)
    requires h < |hs|
    ensures var released := hs[h := Handle(hs[h].id, true)];
      if hs[h].id == id then
        && Rank(hs, h) < |Mine(hs, id)| && Mine(hs, id)[Rank(hs, h)] == hs[h]
        && Mine(released, id) == Mine(hs, id)[Rank(hs, h) := Handle(id, true)]
      else Mine(released, id) == Mine(hs, id)
  {
    var n, released := |hs| - 1, hs[h := Handle(hs[h].id, true)];
    if h < n {
      MineReleased(hs[..n], h, id);
      assert released[..n] == hs[..n][h := Handle(hs[h].id, true)] && hs[..n][..h] == hs[..h];
    } else {
      assert released[..n] == hs[..n];
    }
  }

  lemma MineAdded(hs: seq<Handle>, h: Handle, id: string)
    ensures Mine(hs + [h], id) == if h.id == id then Mine(hs, id) + [h] else Mine(hs, id)
  {
    assert (hs + [h])[..|hs|] == hs;
  }

  /** What an event is to a tenant by itself: its own queries, connections and
      releases, with its handles renumbered, and every sweep. */
  function Own(y: Sys, e: Event, id: string): seq<Event> {
    match e
    case Query(k, _) => if k == id then [e] else []
    case Dial(k, _) => if k == id then [e] else []
    case Hangup(h) => if h < |y.handles| && y.handles[h].id == id then [Hangup(Rank(y.handles, h))] else []
    case Swept(_) => [e]
  }

  function OwnEvents(l: Limits, y: Sys, evs: seq<Event>, id: string, sweeping: bool): seq<Event>
    decreases |evs|
  {
    if evs == [] then []
    else Own(y, evs[0], id) + OwnEvents(l, Step(l, y, evs[0], sweeping).0, evs[1..], id, sweeping)
  }

  /** The answers that a run gives to those events. */
  function OwnAnswers(l: Limits, y: Sys, evs: seq<Event>, id: string, sweeping: bool): seq<bool>
    decreases |evs|
  {
    if evs == [] then []
    else
      var (z, ok) := Step(l, y, evs[0], sweeping);
      (if Own(y, evs[0], id) == [] then [] else [ok]) + OwnAnswers(l, z, evs[1..], id, sweeping)
  }

  /** The same bucket and the same handles, as far as the tenant goes. */
  ghost predicate AlikeFor(y: Sys, z: Sys, id: string) {
    && (id in y.buckets <==> id in z.buckets) && (id in y.buckets ==> y.buckets[id] == z.buckets[id])
    && z.handles == Mine(y.handles, id)
  }

  lemma OthersAside(l: Limits, y: Sys, z: Sys, e: Event, id: string, sweeping: bool)
    requires AlikeFor(y, z, id) && Own(y, e, id) == []
    ensures AlikeFor(Step(l, y, e, sweeping).0, z, id)
  {
    match e
    case Query(_, _) =>
    case Dial(k, _) => MineAdded(y.handles, Handle(k, false), id);
    case Hangup(h) => if h < |y.handles| { MineReleased(y.handles, h, id); }
  }

  lemma OwnAlike(l: Limits, y: Sys, z: Sys, e: Event, id: string, sweeping: bool)
    requires AlikeFor(y, z, id) && Own(y, e, id) != []
    ensures var (y', z') := (Step(l, y, e, sweeping), Step(l, z, Own(y, e, id)[0], sweeping));
      AlikeFor(y'.0, z'.0, id) && y'.1 == z'.1
  {
    match e
    case Query(_, _) =>
    case Dial(k, _) => MineAdded(y.handles, Handle(k, false), id);
    case Hangup(h) => MineReleased(y.handles, h, id);
    case Swept(_) =>
  }

  lemma {:induction false} AnsweredAlike(l: Limits, y: Sys, z: Sys, evs: seq<Event>, id: string, sweeping: bool)
    requires AlikeFor(y, z, id)
    ensures Answers(l, z, OwnEvents(l, y, evs, id, sweeping), sweeping) == OwnAnswers(l, y, evs, id, sweeping)
    decreases |evs|
  {
    if evs != [] {
      var own, y' := Own(y, evs[0], id), Step(l, y, evs[0], sweeping).0;
      var rest := OwnEvents(l, y', evs[1..], id, sweeping);
      if own == [] {
        OthersAside(l, y, z, evs[0], id, sweeping);
        AnsweredAlike(l, y', z, evs[1..], id, sweeping);
        assert own + rest == rest;
      } else {
        OwnAlike(l, y, z, evs[0], id, sweeping);
        AnsweredAlike(l, y', Step(l, z, own[0], sweeping).0, evs[1..], id, sweeping);
        assert (own + rest)[1..] == rest && (own + rest)[0] == own[0];
      }
    }
  }

  /** Tenants are isolated in every run, on whatever clock: every answer that
      Allow and AcquireConn give a tenant is the one they would give it with no
      other tenant there. */
  lemma AnsweredAlone(l: Limits, evs: seq<Event>, id: string, sweeping: bool)
    ensures Answers(l, START, OwnEvents(l, START, evs, id, sweeping), sweeping)
         == OwnAnswers(l, START, evs, id, sweeping)
  {
    AnsweredAlike(l, START, START, evs, id, sweeping);
  }

  // ---- the sweeper cannot be noticed ----

  /** The two limiters agree on every tenant's refilled tokens and slots. */
  ghost predicate Same(l: Limits, y: Sys, z: Sys, clock: real) {
    && y.handles == z.handles
    && BucketsOk(l, y.buckets, clock) && BucketsOk(l, z.buckets, clock)
    && forall id :: SlotsOk(l, y, id) && SlotsOk(l, z, id)
        && Tokens(l, y.buckets, id, clock) == Tokens(l, z.buckets, id, clock)
  }

  lemma StepKeepsSame(l: Limits, y: Sys, z: Sys, e: Event, clock: real)
    requires l.qps > 0.0 && FillsWhileIdle(l) && Same(l, y, z, clock) && clock <= Tick(clock, e)
    ensures Step(l, y, e, true).1 == Step(l, z, e, false).1
    ensures Same(l, Step(l, y, e, true).0, Step(l, z, e, false).0, Tick(clock, e))
  {
    var y', z' := Step(l, y, e, true).0, Step(l, z, e, false).0;
    var next := Tick(clock, e);
    StepKeepsBuckets(l, y, e, true, clock);
    StepKeepsBuckets(l, z, e, false, clock);
    if e.Query? {
      AllowExact(l, y.buckets, e.id, clock, next);
      AllowExact(l, z.buckets, e.id, clock, next);
      TokensLater(l, y.buckets, e.id, clock, next);
      TokensLater(l, z.buckets, e.id, clock, next);
    }
    if e.Dial? { assert SlotsOk(l, y, e.id) && SlotsOk(l, z, e.id); }
    assert y'.handles == z'.handles;
    forall id
      ensures SlotsOk(l, y', id) && SlotsOk(l, z', id)
      ensures Tokens(l, y'.buckets, id, next) == Tokens(l, z'.buckets, id, next)
    {
      StepKeepsSlots(l, y, e, true, id);
      StepKeepsSlots(l, z, e, false, id);
      TokensLater(l, y.buckets, id, clock, next);
      TokensLater(l, z.buckets, id, clock, next);
      if !e.Query? || e.id != id {
        OthersKeepTokens(l, y, e, true, id, clock, next);
        OthersKeepTokens(l, z, e, false, id, clock, next);
      }
    }
  }

  lemma {:induction false} SameAnswers(l: Limits, y: Sys, z: Sys, evs: seq<Event>, clock: real)
    requires l.qps > 0.0 && FillsWhileIdle(l) && Same(l, y, z, clock) && Steady(clock, evs)
    ensures Answers(l, y, evs, true) == Answers(l, z, evs, false)
    decreases |evs|
  {
    if evs != [] {
      StepKeepsSame(l, y, z, evs[0], clock);
      SameAnswers(l, Step(l, y, evs[0], true).0, Step(l, z, evs[0], false).0, evs[1..], Tick(clock, evs[0]));
    }
  }

  // ---- and when it can ----

  function Repeat(e: Event, n: nat): seq<Event> {
    if n == 0 then [] else [e] + Repeat(e, n - 1)
  }

  lemma {:induction false} AnswersConcat(l: Limits, y: Sys, a: seq<Event>, b: seq<Event>, sweeping: bool)
    ensures Answers(l, y, a + b, sweeping)
         == Answers(l, y, a, sweeping) + Answers(l, After(l, y, a, sweeping), b, sweeping)
    decreases |a|
  {
    if a == [] { assert a + b == b; }
    else {
      assert (a + b)[1..] == a[1..] + b;
      AnswersConcat(l, Step(l, y, a[0], sweeping).0, a[1..], b, sweeping);
    }
  }

  lemma {:induction false} GrantedConcat(a: seq<Event>, b: seq<Event>, p: seq<bool>, q: seq<bool>,
                                         id: string, t1: real, t2: real)
    requires |a| == |p| && |b| == |q|
    ensures Granted(a + b, p + q, id, t1, t2) == Granted(a, p, id, t1, t2) + Granted(b, q, id, t1, t2)
  {
    if a == [] { assert a + b == b && p + q == q; }
    else {
      assert (a + b)[1..] == a[1..] + b && (p + q)[1..] == p[1..] + q;
      GrantedConcat(a[1..], b, p[1..], q, id, t1, t2);
    }
  }

  lemma {:induction false} SteadyConcat(clock: real, t: real, n: nat, id: string, rest: seq<Event>)
    requires clock <= t && Steady(t, rest) && (n == 0 ==> clock == t)
    ensures Steady(clock, Repeat(Query(id, t), n) + rest)
    decreases n
  {
    var a := Repeat(Query(id, t), n);
    if n == 0 { assert a + rest == rest; }
    else {
      assert (a + rest)[1..] == Repeat(Query(id, t), n - 1) + rest;
      SteadyConcat(t, t, n - 1, id, rest);
    }
  }

  /** A tenant that finds n tokens is granted n queries at once. */
  lemma {:induction false} Drain(l: Limits, y: Sys, id: string, clock: real, t: real, n: nat, t1: real, t2: real)
    requires l.qps > 0.0 && BucketsOk(l, y.buckets, clock) && clock <= t && t1 <= t <= t2
    requires Tokens(l, y.buckets, id, t) >= n as real && Conns(y.buckets, id) == 0
    ensures var evs := Repeat(Query(id, t), n);
      var z := After(l, y, evs, true);
      && |evs| == n && Granted(evs, Answers(l, y, evs, true), id, t1, t2) == n
      && Conns(z.buckets, id) == 0
      && (n > 0 ==> id in z.buckets && z.buckets[id].lastUsed == t && BucketsOk(l, z.buckets, t))
    decreases n
  {
    if n > 0 {
      var e := Query(id, t);
      var evs := Repeat(e, n);
      AllowExact(l, y.buckets, id, clock, t);
      var z := Step(l, y, e, true).0;
      Drain(l, z, id, t, t, n - 1, t1, t2);
      assert evs[1..] == Repeat(e, n - 1);
      GrantedHead(l, y, evs, true, id, t1, t2);
    }
  }

  /** The run that shows a burst which idling does not refill: spend it, be
      swept, and find it whole again. */
  function SpendTwice(l: Limits, id: string, t: real): seq<Event> {
    Repeat(Query(id, 0.0), l.burst) + ([Swept(t)] + Repeat(Query(id, t), l.burst))
  }

  lemma SpentTwice(l: Limits, id: string, t: real)
    requires l.qps > 0.0 && l.burst > 0 && t > IDLE_TTL
    ensures var evs := SpendTwice(l, id, t);
      Steady(0.0, evs) && Granted(evs, Answers(l, START, evs, true), id, 0.0, t) == 2 * l.burst
  {
    var a, b := Repeat(Query(id, 0.0), l.burst), Repeat(Query(id, t), l.burst);
    var sweep := [Swept(t)];
    assert b + [] == b && Steady(t, []);
    SteadyConcat(t, t, l.burst, id, []);
    assert (sweep + b)[1..] == b;
    SteadyConcat(0.0, 0.0, l.burst, id, sweep + b);

    Drain(l, START, id, 0.0, 0.0, l.burst, 0.0, t);
    var y := After(l, START, a, true);
    var z := After(l, y, sweep, true);
    assert sweep[1..] == [];
    assert After(l, Step(l, y, sweep[0], true).0, sweep[1..], true) == Step(l, y, sweep[0], true).0;
    assert id !in z.buckets;
    StepKeepsBuckets(l, y, sweep[0], true, 0.0);
    Drain(l, z, id, t, t, l.burst, 0.0, t);

    AnswersConcat(l, START, a, sweep + b, true);
    AnswersConcat(l, y, sweep, b, true);
    GrantedConcat(a, sweep + b, Answers(l, START, a, true), Answers(l, y, sweep + b, true), id, 0.0, t);
    GrantedConcat(sweep, b, Answers(l, y, sweep, true), Answers(l, z, b, true), id, 0.0, t);
    assert Granted(sweep, Answers(l, y, sweep, true), id, 0.0, t) == 0;
  }

  ghost predicate SweepUnseen(l: Limits) {
    forall evs :: Steady(0.0, evs) ==> Answers(l, START, evs, true) == Answers(l, START, evs, false)
  }

  ghost predicate AlwaysBounded(l: Limits) {
    forall evs, id, t1, t2 :: Steady(0.0, evs) && t1 <= t2 ==>
      Granted(evs, Answers(l, START, evs, true), id, t1, t2) as real <= l.burst as real + (t2 - t1) * l.qps
  }

  /** A moment after the idle limit at which the spent burst is not yet back. */
  lemma Overspent(l: Limits) returns (t: real)
    requires l.qps > 0.0 && !FillsWhileIdle(l)
    ensures l.burst > 0 && t > IDLE_TTL && t * l.qps < l.burst as real
  {
    MulMono(0.0, IDLE_TTL, l.qps);
    var full := l.burst as real / l.qps;
    assert full * l.qps == l.burst as real;
    if full <= IDLE_TTL { MulMono(full, IDLE_TTL, l.qps); }
    t := (IDLE_TTL + full) / 2.0;
    assert t < full;
    MulMono(t, full, l.qps);
    assert (full - t) * l.qps > 0.0;
  }

  /** The sweeper is unobservable - no Allow or AcquireConn answer in any run
      depends on it - exactly when an idle bucket has time to fill. */
  lemma SweepUnseenIff(l: Limits)
    requires l.qps > 0.0
    ensures SweepUnseen(l) <==> FillsWhileIdle(l)
  {
    if FillsWhileIdle(l) {
      forall evs | Steady(0.0, evs) ensures Answers(l, START, evs, true) == Answers(l, START, evs, false) {
        SameAnswers(l, START, START, evs, 0.0);
      }
    } else {
      var t := Overspent(l);
      var evs := SpendTwice(l, "t", t);
      SpentTwice(l, "t", t);
      WindowBound(l, START, evs, false, 0.0, "t", 0.0, t);
      assert Answers(l, START, evs, true) != Answers(l, START, evs, false);
    }
  }

  /** And so is the rate bound: it holds of every run, tenant and window exactly
      under the same condition. */
  lemma AlwaysBoundedIff(l: Limits)
    requires l.qps > 0.0
    ensures AlwaysBounded(l) <==> FillsWhileIdle(l)
  {
    if FillsWhileIdle(l) {
      forall evs, id, t1, t2 | Steady(0.0, evs) && t1 <= t2
        ensures Granted(evs, Answers(l, START, evs, true), id, t1, t2) as real <= l.burst as real + (t2 - t1) * l.qps
      {
        GrantsBounded(l, evs, id, t1, t2);
      }
    } else {
      var t := Overspent(l);
      SpentTwice(l, "t", t);
    }
  }
}
