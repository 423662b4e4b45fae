/** Reloads that overlap each other and the commits they read: when a change,
    once committed, is in force for good. */
module Freshness {
  import opened GoStrings
  import opened Policy
  import opened Reload

  datatype Db = Db(tenants: seq<TenantRow>, ips: seq<IPRow>, allow: seq<AllowRow>, over: seq<OverrideRow>)

  const TABLES: nat := 4

  /** Every database state so far; the reloads under way, each with the position
      in that history of the reads it has made; and those of the one whose
      snapshot is in place. */
  datatype Sys = Sys(hist: seq<Db>, live: seq<Option<seq<nat>>>, at: seq<nat>)

  datatype Event = Committed(db: Db) | Begun | ReadNext(r: nat) | Stored(r: nat) | Failed(r: nat)

  /** OpenStore has loaded the first state. */
  function Opened(db: Db): Sys { Sys([db], [], Same(0)) }

  predicate Live(y: Sys, r: nat) { r < |y.live| && y.live[r].Some? }

  /** Tables are read in turn, each by a SELECT of its own; a snapshot is stored
      only when all four have been. What cannot happen changes nothing. */
  function Step(y: Sys, e: Event): Sys {
    match e
    case Committed(db) => y.(hist := y.hist + [db])
    case Begun => y.(live := y.live + [Some([])])
    case ReadNext(r) =>
      if Live(y, r) && |y.live[r].value| < TABLES
      then y.(live := y.live[r := Some(y.live[r].value + [if y.hist == [] then 0 else |y.hist| - 1])]) else y
    case Stored(r) =>
      if Live(y, r) && |y.live[r].value| == TABLES then y.(at := y.live[r].value, live := y.live[r := None]) else y
    case Failed(r) => if Live(y, r) then y.(live := y.live[r := None]) else y
  }

  function After(y: Sys, evs: seq<Event>): Sys
    decreases |evs|
  {
    if evs == [] then y else After(Step(y, evs[0]), evs[1..])
  }

  ghost predicate Past(at: seq<nat>, n: nat) { forall t :: 0 <= t < |at| ==> at[t] < n }

  ghost predicate Ok(y: Sys) {
    && |y.at| == TABLES && Past(y.at, |y.hist|)
    && forall r :: 0 <= r < |y.live| && y.live[r].Some? ==>
         |y.live[r].value| <= TABLES && Past(y.live[r].value, |y.hist|)
  }

  /** The snapshot served: each table as it was when that reload read it. */
  function Serving(y: Sys): Snapshot
    requires |y.at| == TABLES && Past(y.at, |y.hist|)
  {
    Built(y.hist[y.at[0]].tenants, y.hist[y.at[1]].ips, y.hist[y.at[2]].allow, y.hist[y.at[3]].over)
  }

  lemma StepKeepsOk(y: Sys, e: Event)
    requires Ok(y)
    ensures Ok(Step(y, e)) && y.hist <= Step(y, e).hist
  {
    var z := Step(y, e);
    assert y.at[0] < |y.hist|;
    forall r | 0 <= r < |z.live| && z.live[r].Some?
      ensures |z.live[r].value| <= TABLES && Past(z.live[r].value, |z.hist|)
    {
      if r < |y.live| && y.live[r].Some? { assert Past(y.live[r].value, |y.hist|); }
    }
  }

  /** Table `t` is served as of commit `c` or later. */
  predicate Fresh(y: Sys, t: nat, c: nat)
    requires t < |y.at|
  {
    y.at[t] >= c
  }

  /** A reload under way has read table `t` before commit `c`. */
  ghost predicate Stale(y: Sys, t: nat, c: nat) {
    exists r :: 0 <= r < |y.live| && y.live[r].Some? && t < |y.live[r].value| && y.live[r].value[t] < c
  }

  ghost predicate FreshForEver(y: Sys, t: nat, c: nat)
    requires Ok(y) && t < TABLES
  {
    forall evs: seq<Event> :: |After(y, evs).at| == TABLES && Fresh(After(y, evs), t, c)
  }

  lemma {:induction false} StaysFresh(y: Sys, evs: seq<Event>, t: nat, c: nat)
    requires Ok(y) && t < TABLES && c < |y.hist| && Fresh(y, t, c) && !Stale(y, t, c)
    ensures Ok(After(y, evs)) && Fresh(After(y, evs), t, c) && y.hist <= After(y, evs).hist
    decreases |evs|
  {
    if evs != [] {
      var z := Step(y, evs[0]);
      StepKeepsOk(y, evs[0]);
      forall r | 0 <= r < |z.live| && z.live[r].Some? && t < |z.live[r].value| ensures z.live[r].value[t] >= c {
        if r < |y.live| && y.live[r].Some? && t < |y.live[r].value| { assert z.live[r].value[t] == y.live[r].value[t]; }
      }
      StaysFresh(z, evs[1..], t, c);
    }
  }

  /** A reload under way can always go on to be the one that stores last. */
  lemma {:induction false} CanStore(y: Sys, r: nat, t: nat) returns (evs: seq<Event>)
    requires Ok(y) && Live(y, r) && t < |y.live[r].value|
    ensures |After(y, evs).at| == TABLES && After(y, evs).at[t] == y.live[r].value[t]
    decreases TABLES - |y.live[r].value|
  {
    if |y.live[r].value| == TABLES {
      evs := [Stored(r)];
      assert After(Step(y, evs[0]), []) == Step(y, evs[0]);
    } else {
      StepKeepsOk(y, ReadNext(r));
      var rest := CanStore(Step(y, ReadNext(r)), r, t);
      evs := [ReadNext(r)] + rest;
    }
  }

  /** A committed change to a table is in force for good exactly when the
      snapshot in place has it and no reload under way has missed it. */
  lemma FreshForEverIff(y: Sys, t: nat, c: nat)
    requires Ok(y) && t < TABLES && c < |y.hist|
    ensures FreshForEver(y, t, c) <==> Fresh(y, t, c) && !Stale(y, t, c)
  {
    if Fresh(y, t, c) && !Stale(y, t, c) {
      forall evs: seq<Event> ensures |After(y, evs).at| == TABLES && Fresh(After(y, evs), t, c) {
        StaysFresh(y, evs, t, c);
      }
    }
    if !Fresh(y, t, c) {
      assert !Fresh(After(y, []), t, c);
    }
    if Stale(y, t, c) {
      var r :| 0 <= r < |y.live| && y.live[r].Some? && t < |y.live[r].value| && y.live[r].value[t] < c;
      var evs := CanStore(y, r, t);
      assert !Fresh(After(y, evs), t, c);
    }
  }

  /** So the change is settled by any store that has it, made when no reload that
      missed it is left. */
  lemma StoreSettles(y: Sys, r: nat, t: nat, c: nat)
    requires Ok(y) && t < TABLES && c < |y.hist| && Live(y, r) && |y.live[r].value| == TABLES
    requires !Stale(y, t, c)
    ensures Ok(Step(y, Stored(r))) && FreshForEver(Step(y, Stored(r)), t, c)
  {
    StepKeepsOk(y, Stored(r));
    FreshForEverIff(Step(y, Stored(r)), t, c);
  }

  /** Every lookup from then on is answered from that commit or a later one. */
  lemma LookupsReflect(y: Sys, c: nat, evs: seq<Event>) returns (j: seq<nat>)
    requires Ok(y) && c < |y.hist| && forall t :: 0 <= t < TABLES ==> Fresh(y, t, c) && !Stale(y, t, c)
    ensures var z := After(y, evs);
      && Ok(z) && |j| == TABLES && (forall t :: 0 <= t < TABLES ==> c <= j[t] < |z.hist|) && y.hist <= z.hist
      && Serving(z) == Built(z.hist[j[0]].tenants, z.hist[j[1]].ips, z.hist[j[2]].allow, z.hist[j[3]].over)
  {
    StaysFresh(y, evs, 0, c);
    StaysFresh(y, evs, 1, c);
    StaysFresh(y, evs, 2, c);
    StaysFresh(y, evs, 3, c);
    j := After(y, evs).at;
  }

  /** A reload begins and makes `k` reads, with nothing in between. */
  function Reads(r: nat, k: nat): seq<Event> {
    if k == 0 then [Begun] else Reads(r, k - 1) + [ReadNext(r)]
  }

  function Same(n: nat): (s: seq<nat>)
    ensures |s| == TABLES && forall i :: 0 <= i < TABLES ==> s[i] == n
  {
    seq(TABLES, _ => n)
  }

  /** That all have finished is not enough: a reload that read before the commit
      and stores after the one that has it takes the change back. */
  lemma FinishedIsNotEnough(before: Db, change: Db)
    ensures var evs := Reads(0, TABLES) + [Committed(change)] + Reads(1, TABLES) + [Stored(1)] + [Stored(0)];
      var y := After(Opened(before), evs);
      y.live == [None, None] && y.hist == [before, change] && y.at == Same(0)
  {
    var y0 := Opened(before);
    var old1, new1 := Same(0), Same(1);
    var y1 := Sys([before], [Some(old1)], old1);
    var y2 := Sys([before, change], [Some(old1)], old1);
    var y3 := Sys([before, change], [Some(old1), Some(new1)], old1);
    var y4 := Sys([before, change], [Some(old1), None], new1);
    var so := ReadsSome(y0, TABLES);
    assert so == old1;
    assert After(y0, Reads(0, TABLES)) == y1;
    Then(y0, Reads(0, TABLES), Committed(change));
    assert Step(y1, Committed(change)) == y2;
    so := ReadsSome(y2, TABLES);
    assert so == new1;
    Joined(y0, Reads(0, TABLES) + [Committed(change)], Reads(1, TABLES));
    assert y2.(live := y2.live + [Some(new1)]) == y3;
    Then(y0, Reads(0, TABLES) + [Committed(change)] + Reads(1, TABLES), Stored(1));
    assert Step(y3, Stored(1)) == y4;
    Then(y0, Reads(0, TABLES) + [Committed(change)] + Reads(1, TABLES) + [Stored(1)], Stored(0));
  }

  lemma Then(y: Sys, evs: seq<Event>, e: Event)
    ensures After(y, evs + [e]) == Step(After(y, evs), e)
  {
    Joined(y, evs, [e]);
    assert After(Step(After(y, evs), e), []) == Step(After(y, evs), e);
  }

  lemma {:induction false} ReadsSome(y: Sys, k: nat) returns (so: seq<nat>)
    requires y.hist != [] && k <= TABLES
    ensures After(y, Reads(|y.live|, k)) == y.(live := y.live + [Some(so)])
    ensures |so| == k && forall i :: 0 <= i < k ==> so[i] == |y.hist| - 1
  {
    var r := |y.live|;
    so := [];
    if k == 0 {
      Then(y, [], Begun);
      assert [] + [Begun] == [Begun];
    } else {
      so := ReadsSome(y, k - 1);
      Then(y, Reads(r, k - 1), ReadNext(r));
      so := so + [|y.hist| - 1];
    }
  }

  lemma {:induction false} Joined(y: Sys, a: seq<Event>, b: seq<Event>)
    ensures After(y, a + b) == After(After(y, a), b)
    decreases |a|
  {
    if a == [] {
      assert a + b == b;
    } else {
      assert (a + b)[1..] == a[1..] + b;
      Joined(Step(y, a[0]), a[1..], b);
    }
  }

  // ---- one reload at a time ----

  ghost predicate Idle(y: Sys) { forall r :: 0 <= r < |y.live| ==> y.live[r].None? }

  /** No reload begins while another is under way. */
  ghost predicate Serial(y: Sys, evs: seq<Event>)
    decreases |evs|
  {
    evs == [] || ((evs[0].Begun? ==> Idle(y)) && Serial(Step(y, evs[0]), evs[1..]))
  }

  /** At most one reload is under way, and it has read nothing older than what is
      served. */
  ghost predicate Ahead(y: Sys) {
    && (forall r, s :: 0 <= r < s < |y.live| ==> y.live[r].None? || y.live[s].None?)
    && forall r, t :: 0 <= r < |y.live| && y.live[r].Some? && 0 <= t < |y.live[r].value| && t < |y.at| ==>
         y.live[r].value[t] >= y.at[t]
  }

  lemma StepStaysAhead(y: Sys, e: Event)
    requires Ok(y) && Ahead(y) && (e.Begun? ==> Idle(y))
    ensures Ahead(Step(y, e)) && forall t :: 0 <= t < TABLES ==> Step(y, e).at[t] >= y.at[t]
  {}

  /** Then what is served never goes back, in any table. */
  lemma {:induction false} SerialNeverGoesBack(y: Sys, evs: seq<Event>)
    requires Ok(y) && Ahead(y) && Serial(y, evs)
    ensures Ok(After(y, evs)) && forall t :: 0 <= t < TABLES ==> After(y, evs).at[t] >= y.at[t]
    decreases |evs|
  {
    if evs != [] {
      StepKeepsOk(y, evs[0]);
      StepStaysAhead(y, evs[0]);
      SerialNeverGoesBack(Step(y, evs[0]), evs[1..]);
    }
  }
}
