/** resolver/usage.go and RecordUsage of resolver/store.go: per-tenant counters
    are taken under a lock, written outside it, and put back on failure. */
module Usage {
  import opened GoStrings

  /** UsageDelta, and a row of the tenant_usage table. */
  datatype Delta = Delta(queries: nat, blocked: nat, overridden: nat, throttled: nat, lastSeen: nat)

  type Batch = map<string, Delta>

  const ZERO := Delta(0, 0, 0, 0, 0)

  function Max(a: nat, b: nat): nat { if a < b then b else a }

  function At(m: Batch, id: string): Delta {
    if id in m then m[id] else ZERO
  }

  function Merge(p: Delta, d: Delta): Delta {
    Delta(p.queries + d.queries, p.blocked + d.blocked, p.overridden + d.overridden,
          p.throttled + d.throttled, Max(p.lastSeen, d.lastSeen))
  }

  function MergeAll(m: Batch, d: Batch): Batch {
    map id | id in m.Keys + d.Keys :: if id in d then Merge(At(m, id), d[id]) else m[id]
  }

  /** One query's outcome, as the arguments of Record. */
  datatype Sample = Sample(routeID: string, blocked: bool, overridden: bool, throttled: bool, now: nat)

  function One(b: bool): nat { if b then 1 else 0 }

  function Count(d: Delta, s: Sample): Delta {
    Delta(d.queries + 1, d.blocked + One(s.blocked), d.overridden + One(s.overridden),
          d.throttled + One(s.throttled), s.now)
  }

  function RecordIn(pending: Batch, s: Sample): Batch {
    if s.routeID == "" then pending else pending[s.routeID := Count(At(pending, s.routeID), s)]
  }

  /** The part of a batch already dealt with. */
  function Dealt(counts: Batch, todo: set<string>): Batch { map id | id in counts && id !in todo :: counts[id] }

  lemma DealtOneMore(rows: Batch, counts: Batch, todo: set<string>, id: string)
    requires id in todo && id in counts
    ensures At(MergeAll(rows, Dealt(counts, todo)), id) == At(rows, id)
    ensures MergeAll(rows, Dealt(counts, todo))[id := Merge(At(rows, id), counts[id])]
         == MergeAll(rows, Dealt(counts, todo - {id}))
  {
    assert Dealt(counts, todo - {id}) == Dealt(counts, todo)[id := counts[id]];
  }

  lemma AllDealt(counts: Batch)
    ensures Dealt(counts, counts.Keys) == map[] && Dealt(counts, {}) == counts
    ensures forall rows :: MergeAll(rows, map[]) == rows
  {}

  // ---- the code ----

  /** What the database answers to the statements of one RecordUsage call. */
  datatype Faults = Faults(beginOk: bool, prepareOk: bool, failing: set<string>, commitOk: bool)

  class UsageTable {
    var rows: Batch

    constructor ()
      ensures rows == map[]
    { rows := map[]; }

    /** One transaction of upserts: all of the batch, or nothing. */
    method RecordUsage(counts: Batch, f: Faults) returns (ok: bool)
      modifies this
      ensures ok <==> counts == map[] || (f.beginOk && f.prepareOk && f.commitOk && counts.Keys !! f.failing)
      ensures rows == if ok then MergeAll(old(rows), counts) else old(rows)
    {
      AllDealt(counts);
      if |counts| == 0 {
        assert counts == map[] && MergeAll(rows, counts) == rows;
        return true;
      }
      if !f.beginOk || !f.prepareOk { return false; }
      var tx := rows;
      var todo := counts.Keys;
      while todo != {}
        invariant todo <= counts.Keys && (counts.Keys - todo) !! f.failing
        invariant rows == old(rows) && tx == MergeAll(rows, Dealt(counts, todo))
      {
        var rid :| rid in todo;
        if rid in f.failing { return false; }
        DealtOneMore(rows, counts, todo, rid);
        tx := tx[rid := Merge(At(tx, rid), counts[rid])];
        todo := todo - {rid};
      }
      if !f.commitOk { return false; }
      rows := tx;
      return true;
    }
  }

  class UsageCollector {
    var pending: Batch

    constructor ()
      ensures pending == map[]
    { pending := map[]; }

    method Record(s: Sample)
      modifies this
      ensures pending == RecordIn(old(pending), s)
    {
      if s.routeID == "" { return; }
      var d := if s.routeID in pending then pending[s.routeID] else ZERO;
      d := d.(queries := d.queries + 1);
      if s.blocked { d := d.(blocked := d.blocked + 1); }
      if s.overridden { d := d.(overridden := d.overridden + 1); }
      if s.throttled { d := d.(throttled := d.throttled + 1); }
      d := d.(lastSeen := s.now);
      pending := pending[s.routeID := d];
    }

    /** The first critical section of Flush; None when there is nothing to do. */
    method Take() returns (batch: Option<Batch>)
      modifies this
      ensures batch == if old(pending) == map[] then None else Some(old(pending))
      ensures pending == map[]
    {
      if |pending| == 0 { assert pending == map[]; return None; }
      batch := Some(pending);
      pending := map[];
    }

    /** The second one, entered only when the write failed. */
    method PutBack(batch: Batch)
      modifies this
      ensures pending == MergeAll(old(pending), batch)
    {
      var todo := batch.Keys;
      AllDealt(batch);
      while todo != {}
        invariant todo <= batch.Keys
        invariant pending == MergeAll(old(pending), Dealt(batch, todo))
      {
        var id :| id in todo;
        DealtOneMore(old(pending), batch, todo, id);
        var d := batch[id];
        var p := if id in pending then pending[id] else ZERO;
        p := p.(queries := p.queries + d.queries, blocked := p.blocked + d.blocked,
                overridden := p.overridden + d.overridden, throttled := p.throttled + d.throttled);
        if d.lastSeen > p.lastSeen { p := p.(lastSeen := d.lastSeen); }
        pending := pending[id := p];
        todo := todo - {id};
      }
    }

    /** Flush with nothing else running: the batch moves to the table whole, or
        everything is as it was. */
    method Flush(table: UsageTable, f: Faults) returns (ok: bool)
      modifies this, table
      ensures ok ==> pending == map[] && table.rows == MergeAll(old(table.rows), old(pending))
      ensures !ok ==> pending == old(pending) && table.rows == old(table.rows)
    {
      assert forall m: Batch :: MergeAll(m, map[]) == m;
      var batch := Take();
      if batch == None { return true; }
      ok := table.RecordUsage(batch.value, f);
      if !ok {
        PutBack(batch.value);
        assert pending == old(pending);
      }
    }
  }

  // ---- every interleaving ----

  /** The collector, the table, and one slot per Flush that took a batch; a slot
      empties when its write has committed or its batch has been put back. */
  datatype Sys = Sys(pending: Batch, stored: Batch, flights: seq<Option<Batch>>)

  datatype Event =
    | Recorded(s: Sample)
    | Taken
    | Committed(flight: nat)
    | Restored(flight: nat)

  const START := Sys(map[], map[], [])

  predicate Possible(y: Sys, e: Event) {
    match e
    case Recorded(_) => true
    case Taken => true
    case Committed(i) => i < |y.flights| && y.flights[i].Some?
    case Restored(i) => i < |y.flights| && y.flights[i].Some?
  }

  /** One atomic step. An event that cannot happen changes nothing. */
  function Step(y: Sys, e: Event): Sys {
    if !Possible(y, e) then y else
    match e
    case Recorded(s) => y.(pending := RecordIn(y.pending, s))
    case Taken =>
      if y.pending == map[] then y
      else y.(pending := map[], flights := y.flights + [Some(y.pending)])
    case Committed(i) =>
      y.(stored := MergeAll(y.stored, y.flights[i].value), flights := y.flights[i := None])
    case Restored(i) =>
      y.(pending := MergeAll(y.pending, y.flights[i].value), flights := y.flights[i := None])
  }

  function After(evs: seq<Event>): Sys {
    if evs == [] then START else Step(After(evs[..|evs| - 1]), evs[|evs| - 1])
  }

  /** The counters of a delta, by name. */
  datatype Counter = Queries | Blocked | Overridden | Throttled

  function Get(d: Delta, c: Counter): nat {
    match c
    case Queries => d.queries
    case Blocked => d.blocked
    case Overridden => d.overridden
    case Throttled => d.throttled
  }

  function Of(m: Batch, id: string, c: Counter): nat {
    if id in m then Get(m[id], c) else 0
  }

  function Last(m: Batch, id: string): nat {
    if id in m then m[id].lastSeen else 0
  }

  /** A tenant's share of the first `n` flights. */
  function InFlight(flights: seq<Option<Batch>>, n: nat, id: string, c: Counter): nat
    requires n <= |flights|
  {
    if n == 0 then 0
    else InFlight(flights, n - 1, id, c) + if flights[n - 1].Some? then Of(flights[n - 1].value, id, c) else 0
  }

  function LastInFlight(flights: seq<Option<Batch>>, n: nat, id: string): nat
    requires n <= |flights|
  {
    if n == 0 then 0
    else Max(LastInFlight(flights, n - 1, id), if flights[n - 1].Some? then Last(flights[n - 1].value, id) else 0)
  }

  /** All the system still knows of a tenant, wherever it is kept. */
  function Total(y: Sys, id: string, c: Counter): nat {
    Of(y.stored, id, c) + InFlight(y.flights, |y.flights|, id, c) + Of(y.pending, id, c)
  }

  function TotalLast(y: Sys, id: string): nat {
    Max(Last(y.stored, id), Max(LastInFlight(y.flights, |y.flights|, id), Last(y.pending, id)))
  }

  /** The Records of a history that count towards a tenant's counter. */
  predicate Counts(e: Event, id: string, c: Counter) {
    e.Recorded? && id != "" && e.s.routeID == id
    && match c
       case Queries => true
       case Blocked => e.s.blocked
       case Overridden => e.s.overridden
       case Throttled => e.s.throttled
  }

  function History(evs: seq<Event>, id: string, c: Counter): nat {
    if evs == [] then 0
    else History(evs[..|evs| - 1], id, c) + One(Counts(evs[|evs| - 1], id, c))
  }

  function Latest(evs: seq<Event>, id: string): nat {
    if evs == [] then 0
    else
      var e := evs[|evs| - 1];
      Max(Latest(evs[..|evs| - 1], id), if Counts(e, id, Queries) then e.s.now else 0)
  }

  /** The clock readings of a tenant's own Records, in order. */
  function Readings(evs: seq<Event>, id: string): seq<nat> {
    if evs == [] then []
    else
      var e, rest := evs[|evs| - 1], Readings(evs[..|evs| - 1], id);
      if Counts(e, id, Queries) then rest + [e.s.now] else rest
  }

  predicate NeverBack(times: seq<nat>) { forall i, j :: 0 <= i < j < |times| ==> times[i] <= times[j] }

  lemma {:induction false} FlightCleared(flights: seq<Option<Batch>>, n: nat, i: nat, id: string, c: Counter)
    requires i < |flights| && n <= |flights| && flights[i].Some?
    ensures InFlight(flights[i := None], n, id, c) + (if i < n then Of(flights[i].value, id, c) else 0)
         == InFlight(flights, n, id, c)
    ensures Max(LastInFlight(flights[i := None], n, id), if i < n then Last(flights[i].value, id) else 0)
         == LastInFlight(flights, n, id)
  {
    if n > 0 { FlightCleared(flights, n - 1, i, id, c); }
  }

  lemma {:induction false} FlightAdded(flights: seq<Option<Batch>>, flight: Option<Batch>, n: nat, id: string,
                                       c: Counter)
    requires n <= |flights|
    ensures InFlight(flights + [flight], n, id, c) == InFlight(flights, n, id, c)
    ensures LastInFlight(flights + [flight], n, id) == LastInFlight(flights, n, id)
  {
    if n > 0 { FlightAdded(flights, flight, n - 1, id, c); }
  }

  lemma MergeAllAdds(m: Batch, d: Batch, id: string, c: Counter)
    ensures Of(MergeAll(m, d), id, c) == Of(m, id, c) + Of(d, id, c)
    ensures Last(MergeAll(m, d), id) == Max(Last(m, id), Last(d, id))
  {}

  /** One step moves a tenant's counts about but never changes their total,
      except for a Record, which counts its own query. */
  lemma StepKeepsTotal(y: Sys, e: Event, id: string, c: Counter)
    ensures Total(Step(y, e), id, c) == Total(y, id, c) + One(Counts(e, id, c))
  {
    if Possible(y, e) {
      match e
      case Recorded(s) =>
      case Taken => FlightAdded(y.flights, Some(y.pending), |y.flights|, id, c);
      case Committed(i) =>
        FlightCleared(y.flights, |y.flights|, i, id, c);
        MergeAllAdds(y.stored, y.flights[i].value, id, c);
      case Restored(i) =>
        FlightCleared(y.flights, |y.flights|, i, id, c);
        MergeAllAdds(y.pending, y.flights[i].value, id, c);
    }
  }

  lemma StepKeepsLast(y: Sys, e: Event, id: string)
    ensures Counts(e, id, Queries) && TotalLast(y, id) <= e.s.now ==> TotalLast(Step(y, e), id) == e.s.now
    ensures !Counts(e, id, Queries) ==> TotalLast(Step(y, e), id) == TotalLast(y, id)
  {
    if Possible(y, e) {
      match e
      case Recorded(s) =>
      case Taken => FlightAdded(y.flights, Some(y.pending), |y.flights|, id, Queries);
      case Committed(i) =>
        FlightCleared(y.flights, |y.flights|, i, id, Queries);
        MergeAllAdds(y.stored, y.flights[i].value, id, Queries);
      case Restored(i) =>
        FlightCleared(y.flights, |y.flights|, i, id, Queries);
        MergeAllAdds(y.pending, y.flights[i].value, id, Queries);
    }
  }

  /** Conservation. Whatever Records, Flushes, commits and failed writes
      interleave, with any number of flushes in flight, for every tenant and
      counter stored + in flight + pending is exactly what was recorded. */
  lemma {:induction false} NothingLost(evs: seq<Event>, id: string, c: Counter)
    ensures Total(After(evs), id, c) == History(evs, id, c)
  {
    if evs != [] {
      var n := |evs| - 1;
      NothingLost(evs[..n], id, c);
      StepKeepsTotal(After(evs[..n]), evs[n], id, c);
    }
  }

  lemma {:induction false} LatestBounded(evs: seq<Event>, id: string, now: nat)
    requires forall i :: 0 <= i < |Readings(evs, id)| ==> Readings(evs, id)[i] <= now
    ensures Latest(evs, id) <= now
  {
    if evs != [] {
      var init := evs[..|evs| - 1];
      assert forall i :: 0 <= i < |Readings(init, id)| ==> Readings(evs, id)[i] == Readings(init, id)[i];
      if Counts(evs[|evs| - 1], id, Queries) { assert Readings(evs, id)[|Readings(init, id)|] == evs[|evs| - 1].s.now; }
      LatestBounded(init, id, now);
    }
  }

  /** When the readings of a tenant's own Records never step back, its last-seen
      time survives as well, whatever other tenants' Records and flushes
      interleave: the maximum over all places is the latest time recorded. */
  lemma {:induction false} LastSeenKept(evs: seq<Event>, id: string)
    requires NeverBack(Readings(evs, id))
    ensures TotalLast(After(evs), id) == Latest(evs, id)
  {
    if evs != [] {
      var n := |evs| - 1;
      var init, e := evs[..n], evs[n];
      var times, more := Readings(init, id), Readings(evs, id);
      assert forall i :: 0 <= i < |times| ==> more[i] == times[i];
      LastSeenKept(init, id);
      StepKeepsLast(After(init), e, id);
      if Counts(e, id, Queries) {
        assert more[|times|] == e.s.now;
        LatestBounded(init, id, e.s.now);
      }
    }
  }

  /** A tenant's last-seen time is right at every moment of every interleaving of
      these readings of its own with anything else. */
  ghost predicate LastSeenRight(id: string, times: seq<nat>) {
    forall evs: seq<Event> :: Readings(evs, id) <= times ==> TotalLast(After(evs), id) == Latest(evs, id)
  }

  /** And it is right exactly when those readings never step back. */
  lemma LastSeenRightIff(id: string, times: seq<nat>)
    requires id != ""
    ensures LastSeenRight(id, times) <==> NeverBack(times)
  {
    if NeverBack(times) {
      forall evs: seq<Event> | Readings(evs, id) <= times ensures TotalLast(After(evs), id) == Latest(evs, id) {
        var some := Readings(evs, id);
        assert forall i :: 0 <= i < |some| ==> some[i] == times[i];
        LastSeenKept(evs, id);
      }
    } else {
      var k := FirstBack(times);
      var evs := Straight(id, times[..k + 1]);
      StraightReads(id, times[..k + 1]);
      StraightReads(id, times[..k]);
      assert times[..k + 1][..k] == times[..k];
      StraightLast(id, times[..k]);
      StraightLast(id, times[..k + 1]);
      assert Latest(evs, id) >= times[k - 1] > TotalLast(After(evs), id);
    }
  }

  lemma NeverBackGrows(times: seq<nat>, t: nat)
    requires NeverBack(times) && (times != [] ==> times[|times| - 1] <= t)
    ensures NeverBack(times + [t])
  {
    forall i | 0 <= i < |times| ensures times[i] <= t { assert times[i] <= times[|times| - 1]; }
  }

  lemma {:induction false} FirstBack(times: seq<nat>) returns (k: nat)
    ensures NeverBack(times) || (0 < k < |times| && times[k] < times[k - 1])
  {
    k := 0;
    if times != [] {
      var n := |times| - 1;
      assert times == times[..n] + [times[n]];
      k := FirstBack(times[..n]);
      if NeverBack(times[..n]) {
        if n > 0 && times[n] < times[n - 1] { k := n; } else { NeverBackGrows(times[..n], times[n]); }
      }
    }
  }

  /** The readings one after another, with nothing in between. */
  function Straight(id: string, times: seq<nat>): (evs: seq<Event>)
    ensures |evs| == |times|
  {
    if times == [] then []
    else Straight(id, times[..|times| - 1]) + [Recorded(Sample(id, false, false, false, times[|times| - 1]))]
  }

  lemma {:induction false} StraightReads(id: string, times: seq<nat>)
    requires id != ""
    ensures Readings(Straight(id, times), id) == times
  {
    if times != [] {
      var n := |times| - 1;
      StraightReads(id, times[..n]);
      assert Straight(id, times)[..n] == Straight(id, times[..n]);
      assert times == times[..n] + [times[n]];
    }
  }

  lemma {:induction false} StraightLast(id: string, times: seq<nat>)
    requires id != "" && times != []
    ensures After(Straight(id, times)).flights == [] && After(Straight(id, times)).stored == map[]
    ensures TotalLast(After(Straight(id, times)), id) == times[|times| - 1] <= Latest(Straight(id, times), id)
  {
    var n := |times| - 1;
    assert Straight(id, times)[..n] == Straight(id, times[..n]);
    if n > 0 { StraightLast(id, times[..n]); } else { assert After([]) == START; }
  }

  /** A clock that does step back can lose the later time: Record overwrites. */
  lemma LastSeenNeedsSteadyClock(late: Sample, early: Sample)
    requires late.routeID == early.routeID != "" && early.now < late.now
    ensures var evs := [Recorded(late), Recorded(early)];
      TotalLast(After(evs), late.routeID) == early.now < Latest(evs, late.routeID)
  {
    var evs := [Recorded(late), Recorded(early)];
    assert evs[..1] == [Recorded(late)] && evs[..1][..0] == [];
    assert After([]) == START;
    assert After(evs[..1]) == Step(START, evs[0]);
    assert Latest(evs[..1], late.routeID) == late.now;
  }

  lemma {:induction false} NoneInFlight(flights: seq<Option<Batch>>, n: nat, id: string, c: Counter)
    requires n <= |flights| && forall i :: 0 <= i < |flights| ==> flights[i].None?
    ensures InFlight(flights, n, id, c) == 0
  {
    if n > 0 { NoneInFlight(flights, n - 1, id, c); }
  }

  /** At rest - nothing pending, no flush in flight - the table alone holds every
      tenant's exact counts: what the final flush of a clean shutdown is for. */
  lemma AtRestAllStored(evs: seq<Event>, id: string, c: Counter)
    requires After(evs).pending == map[] && forall i :: 0 <= i < |After(evs).flights| ==> After(evs).flights[i].None?
    ensures Of(After(evs).stored, id, c) == History(evs, id, c)
  {
    NothingLost(evs, id, c);
    var flights := After(evs).flights;
    NoneInFlight(flights, |flights|, id, c);
  }
}
