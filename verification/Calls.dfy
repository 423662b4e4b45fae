/** resolver/resolve.go:194-222 with any number of queries at once: past policy a
    call reads the cache, ends its Get, and on a miss later filters and stores
    what an upstream sent; other calls and the sweeper may come in between. */
module Calls {
  import opened GoStrings
  import opened Domain
  import opened Dns
  import opened Rebind
  import opened Pipeline
  import opened PipelineLaws
  import CacheModel

  /** How far a call has come. */
  datatype Call = Looking(q: Question) | Missed(q: Question) | Served(q: Question, msg: Msg) | Lost(q: Question)

  /** The calls past policy, in the order they began their Gets, and all the
      steps the cache has taken. */
  datatype Sys = Sys(calls: seq<Call>, trace: seq<CacheModel.Event>)

  datatype Event =
    | Asks(q: Question)
    | Learns(call: nat, now: int)
    | Fetches(call: nat, up: Option<Msg>, now: int)
    | Sweeps(keys: set<string>, now: int)

  const START := Sys([], [])

  function CacheOf(y: Sys): CacheModel.Sys { CacheModel.After(y.trace) }

  function KeyOf(c: Config, q: Question): string { CacheModel.CacheKey(c.names, q) }

  /** The call is between its read and the end of its Get, which can be at `now`. */
  predicate CanLearn(y: Sys, i: nat, now: int) {
    && i < |y.calls| && y.calls[i].Looking? && i < |CacheOf(y).gets|
    && (CacheOf(y).gets[i].Some? ==> CacheOf(y).gets[i].value.entry.storedAt <= now)
  }

  function Learnt(y: Sys, i: nat, now: int): Option<Msg> { CacheModel.Step(CacheOf(y), CacheModel.ReadEnded(i, now)).1 }

  /** One step of one call, or of the sweeper. What cannot happen changes nothing. */
  function Step(c: Config, y: Sys, e: Event): Sys {
    match e
    case Asks(q) => Sys(y.calls + [Looking(q)], y.trace + [CacheModel.ReadBegun(KeyOf(c, q))])
    case Learns(i, now) =>
      if !CanLearn(y, i, now) then y
      else
        var q, hit := y.calls[i].q, Learnt(y, i, now);
        Sys(y.calls[i := if hit.Some? then Served(q, hit.value) else Missed(q)],
            y.trace + [CacheModel.ReadEnded(i, now)])
    case Fetches(i, up, now) =>
      if i >= |y.calls| || !y.calls[i].Missed? then y
      else
        var q := y.calls[i].q;
        if up == None then y.(calls := y.calls[i := Lost(q)])
        else
          var clean := Unbound(c, up.value, Normalize(q.name));
          Sys(y.calls[i := Served(q, clean)], y.trace + [CacheModel.Stored(KeyOf(c, q), clean, now)])
    case Sweeps(keys, now) => y.(trace := y.trace + [CacheModel.Swept(keys, now)])
  }

  function After(c: Config, evs: seq<Event>): Sys {
    if evs == [] then START else Step(c, After(c, evs[..|evs| - 1]), evs[|evs| - 1])
  }

  /** A call's Get is the cache's, under the call's own key; what it was served is
      clean for its own question. */
  ghost predicate CallOk(c: Config, y: Sys, i: nat)
    requires i < |y.calls| && i < |CacheOf(y).gets|
  {
    && (CacheOf(y).gets[i].Some? ==> y.calls[i].Looking? && CacheOf(y).gets[i].value.key == KeyOf(c, y.calls[i].q))
    && (y.calls[i].Served? ==> Clean(c, y.calls[i].msg, Normalize(y.calls[i].q.name)))
  }

  ghost predicate Inv(c: Config, y: Sys) {
    && FromPipeline(c, y.trace) && |CacheOf(y).gets| == |y.calls|
    && forall i :: 0 <= i < |y.calls| ==> CallOk(c, y, i)
  }

  lemma TraceGrows(trace: seq<CacheModel.Event>, e: CacheModel.Event)
    ensures CacheModel.After(trace + [e]) == CacheModel.Step(CacheModel.After(trace), e).0
  {
    assert (trace + [e])[..|trace|] == trace;
  }

  lemma FilteredMayFollow(c: Config, trace: seq<CacheModel.Event>, e: CacheModel.Event)
    requires FromPipeline(c, trace)
    requires e.Stored? ==> exists q, answer :: e.key == CacheModel.CacheKey(c.names, q)
                                            && e.msg.answer == Filtered(answer, Normalize(q.name), c.rebind)
    ensures FromPipeline(c, trace + [e])
  {
    var more := trace + [e];
    forall i | 0 <= i < |more| && more[i].Stored?
      ensures exists q, answer :: more[i].key == CacheModel.CacheKey(c.names, q)
                               && more[i].msg.answer == Filtered(answer, Normalize(q.name), c.rebind)
    {
      if i < |trace| { assert more[i] == trace[i]; }
    }
  }

  lemma AskKeeps(c: Config, y: Sys, q: Question)
    requires Inv(c, y)
    ensures Inv(c, Step(c, y, Asks(q)))
  {
    var e, z := CacheModel.ReadBegun(KeyOf(c, q)), Step(c, y, Asks(q));
    TraceGrows(y.trace, e);
    FilteredMayFollow(c, y.trace, e);
    forall i | 0 <= i < |z.calls| ensures CallOk(c, z, i) {
      if i < |y.calls| { assert CallOk(c, y, i) && CacheOf(z).gets[i] == CacheOf(y).gets[i]; }
    }
  }

  lemma LearnKeeps(c: Config, y: Sys, g: nat, now: int)
    requires CacheModel.NoBars(c.names) && Inv(c, y) && CanLearn(y, g, now)
    ensures Inv(c, Step(c, y, Learns(g, now)))
  {
    var e, z := CacheModel.ReadEnded(g, now), Step(c, y, Learns(g, now));
    TraceGrows(y.trace, e);
    FilteredMayFollow(c, y.trace, e);
    CacheAlwaysClean(c, y.trace, g, now);
    forall i | 0 <= i < |z.calls| ensures CallOk(c, z, i) {
      assert CallOk(c, y, i);
      if i != g { assert CacheOf(z).gets[i] == CacheOf(y).gets[i]; }
    }
  }

  lemma FetchKeeps(c: Config, y: Sys, g: nat, up: Msg, now: int)
    requires CacheModel.NoBars(c.names) && Inv(c, y) && g < |y.calls| && y.calls[g].Missed?
    ensures Inv(c, Step(c, y, Fetches(g, Some(up), now)))
  {
    var q, z := y.calls[g].q, Step(c, y, Fetches(g, Some(up), now));
    var clean := Unbound(c, up, Normalize(q.name));
    var e := CacheModel.Stored(KeyOf(c, q), clean, now);
    TraceGrows(y.trace, e);
    FilteredMayFollow(c, y.trace, e);
    FilteredIsCleanUnder(c, q, clean, up.answer);
    OneCallMoves(c, y, z, g);
  }

  lemma LoseKeeps(c: Config, y: Sys, g: nat, now: int)
    requires Inv(c, y) && g < |y.calls| && y.calls[g].Missed?
    ensures Inv(c, Step(c, y, Fetches(g, None, now)))
  {
    OneCallMoves(c, y, Step(c, y, Fetches(g, None, now)), g);
  }

  /** A step of one call past its Get leaves the others as they were. */
  lemma OneCallMoves(c: Config, y: Sys, z: Sys, g: nat)
    requires Inv(c, y) && g < |y.calls| == |z.calls| && CacheOf(z).gets == CacheOf(y).gets
    requires y.calls[g].Missed? && forall i :: 0 <= i < |y.calls| && i != g ==> z.calls[i] == y.calls[i]
    requires z.calls[g].Served? ==> Clean(c, z.calls[g].msg, Normalize(z.calls[g].q.name))
    ensures forall i :: 0 <= i < |z.calls| ==> CallOk(c, z, i)
  {
    forall i | 0 <= i < |z.calls| ensures CallOk(c, z, i) { assert CallOk(c, y, i); }
  }

  lemma StepKeepsInv(c: Config, y: Sys, e: Event)
    requires CacheModel.NoBars(c.names) && Inv(c, y)
    ensures Inv(c, Step(c, y, e))
  {
    match e
    case Asks(q) => AskKeeps(c, y, q);
    case Learns(i, now) => if CanLearn(y, i, now) { LearnKeeps(c, y, i, now); }
    case Fetches(i, up, now) => if i < |y.calls| && y.calls[i].Missed? {
        if up.Some? { FetchKeeps(c, y, i, up.value, now); } else { LoseKeeps(c, y, i, now); }
      }
    case Sweeps(keys, now) =>
      var z := Step(c, y, e);
      TraceGrows(y.trace, CacheModel.Swept(keys, now));
      FilteredMayFollow(c, y.trace, CacheModel.Swept(keys, now));
      forall i | 0 <= i < |z.calls| ensures CallOk(c, z, i) { assert CallOk(c, y, i); }
  }

  lemma {:induction false} AlwaysInv(c: Config, evs: seq<Event>)
    requires CacheModel.NoBars(c.names)
    ensures Inv(c, After(c, evs))
  {
    if evs != [] {
      AlwaysInv(c, evs[..|evs| - 1]);
      StepKeepsInv(c, After(c, evs[..|evs| - 1]), evs[|evs| - 1]);
    } else {
      assert CacheOf(START) == CacheModel.START;
    }
  }

  /** No rebinding, over all runs of all calls: whatever interleaves, the cache
      only ever holds entries clean for every question of their key, and every
      call is served only what is clean for its own question. */
  lemma NeverServesRebinding(c: Config, evs: seq<Event>)
    requires CacheModel.NoBars(c.names)
    ensures var y := After(c, evs);
      && CleanTable(c, CacheOf(y).table)
      && forall i :: 0 <= i < |y.calls| && y.calls[i].Served? ==> Clean(c, y.calls[i].msg, Normalize(y.calls[i].q.name))
  {
    AlwaysInv(c, evs);
    var y := After(c, evs);
    CacheAlwaysClean(c, y.trace, 0, 0);
    forall i | 0 <= i < |y.calls| && y.calls[i].Served? ensures Clean(c, y.calls[i].msg, Normalize(y.calls[i].q.name)) {
      assert CallOk(c, y, i);
    }
  }

  lemma LearnIsGet(c: Config, y: Sys, q: Question, now: int)
    requires Inv(c, y) && CacheModel.Past(CacheOf(y).table, now)
    ensures var learnt := Step(c, Step(c, y, Asks(q)), Learns(|y.calls|, now));
      var (m, hit) := CacheModel.GetIn(CacheOf(y).table, KeyOf(c, q), now);
      && CacheOf(learnt).table == m
      && learnt.calls == y.calls + [if hit.Some? then Served(q, hit.value) else Missed(q)]
  {
    var asked := Step(c, y, Asks(q));
    TraceGrows(y.trace, CacheModel.ReadBegun(KeyOf(c, q)));
    TraceGrows(asked.trace, CacheModel.ReadEnded(|y.calls|, now));
  }

  lemma FetchIsPut(c: Config, y: Sys, g: nat, up: Option<Msg>, now: int)
    requires g < |y.calls|
    ensures var z, q := Step(c, y, Fetches(g, up, now)), y.calls[g].q;
      if !y.calls[g].Missed? then z == y
      else if up == None then z == y.(calls := y.calls[g := Lost(q)])
      else
        var clean := Unbound(c, up.value, Normalize(q.name));
        && z.calls == y.calls[g := Served(q, clean)]
        && CacheOf(z).table == CacheModel.PutIn(CacheOf(y).table, KeyOf(c, q), clean, now)
  {
    if y.calls[g].Missed? && up.Some? {
      var q := y.calls[g].q;
      TraceGrows(y.trace, CacheModel.Stored(KeyOf(c, q), Unbound(c, up.value, Normalize(q.name)), now));
    }
  }

  /** These are the steps of Resolve: a call that nothing comes in between leaves
      the cache, and is served, exactly as the lookup of one query on its own. */
  lemma UndisturbedIsLookup(c: Config, y: Sys, s: State, r: Request, rid: string, t: Times, up: Option<Msg>)
    requires Inv(c, y) && s.cache == CacheOf(y).table && CacheModel.Past(s.cache, t.get) && |r.msg.question| == 1
    ensures var q, n := r.msg.question[0], |y.calls|;
      var z := Step(c, Step(c, Step(c, y, Asks(q)), Learns(n, t.get)), Fetches(n, up, t.put));
      var res := Lookup(c, s, r, rid, t, up);
      && CacheOf(z).table == res.state.cache && |z.calls| == n + 1 && z.calls[..n] == y.calls
      && (z.calls[n].Served? <==> res.out != Failed) && (z.calls[n] == Lost(q) <==> res.out == Failed)
      && (res.out == FromCache ==> res.reply == z.calls[n].msg.(id := r.msg.id, question := r.msg.question))
      && (res.out == Fetched ==> res.reply == z.calls[n].msg.(id := r.msg.id))
  {
    var q := r.msg.question[0];
    LearnIsGet(c, y, q, t.get);
    FetchIsPut(c, Step(c, Step(c, y, Asks(q)), Learns(|y.calls|, t.get)), |y.calls|, up, t.put);
  }
}
