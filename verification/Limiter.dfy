/** resolver/ratelimit.go as the objects it is made of: buckets behind pointers,
    and release closures that keep the pointer while the sweeper edits the map.
    Every method is tied to the step of RateModel it performs. */
module Limiter {
  import opened GoStrings
  import opened RateModel

  class Bucket {
    var tokens: real
    var lastFill: real
    var lastUsed: real
    var conns: int

    constructor (tokens: real, lastFill: real)
      ensures this.tokens == tokens && this.lastFill == lastFill && conns == 0
    {
      this.tokens, this.lastFill, this.lastUsed, this.conns := tokens, lastFill, 0.0, 0;
    }

    ghost predicate Shows(b: Level)
      reads this
    {
      tokens == b.tokens && lastFill == b.lastFill && lastUsed == b.lastUsed && conns == b.conns
    }

    ghost function Read(): Level
      requires conns >= 0
      reads this
    {
      Level(tokens, lastFill, lastUsed, conns)
    }

    /** The body of Allow, once it holds the bucket. */
    method TakeToken(qps: real, burst: nat, now: real, ghost l: Limits) returns (ok: bool)
      requires conns >= 0 && l.qps == qps && l.burst == burst
      modifies this
      ensures conns >= 0 && Read() == Take(l, old(Read()), now).0
      ensures ok == Take(l, old(Read()), now).1
    {
      var elapsed := now - lastFill;
      if elapsed > 0.0 {
        tokens := tokens + elapsed * qps;
        if tokens > burst as real { tokens := burst as real; }
        lastFill := now;
      }
      lastUsed := now;
      if tokens < 1.0 { return false; }
      tokens := tokens - 1.0;
      return true;
    }
  }

  /** What a release closure captures: the bucket, and its `sync.Once`. The
      closure handed out with a refusal, or with limiting off, holds neither. */
  class Release {
    const bucket: Bucket?
    var done: bool

    constructor (bucket: Bucket?)
      ensures this.bucket == bucket && !done
    {
      this.bucket := bucket;
      this.done := false;
    }
  }

  class RateLimiter {
    const qps: real
    const burst: nat
    const maxConns: int
    var buckets: map<string, Bucket>
    ghost var model: Sys
    ghost var closures: seq<Release>
    ghost var objs: set<Bucket>  // every bucket made here

    ghost function Lim(): Limits { Limits(qps, burst, maxConns) }

    /** One bucket object per tenant, each showing its level in `m`. */
    ghost predicate Shows(m: Buckets)
      reads this, objs
    {
      && buckets.Keys == m.Keys
      && (forall id :: id in buckets ==> buckets[id] in objs)
      && (forall id :: id in buckets ==> buckets[id].Shows(m[id]))
      && (forall a, b :: a in buckets && b in buckets && a != b ==> buckets[a] != buckets[b])
    }

    /** The same, with the tenant `k` in hand: its bucket may differ from `m`. */
    ghost predicate ShowsBut(m: Buckets, k: string)
      reads this, objs
    {
      && buckets.Keys == m.Keys + {k}
      && (forall id :: id in buckets ==> buckets[id] in objs && (id != k ==> buckets[id].Shows(m[id])))
      && (forall a, b :: a in buckets && b in buckets && a != b ==> buckets[a] != buckets[b])
    }

    /** Every closure still live points at the bucket the map holds for its tenant. */
    ghost predicate Linked()
      reads this, closures
    {
      && |closures| == |model.handles|
      && (forall i, j :: 0 <= i < j < |closures| ==> closures[i] != closures[j])
      && (forall i :: 0 <= i < |closures| ==>
            && closures[i].done == model.handles[i].released
            && (!closures[i].done ==>
                  model.handles[i].id in buckets && closures[i].bucket == buckets[model.handles[i].id]))
    }

    ghost predicate Valid()
      reads this, objs, closures
    {
      Shows(model.buckets) && Linked() && AllSlotsOk(Lim(), model)
    }

    constructor (qps: real, burst: nat, maxConns: int)
      ensures Valid() && model == START && closures == [] && objs == {} && Lim() == Limits(qps, burst, maxConns)
    {
      this.qps, this.burst, this.maxConns := qps, burst, maxConns;
      buckets, model, closures, objs := map[], START, [], {};
    }

    /** The first lines of Allow and AcquireConn: the tenant's bucket, or a new
        full one. */
    method Fetch(routeID: string, now: real) returns (b: Bucket, ghost level: Level)
      requires Valid()
      modifies this`buckets, this`objs
      ensures routeID in buckets && buckets[routeID] == b
      ensures b in objs && (b in old(objs) || fresh(b)) && fresh(objs - old(objs))
      ensures level == if routeID in model.buckets then model.buckets[routeID]
                       else Level(burst as real, now, b.lastUsed, 0)
      ensures b.Shows(level) && ShowsBut(model.buckets, routeID)
      ensures Linked()
    {
      if routeID in buckets {
        b, level := buckets[routeID], model.buckets[routeID];
      } else {
        b := new Bucket(burst as real, now);
        buckets := buckets[routeID := b];
        objs := objs + {b};
        level := Level(burst as real, now, b.lastUsed, 0);
      }
    }

    method Allow(routeID: string, now: real) returns (ok: bool)
      requires Valid()
      modifies this, objs
      ensures Valid() && closures == old(closures)
      ensures fresh(objs - old(objs))
      ensures model.buckets == AllowIn(Lim(), old(model).buckets, routeID, now).0 && model.handles == old(model).handles
      ensures ok == AllowIn(Lim(), old(model).buckets, routeID, now).1
    {
      StepKeepsAllSlots(Lim(), model, Query(routeID, now), true);
      var b, level := Fetch(routeID, now);
      TakeIgnoresLastUsed(Lim(), RateModel.Bucket(Lim(), model.buckets, routeID, now), b.lastUsed, now);
      ok := Spend(b, routeID, now, level);
    }

    /** Allow, with the tenant's bucket in hand. */
    method Spend(b: Bucket, routeID: string, now: real, ghost level: Level) returns (ok: bool)
      requires routeID in buckets && buckets[routeID] == b && b.Shows(level)
      requires ShowsBut(model.buckets, routeID) && Linked()
      modifies this`model, b
      ensures model == old(model).(buckets := old(model).buckets[routeID := Take(Lim(), level, now).0])
      ensures ok == Take(Lim(), level, now).1
      ensures Shows(model.buckets) && Linked()
    {
      assert b.Read() == level;
      ok := b.TakeToken(qps, burst, now, Lim());
      model := model.(buckets := model.buckets[routeID := b.Read()]);
    }

    /** One more connection on the tenant's bucket. */
    method Occupy(b: Bucket, routeID: string, now: real, ghost level: Level)
      requires routeID in buckets && buckets[routeID] == b && b.Shows(level)
      requires ShowsBut(model.buckets, routeID) && Linked()
      modifies this`model, b
      ensures model == old(model).(buckets :=
                         old(model).buckets[routeID := level.(conns := level.conns + 1, lastUsed := now)])
      ensures Shows(model.buckets) && Linked()
    {
      b.conns := b.conns + 1;
      b.lastUsed := now;
      model := model.(buckets := model.buckets[routeID := level.(conns := level.conns + 1, lastUsed := now)]);
    }

    /** The granting end of AcquireConn: a slot taken, and the closure for it. */
    method Grant(b: Bucket, routeID: string, now: real, ghost level: Level) returns (release: Release)
      requires routeID in buckets && buckets[routeID] == b && b.Shows(level)
      requires ShowsBut(model.buckets, routeID) && Linked()
      modifies this`closures, this`model, b
      ensures model == Sys(old(model).buckets[routeID := level.(conns := level.conns + 1, lastUsed := now)],
                           old(model).handles + [Handle(routeID, false)])
      ensures closures == old(closures) + [release] && fresh(release)
      ensures Shows(model.buckets) && Linked()
    {
      Occupy(b, routeID, now, level);
      release := new Release(b);
      closures := closures + [release];
      model := model.(handles := model.handles + [Handle(routeID, false)]);
    }

    method AcquireConn(routeID: string, now: real) returns (release: Release, ok: bool)
      requires Valid()
      modifies this, objs
      ensures Valid() && fresh(release) && fresh(objs - old(objs))
      ensures model == AcquireIn(Lim(), old(model), routeID, now).0
      ensures ok == AcquireIn(Lim(), old(model), routeID, now).1
      ensures closures == if ok && maxConns > 0 then old(closures) + [release] else old(closures)
      ensures !(ok && maxConns > 0) ==> release.bucket == null
    {
      if maxConns <= 0 {
        release := new Release(null);
        return release, true;
      }
      release, ok := Reserve(routeID, now);
    }

    /** AcquireConn with a limit set: the critical section. */
    method Reserve(routeID: string, now: real) returns (release: Release, ok: bool)
      requires Valid() && maxConns > 0
      modifies this, objs
      ensures Valid() && fresh(release) && fresh(objs - old(objs))
      ensures model == AcquireIn(Lim(), old(model), routeID, now).0
      ensures ok == AcquireIn(Lim(), old(model), routeID, now).1
      ensures closures == if ok then old(closures) + [release] else old(closures)
      ensures !ok ==> release.bucket == null
    {
      StepKeepsAllSlots(Lim(), model, Dial(routeID, now), true);
      AcquireCases(Lim(), model, routeID, now);
      var b, level := Fetch(routeID, now);
      assert level.conns == Conns(model.buckets, routeID);
      ok := b.conns < maxConns;
      if !ok {
        assert Shows(model.buckets);
        release := new Release(null);
      } else {
        release := Grant(b, routeID, now, level);
      }
    }

    /** Calling the h-th closure that holds a slot, or one that never held any: the
        closure handed out with a refusal, or with limiting off. The guard on
        `conns` is written as in the source; for a live handle it always passes. */
    method CallRelease(c: Release, ghost h: nat)
      requires Valid() && (h < |closures| ==> closures[h] == c) && (h >= |closures| ==> c.bucket == null)
      modifies this, objs, closures
      ensures Valid() && closures == old(closures) && buckets == old(buckets)
      ensures model == ReleaseIn(old(model), h)
      ensures h < |closures| && !old(c.done) ==>
        Conns(model.buckets, model.handles[h].id) == Conns(old(model).buckets, model.handles[h].id) - 1
    {
      if c.bucket == null || c.done { return; }
      FreeSlot(c, h);
    }

    /** The first call of a closure that holds a slot. */
    method FreeSlot(c: Release, ghost h: nat)
      requires Valid() && h < |closures| && closures[h] == c && !c.done
      modifies this, objs, closures
      ensures Valid() && closures == old(closures) && buckets == old(buckets)
      ensures model == ReleaseIn(old(model), h)
      ensures Conns(model.buckets, model.handles[h].id) == Conns(old(model).buckets, model.handles[h].id) - 1
    {
      ghost var y := model;
      LiveNeverSwept(Lim(), y, 0.0);
      StepKeepsAllSlots(Lim(), y, Hangup(h), true);
      c.done := true;
      var b := c.bucket;
      if b.conns > 0 { b.conns := b.conns - 1; }
      model := ReleaseIn(y, h);
    }

    method Sweep(now: real)
      requires Valid()
      modifies this
      ensures Valid() && closures == old(closures)
      ensures model == old(model).(buckets := SweepIn(old(model).buckets, now))
      ensures forall id :: id in buckets <==>
        id in old(buckets) && (old(buckets[id].conns) != 0 || now - old(buckets[id].lastUsed) <= 600.0)
    {
      StepKeepsAllSlots(Lim(), model, Swept(now), true);
      LiveNeverSwept(Lim(), model, now);
      DropIdle(now);
      model := model.(buckets := SweepIn(model.buckets, now));
    }

    /** The sweeper's pass over the map. */
    method DropIdle(now: real)
      requires Shows(model.buckets)
      modifies this`buckets
      ensures Shows(SweepIn(model.buckets, now))
      ensures forall id :: id in buckets ==> id in old(buckets) && buckets[id] == old(buckets)[id]
    {
      var todo := buckets.Keys;
      while todo != {}
        invariant todo <= old(buckets).Keys
        invariant forall id :: id in buckets ==> id in old(buckets) && buckets[id] == old(buckets)[id]
        invariant forall id :: id in old(buckets) ==> (id in buckets <==> id in todo || !Idle(model.buckets[id], now))
      {
        var id :| id in todo;
        assert buckets[id].Shows(model.buckets[id]);
        if buckets[id].conns == 0 && now - buckets[id].lastUsed > IDLE_TTL {
          buckets := buckets - {id};
        }
        todo := todo - {id};
      }
    }
  }

  /** NewRateLimiter: no limiter at all for a rate of zero or less, and a burst
      that defaults to one second's worth. */
  method NewRateLimiter(qps: real, burst: int, maxConns: int) returns (r: RateLimiter?)
    ensures r == null <==> qps <= 0.0
    ensures r != null ==> fresh(r) && r.Valid() && r.model == START
    ensures r != null ==> r.Lim() == Limits(qps, if burst <= 0 then qps.Floor else burst, maxConns)
  {
    if qps <= 0.0 { return null; }
    var b := if burst <= 0 then qps.Floor else burst;
    r := new RateLimiter(qps, b, maxConns);
  }
}
