/** resolver/resolve.go as an object: Resolve updates counters, buckets, probes,
    usage, cache and the forwarding offset one after another. */
module Resolver {
  import opened GoStrings
  import opened Domain
  import opened Dns
  import opened Policy
  import opened Rebind
  import opened CacheModel
  import opened Pipeline
  import opened Counters
  import opened Upstream
  import opened Bind
  import Outcomes
  import Probe
  import RateModel
  import Usage
  import Limiter

  /** The forwarding offset moves only for a query that went upstream. */
  function Turned(out: Outcome, net: Network, u: nat): nat {
    if (out == Fetched || out == Failed) && net.udp != [] then Next(u) else u
  }

  function Charged(pending: Usage.Batch, sample: Option<Usage.Sample>): Usage.Batch {
    if sample.Some? then Usage.RecordIn(pending, sample.value) else pending
  }

  /** The binder after a query that got as far as its tenant, or did not: the
      sighting is offered exactly for an active tenant identified by its SNI
      route, and only an offered one can start a write. */
  ghost predicate Noted(id: Identity, snap: Snapshot, unix: int, at: int, reached: bool,
                        seen: Seen, launched: seq<Sighting>, seen': Seen, launched': seq<Sighting>) {
    var tenant := TenantSeen(snap, id);
    var o := Sighting(if tenant.Some? then tenant.value.routeID else "", id.srcIP, at);
    var (noted, due) := Note(seen, o, reached && id.via != "ip" && Active(tenant, unix));
    seen' == noted && launched' == if due then launched + [o] else launched
  }

  /** An address is offered exactly for a paying tenant found by its route, and
      noted unless that very pair was in the last five minutes; only then a write
      starts, and it is of that tenant and that address. */
  lemma NotedIff(id: Identity, snap: Snapshot, unix: int, at: int, reached: bool,
                 seen: Seen, launched: seq<Sighting>, seen': Seen, launched': seq<Sighting>)
    requires Noted(id, snap, unix, at, reached, seen, launched, seen', launched')
    ensures launched' != launched <==> reached && exists x :: Offers(id, snap, unix, at, seen, x)
    ensures launched' == launched ==> seen' == seen
    ensures forall x :: reached && Offers(id, snap, unix, at, seen, x) ==>
      launched' == launched + [Sighting(x.routeID, id.srcIP, at)]
  {
    var tenant := TenantSeen(snap, id);
    forall x ensures Outcomes.Belongs(snap, id, x) <==> tenant == Some(x) { Outcomes.BelongsSeen(snap, id, x); }
    if launched' != launched { assert reached && Offers(id, snap, unix, at, seen, tenant.value); }
  }

  ghost predicate Offers(id: Identity, snap: Snapshot, unix: int, at: int, seen: Seen, x: Tenant) {
    var key := x.routeID + "|" + id.srcIP;
    && id.via != "ip" && Outcomes.Belongs(snap, id, x) && x.status == "active" && unix < x.expiresAt
    && x.routeID != "" && id.srcIP != "" && (key in seen ==> at - seen[key] >= 300_000_000_000)
  }

  class Resolver {
    const c: Config
    const m: CounterSet
    const store: PolicyStore
    const block: Blocklist
    const limiter: Limiter.RateLimiter?
    const usage: Usage.UsageCollector
    const probes: Probe.ProbeRecorder
    const binder: IpBinder?
    const forwarder: Forwarder
    var cache: Table

    constructor (c: Config, m: CounterSet, store: PolicyStore, block: Blocklist, limiter: Limiter.RateLimiter?,
                 usage: Usage.UsageCollector, probes: Probe.ProbeRecorder, binder: IpBinder?, forwarder: Forwarder)
      requires limiter == null <==> c.limits == None
      requires limiter != null ==> limiter.Valid() && limiter.Lim() == c.limits.value
      ensures Wired() && cache == map[] && this.m == m
      ensures this.c == c && this.store == store && this.block == block && this.limiter == limiter
      ensures this.usage == usage
      ensures this.probes == probes && this.binder == binder && this.forwarder == forwarder
    {
      this.c, this.m, this.store, this.block, this.limiter, this.usage := c, m, store, block, limiter, usage;
      this.probes, this.binder, this.forwarder := probes, binder, forwarder;
      cache := map[];
    }

    ghost function Parts(): set<Limiter.Bucket>
      reads limiter
    {
      if limiter == null then {} else limiter.objs
    }

    ghost predicate Wired()
      reads limiter, if limiter == null then {} else limiter.objs, if limiter == null then [] else limiter.closures
    {
      && (limiter == null <==> c.limits == None)
      && (limiter != null ==> limiter.Valid() && limiter.Lim() == c.limits.value)
    }

    ghost function Buckets(): RateModel.Buckets
      reads limiter
    {
      if limiter == null then map[] else limiter.model.buckets
    }

    ghost function Now(): State
      reads this, limiter, probes
    {
      State(Buckets(), probes.seen, cache)
    }

    ghost function Seen(): View
      reads store, block
    {
      View(store.snap, store.snap, store.snap, block.names)
    }

    /** tenantFor: whose query this is. An active tenant's source address is
        noted, on the way, when it was identified by its SNI route. */
    method TenantFor(id: Identity, unix: int, at: int) returns (tenant: Option<Tenant>)
      modifies binder
      ensures tenant == TenantSeen(store.snap, id)
      ensures binder != null ==>
        Noted(id, store.snap, unix, at, true, old(binder.seen), old(binder.launched), binder.seen, binder.launched)
    {
      if id.via == "ip" {
        return if id.ip in store.snap.byIP && store.snap.byIP[id.ip] in store.snap.tenants
               then Some(store.snap.tenants[store.snap.byIP[id.ip]]) else None;
      }
      var rid := ToLower(id.routeID);
      tenant := if rid in store.snap.tenants then Some(store.snap.tenants[rid]) else None;
      if tenant.Some? && binder != null && Active(tenant, unix) {
        binder.Observe(Sighting(tenant.value.routeID, id.srcIP, at));
      }
    }

    /** `r.limiter.Allow`, where a nil limiter allows everything. */
    method Allow(rid: string, now: real) returns (ok: bool)
      requires Wired()
      modifies limiter, Parts()
      ensures Wired() && fresh(Parts() - old(Parts()))
      ensures unchanged(this, m, store, block, usage, probes, forwarder)
      ensures (Buckets(), ok) == Admit(c, old(Buckets()), rid, now)
    {
      if limiter == null { return true; }
      ok := limiter.Allow(rid, now);
    }

    method Record(rid: string, blocked: bool, overridden: bool, throttled: bool, t: Times)
      modifies usage
      ensures usage.pending == Usage.RecordIn(old(usage.pending), Use(rid, blocked, overridden, throttled, t).value)
    {
      usage.Record(Usage.Sample(rid, blocked, overridden, throttled, t.record));
    }

    /** filterRebind on a reply: its Answer section is compacted in place. */
    method Strip(msg: Msg, name: string) returns (reply: Msg, dropped: nat)
      ensures reply == Unbound(c, msg, name) && dropped == |msg.answer| - |reply.answer|
    {
      var answer := new RR[|msg.answer|](i requires 0 <= i < |msg.answer| => msg.answer[i]);
      assert answer[..] == msg.answer;
      var kept;
      kept, dropped := FilterRebind(answer, name, c.rebind);
      reply := msg.(answer := answer[..kept]);
    }

    method Get(key: string, now: int) returns (hit: Option<Msg>)
      requires Past(cache, now)
      modifies this`cache
      ensures (cache, hit) == GetIn(old(cache), key, now)
    {
      if key !in cache { return None; }
      var e := cache[key];
      if now > e.expires {
        cache := cache - {key};
        return None;
      }
      return Hit(e, now);
    }

    /** From `r.usage.Record` to the end: the cache, then the upstream. */
    method Answer(r: Request, rid: string, t: Times, net: Network) returns (reply: Msg)
      requires Past(cache, t.get) && |r.msg.question| == 1 && Complete(net)
      modifies this, m, usage, forwarder
      ensures var res := Lookup(c, old(Now()), r, rid, t, Forwarded(net, old(forwarder.nextUp)));
        && reply == res.reply && Now() == res.state && m.counts == old(m.counts) + res.tallied
        && usage.pending == Charged(old(usage.pending), res.sample)
        && forwarder.nextUp == Turned(res.out, net, old(forwarder.nextUp))
    {
      var req := r.msg;
      var q := req.question[0];
      var key := CacheKey(c.names, q);
      Record(rid, false, false, false, t);
      var cached := Get(key, t.get);
      if cached.Some? {
        m.Add(CacheHits);
        return cached.value.(id := req.id, question := req.question);
      }
      reply := Fetch(r, q, key, t, net);
    }

    /** A cache miss: the upstream's reply is filtered before it is stored. */
    method Fetch(r: Request, q: Question, key: string, t: Times, net: Network) returns (reply: Msg)
      requires Complete(net)
      modifies this, m, forwarder
      ensures forwarder.nextUp == if net.udp == [] then old(forwarder.nextUp) else Next(old(forwarder.nextUp))
      ensures match Forwarded(net, old(forwarder.nextUp))
        case None =>
          && reply == Synth(r.msg, ServFail, [], []) && cache == old(cache)
          && m.counts == old(m.counts) + multiset{Unanswered}
        case Some(heard) =>
          var clean := Unbound(c, heard, Normalize(q.name));
          && reply == clean.(id := r.msg.id) && cache == PutIn(old(cache), key, clean, t.put)
          && m.counts == old(m.counts) + multiset{Answered} + Drops(|heard.answer| - |clean.answer|)
    {
      var heard := forwarder.Forward(net);
      if heard == None {
        m.Add(Unanswered);
        return Synth(r.msg, ServFail, [], []);
      }
      m.Add(Answered);
      var dropped: nat;
      reply, dropped := Strip(heard.value, Normalize(q.name));
      if dropped > 0 { m.AddMany(Stripped, dropped); }
      cache := PutIn(cache, key, reply, t.put);
      reply := reply.(id := r.msg.id);
    }

    /** The policy lookups, in their order; each later one only if the earlier
        ones do not settle it. */
    method Decide(r: Request, tenant: Tenant, unix: int) returns (verdict: Verdict)
      requires |r.msg.question| == 1 && probes.zone == c.zone
      ensures verdict == Judge(c, Seen(), r, tenant, unix)
    {
      var req, rid := r.msg, tenant.routeID;
      var q := req.question[0];
      var name := Normalize(q.name);
      var nonce := Probe.NonceFor(probes.zone, name);
      if nonce.Some? { return Probing(nonce.value); }
      var allowed := store.Allowed(rid, name);
      if allowed { return Verdict.Allow; }
      var over := store.Override(rid, name);
      if over.Some? {
        var redirect := OverrideReply(req, q, over.value);
        if redirect.Some? { return Redirect(redirect.value); }
      }
      if Filtering(Some(tenant), unix) {
        var blocked := block.Blocked(name);
        if blocked { return Sink; }
      }
      return Pass;
    }

    /** A verdict that needs no lookup: answered from here. */
    method Settle(r: Request, rid: string, verdict: Verdict, t: Times) returns (reply: Msg)
      requires Past(cache, t.get) && |r.msg.question| == 1 && (verdict.Probing? || verdict.Redirect? || verdict.Sink?)
      modifies m, usage, probes
      ensures var res := Carry(c, old(Now()), r, rid, verdict, t, None);
        && reply == res.reply && Now() == res.state && m.counts == old(m.counts) + res.tallied
        && usage.pending == Charged(old(usage.pending), res.sample)
    {
      match verdict {
        case Probing(nonce) =>
          probes.Record(nonce, rid, r.id.via, t.probe);
          Record(rid, false, false, false, t);
          reply := Synth(r.msg, NXDomain, [], [BLOCK_SOA]);
        case Redirect(redirect) =>
          m.Add(Overridden);
          Record(rid, false, true, false, t);
          reply := redirect;
        case Sink =>
          m.Add(Blocked);
          Record(rid, true, false, false, t);
          reply := Synth(r.msg, NXDomain, [], [BLOCK_SOA]);
      }
    }

    /** A verdict that leaves the query to the lookup. */
    method LookUp(r: Request, rid: string, verdict: Verdict, t: Times, net: Network) returns (reply: Msg)
      requires Past(cache, t.get) && |r.msg.question| == 1 && Complete(net) && (verdict.Allow? || verdict.Pass?)
      modifies this, m, usage, forwarder
      ensures var res := Carry(c, old(Now()), r, rid, verdict, t, Forwarded(net, old(forwarder.nextUp)));
        && reply == res.reply && Now() == res.state && m.counts == old(m.counts) + res.tallied
        && usage.pending == Charged(old(usage.pending), res.sample)
        && forwarder.nextUp == Turned(res.out, net, old(forwarder.nextUp))
    {
      if verdict.Allow? { m.Add(Allowed); }
      reply := Answer(r, rid, t, net);
    }

    /** The verdict carried out. */
    method CarryOut(r: Request, rid: string, verdict: Verdict, t: Times, net: Network) returns (reply: Msg)
      requires Past(cache, t.get) && |r.msg.question| == 1 && Complete(net)
      modifies this, m, usage, forwarder, probes
      ensures var res := Carry(c, old(Now()), r, rid, verdict, t, Forwarded(net, old(forwarder.nextUp)));
        && reply == res.reply && Now() == res.state && m.counts == old(m.counts) + res.tallied
        && usage.pending == Charged(old(usage.pending), res.sample)
        && forwarder.nextUp == Turned(res.out, net, old(forwarder.nextUp))
    {
      if verdict.Allow? || verdict.Pass? {
        reply := LookUp(r, rid, verdict, t, net);
      } else {
        reply := Settle(r, rid, verdict, t);
      }
    }

    /** Resolve, for an active tenant, once the limiter has spoken. */
    method Serve(r: Request, tenant: Tenant, ok: bool, t: Times, net: Network) returns (reply: Msg)
      requires Past(cache, t.get) && |r.msg.question| == 1 && Complete(net) && probes.zone == c.zone
      modifies this, m, usage, forwarder, probes
      ensures var res := Conclude(c, old(Now()), r, tenant.routeID, (old(Buckets()), ok),
                                  Judge(c, old(Seen()), r, tenant, t.unix), t, Forwarded(net, old(forwarder.nextUp)));
        && reply == res.reply && Now() == res.state && m.counts == old(m.counts) + res.tallied
        && usage.pending == Charged(old(usage.pending), res.sample)
        && forwarder.nextUp == Turned(res.out, net, old(forwarder.nextUp))
    {
      var rid := tenant.routeID;
      if ok {
        var verdict := Decide(r, tenant, t.unix);
        reply := CarryOut(r, rid, verdict, t, net);
      } else {
        m.Add(Throttled);
        Record(rid, false, false, true, t);
        reply := Synth(r.msg, Rcode.Refused, [], []);
      }
    }

    /** Serve leaves the limiter as it is. */
    method Finish(r: Request, tenant: Tenant, ok: bool, t: Times, net: Network) returns (reply: Msg)
      requires Wired() && Past(cache, t.get) && |r.msg.question| == 1 && Complete(net) && probes.zone == c.zone
      modifies this, m, usage, forwarder, probes
      ensures Wired() && Parts() == old(Parts())
      ensures var res := Conclude(c, old(Now()), r, tenant.routeID, (old(Buckets()), ok),
                                  Judge(c, old(Seen()), r, tenant, t.unix), t, Forwarded(net, old(forwarder.nextUp)));
        && reply == res.reply && Now() == res.state && m.counts == old(m.counts) + res.tallied
        && usage.pending == Charged(old(usage.pending), res.sample)
        && forwarder.nextUp == Turned(res.out, net, old(forwarder.nextUp))
    {
      reply := Serve(r, tenant, ok, t, net);
    }

    /** Resolve, for an active tenant. */
    method Attend(r: Request, tenant: Tenant, t: Times, net: Network) returns (reply: Msg)
      requires Wired() && Past(cache, t.get) && |r.msg.question| == 1 && Complete(net) && probes.zone == c.zone
      modifies this, m, usage, forwarder, probes, limiter, Parts()
      ensures Wired() && fresh(Parts() - old(Parts()))
      ensures var res := Conclude(c, old(Now()), r, tenant.routeID, Admit(c, old(Buckets()), tenant.routeID, t.allow),
                                  Judge(c, old(Seen()), r, tenant, t.unix), t, Forwarded(net, old(forwarder.nextUp)));
        && reply == res.reply && Now() == res.state && m.counts == old(m.counts) + res.tallied
        && usage.pending == Charged(old(usage.pending), res.sample)
        && forwarder.nextUp == Turned(res.out, net, old(forwarder.nextUp))
    {
      var ok := Allow(tenant.routeID, t.allow);
      assert Seen() == old(Seen()) && Now() == old(Now()).(buckets := Buckets());
      reply := Finish(r, tenant, ok, t, net);
    }

    /** Resolve, for a well-formed query: unknown and lapsed tenants are refused. */
    method Admission(r: Request, tenant: Option<Tenant>, t: Times, net: Network) returns (reply: Msg)
      requires Wired() && Past(cache, t.get) && |r.msg.question| == 1 && Complete(net) && probes.zone == c.zone
      modifies this, m, usage, forwarder, probes, limiter, Parts()
      ensures Wired() && fresh(Parts() - old(Parts()))
      ensures var res := Identify(c, old(Seen()), old(Now()), r, tenant, t, Forwarded(net, old(forwarder.nextUp)));
        && reply == res.reply && Now() == res.state && m.counts == old(m.counts) + res.tallied
        && usage.pending == Charged(old(usage.pending), res.sample)
        && forwarder.nextUp == Turned(res.out, net, old(forwarder.nextUp))
    {
      if !Active(tenant, t.unix) {
        m.Add(Metric.Refused);
        reply := Synth(r.msg, Rcode.Refused, [], []);
      } else {
        reply := Attend(r, tenant.value, t, net);
      }
    }

    /** Resolve, for a well-formed query. */
    method Receive(r: Request, t: Times, net: Network, bindUnix: int, bindAt: int) returns (reply: Msg)
      requires Wired() && Past(cache, t.get) && |r.msg.question| == 1 && Complete(net) && probes.zone == c.zone
      modifies this, m, usage, forwarder, probes, limiter, Parts(), binder
      ensures Wired() && fresh(Parts() - old(Parts()))
      ensures var res := Identify(c, old(Seen()), old(Now()), r, TenantSeen(old(store.snap), r.id), t,
                                  Forwarded(net, old(forwarder.nextUp)));
        && reply == res.reply && Now() == res.state && m.counts == old(m.counts) + res.tallied
        && usage.pending == Charged(old(usage.pending), res.sample)
        && forwarder.nextUp == Turned(res.out, net, old(forwarder.nextUp))
      ensures binder != null ==> Noted(r.id, old(store.snap), bindUnix, bindAt, true,
                                       old(binder.seen), old(binder.launched), binder.seen, binder.launched)
    {
      var tenant := TenantFor(r.id, bindUnix, bindAt);
      reply := Admission(r, tenant, t, net);
    }

    /** Resolve, once the query is counted. */
    method Examine(r: Request, t: Times, net: Network, bindUnix: int, bindAt: int) returns (reply: Msg)
      requires Wired() && Past(cache, t.get) && Complete(net) && probes.zone == c.zone
      modifies this, m, usage, forwarder, probes, limiter, Parts(), binder
      ensures Wired() && fresh(Parts() - old(Parts()))
      ensures var res := Screen(c, old(Seen()), old(Now()), r, t, Forwarded(net, old(forwarder.nextUp)));
        && reply == res.reply && Now() == res.state && m.counts == old(m.counts) + res.tallied
        && usage.pending == Charged(old(usage.pending), res.sample)
        && forwarder.nextUp == Turned(res.out, net, old(forwarder.nextUp))
      ensures binder != null ==> Noted(r.id, old(store.snap), bindUnix, bindAt, ValidRequest(r),
                                       old(binder.seen), old(binder.launched), binder.seen, binder.launched)
    {
      if ValidRequest(r) {
        reply := Receive(r, t, net, bindUnix, bindAt);
      } else {
        m.Add(Malformed);
        reply := Synth(r.msg, FormErr, [], []);
      }
    }

    /** Resolve. */
    method Resolve(r: Request, t: Times, net: Network, bindUnix: int, bindAt: int) returns (reply: Msg)
      requires Wired() && Past(cache, t.get) && Complete(net) && probes.zone == c.zone
      modifies this, m, usage, forwarder, probes, limiter, Parts(), binder
      ensures Wired() && fresh(Parts() - old(Parts()))
      ensures var res := ResolveIn(c, old(Seen()), old(Now()), r, t, Forwarded(net, old(forwarder.nextUp)));
        && reply == res.reply && Now() == res.state && m.counts == old(m.counts) + res.tallied
        && usage.pending == Charged(old(usage.pending), res.sample)
        && forwarder.nextUp == Turned(res.out, net, old(forwarder.nextUp))
      ensures binder != null ==> Noted(r.id, old(store.snap), bindUnix, bindAt, ValidRequest(r),
                                       old(binder.seen), old(binder.launched), binder.seen, binder.launched)
    {
      m.Add(Queries);
      ghost var counted := m.counts;
      assert Seen() == old(Seen()) && Now() == old(Now()) && counted == old(m.counts) + multiset{Queries};
      reply := Examine(r, t, net, bindUnix, bindAt);
      ghost var inner := Screen(c, old(Seen()), old(Now()), r, t, Forwarded(net, old(forwarder.nextUp)));
      assert counted + inner.tallied == old(m.counts) + (multiset{Queries} + inner.tallied);
    }
  }
}
