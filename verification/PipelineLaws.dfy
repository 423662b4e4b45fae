/** What the order of the pipeline is for: laws over every query, every policy
    and every state. */
module PipelineLaws {
  import opened GoStrings
  import opened Netip
  import opened Domain
  import opened Dns
  import opened Policy
  import opened Rebind
  import opened CacheModel
  import opened Pipeline
  import opened Counters
  import Probe
  import RateModel
  import Usage

  /** The one question asked, in the form policy looks at. */
  function Asked(r: Request): string
    requires |r.msg.question| == 1
  {
    Normalize(r.msg.question[0].name)
  }

  // ---- precedence ----

  /** What settles a query: nothing of the policy (it is malformed, refused,
      throttled or a probe), the allowlist, an override, the blocklist, or none of
      them. */
  datatype Stage = AtDoor | ByAllowlist | ByOverride | ByBlocklist | Unsettled

  ghost function StageOf(c: Config, v: View, s: State, r: Request, t: Times): Stage {
    var tenant := TenantSeen(v.atTenant, r.id);
    if !ValidRequest(r) || !Active(tenant, t.unix) || !Admit(c, s.buckets, tenant.value.routeID, t.allow).1 then AtDoor
    else
      match Judge(c, v, r, tenant.value, t.unix)
      case Probing(_) => AtDoor
      case Allow => ByAllowlist
      case Redirect(_) => ByOverride
      case Sink => ByBlocklist
      case Pass => Unsettled
  }

  predicate LooksUp(stage: Stage) { stage == ByAllowlist || stage == Unsettled }

  /** Everything that may matter to a query settled at this stage is the same:
      what stands before the stage, and cache and upstream if it looks them up. A
      tenant that is not filtering has no blocklist. */
  ghost predicate SameUpTo(stage: Stage, filtering: bool, v: View, v': View, s: State, s': State, up: Option<Msg>,
                           up': Option<Msg>) {
    && v.atTenant == v'.atTenant && s.buckets == s'.buckets
    && (stage != AtDoor ==> v.atAllowed == v'.atAllowed)
    && (stage != AtDoor && stage != ByAllowlist ==> v.atOverride == v'.atOverride)
    && ((stage == ByBlocklist || stage == Unsettled) && filtering ==> v.blocklist == v'.blocklist)
    && (LooksUp(stage) ==> s.cache == s'.cache && up == up')
  }

  ghost predicate SameResult(a: Result, b: Result) {
    && a.reply == b.reply && a.out == b.out && a.tallied == b.tallied && a.sample == b.sample
    && a.state.buckets == b.state.buckets
  }

  lemma JudgedAlike(c: Config, v: View, v': View, r: Request, tenant: Tenant, unix: int)
    requires |r.msg.question| == 1
    requires var verdict := Judge(c, v, r, tenant, unix);
      && (!verdict.Probing? ==> v.atAllowed == v'.atAllowed)
      && (!verdict.Probing? && !verdict.Allow? ==> v.atOverride == v'.atOverride)
      && ((verdict.Sink? || verdict.Pass?) && Filtering(Some(tenant), unix) ==> v.blocklist == v'.blocklist)
    ensures Judge(c, v', r, tenant, unix) == Judge(c, v, r, tenant, unix)
  {}

  lemma LookupAlike(c: Config, s: State, s': State, r: Request, rid: string, t: Times, up: Option<Msg>)
    requires Past(s.cache, t.get) && |r.msg.question| == 1 && s.buckets == s'.buckets && s.cache == s'.cache
    ensures SameResult(Lookup(c, s, r, rid, t, up), Lookup(c, s', r, rid, t, up))
  {}

  lemma CarriedAlike(c: Config, s: State, s': State, r: Request, rid: string, verdict: Verdict, t: Times,
                     up: Option<Msg>, up': Option<Msg>)
    requires Past(s.cache, t.get) && Past(s'.cache, t.get) && |r.msg.question| == 1 && s.buckets == s'.buckets
    requires verdict.Allow? || verdict.Pass? ==> s.cache == s'.cache && up == up'
    ensures SameResult(Carry(c, s, r, rid, verdict, t, up), Carry(c, s', r, rid, verdict, t, up'))
    ensures s == s' ==> Carry(c, s, r, rid, verdict, t, up) == Carry(c, s', r, rid, verdict, t, up')
  {
    if verdict.Allow? || verdict.Pass? { LookupAlike(c, s, s', r, rid, t, up); }
  }

  lemma ConcludedAlike(c: Config, s: State, s': State, r: Request, rid: string, adm: (RateModel.Buckets, bool),
                       verdict: Verdict, t: Times, up: Option<Msg>, up': Option<Msg>)
    requires Past(s.cache, t.get) && Past(s'.cache, t.get) && |r.msg.question| == 1 && s.buckets == s'.buckets
    requires adm.1 && (verdict.Allow? || verdict.Pass?) ==> s.cache == s'.cache && up == up'
    ensures SameResult(Conclude(c, s, r, rid, adm, verdict, t, up), Conclude(c, s', r, rid, adm, verdict, t, up'))
    ensures s == s' ==> Conclude(c, s, r, rid, adm, verdict, t, up) == Conclude(c, s', r, rid, adm, verdict, t, up')
  {
    if adm.1 { CarriedAlike(c, s.(buckets := adm.0), s'.(buckets := adm.0), r, rid, verdict, t, up, up'); }
  }

  lemma ConcludedUnheard(c: Config, s: State, s': State, r: Request, rid: string, adm: (RateModel.Buckets, bool),
                         verdict: Verdict, verdict': Verdict, t: Times, up: Option<Msg>, up': Option<Msg>)
    requires Past(s.cache, t.get) && Past(s'.cache, t.get) && |r.msg.question| == 1 && !adm.1
    ensures SameResult(Conclude(c, s, r, rid, adm, verdict, t, up), Conclude(c, s', r, rid, adm, verdict', t, up'))
    ensures s == s' ==> Conclude(c, s, r, rid, adm, verdict, t, up) == Conclude(c, s', r, rid, adm, verdict', t, up')
  {}

  lemma IdentifiedAlike(c: Config, v: View, v': View, s: State, s': State, r: Request, tenant: Tenant, t: Times,
                        up: Option<Msg>, up': Option<Msg>)
    requires Past(s.cache, t.get) && Past(s'.cache, t.get) && ValidRequest(r)
    requires TenantSeen(v.atTenant, r.id) == Some(tenant)
    requires Active(Some(tenant), t.unix)
    requires SameUpTo(StageOf(c, v, s, r, t), Filtering(Some(tenant), t.unix), v, v', s, s', up, up')
    ensures SameResult(Identify(c, v, s, r, Some(tenant), t, up), Identify(c, v', s', r, Some(tenant), t, up'))
    ensures s == s' ==> Identify(c, v, s, r, Some(tenant), t, up) == Identify(c, v', s', r, Some(tenant), t, up')
  {
    var rid, adm := tenant.routeID, Admit(c, s.buckets, tenant.routeID, t.allow);
    var verdict, verdict' := Judge(c, v, r, tenant, t.unix), Judge(c, v', r, tenant, t.unix);
    if adm.1 {
      JudgedAlike(c, v, v', r, tenant, t.unix);
      ConcludedAlike(c, s, s', r, rid, adm, verdict, t, up, up');
    } else {
      ConcludedUnheard(c, s, s', r, rid, adm, verdict, verdict', t, up, up');
    }
  }

  /** Precedence: limiter, probe, allowlist, override, blocklist, cache, upstream.
      Whatever settles a query, nothing that comes after it in this order has any
      say in the reply, the outcome, the counters or the buckets. */
  lemma Precedence(c: Config, v: View, v': View, s: State, s': State, r: Request, t: Times, up: Option<Msg>,
                   up': Option<Msg>)
    requires Past(s.cache, t.get) && Past(s'.cache, t.get)
    requires SameUpTo(StageOf(c, v, s, r, t), Filtering(TenantSeen(v.atTenant, r.id), t.unix), v, v', s, s', up, up')
    ensures SameResult(ResolveIn(c, v, s, r, t, up), ResolveIn(c, v', s', r, t, up'))
    ensures s == s' ==> ResolveIn(c, v, s, r, t, up) == ResolveIn(c, v', s', r, t, up')
  {
    var tenant := TenantSeen(v.atTenant, r.id);
    if ValidRequest(r) && Active(tenant, t.unix) {
      IdentifiedAlike(c, v, v', s, s', r, tenant.value, t, up, up');
    }
  }

  /** The same result, on a cache that holds something else. */
  ghost function OnCache(res: Result, cache: Table): Result { res.(state := res.state.(cache := cache)) }

  lemma ProbeIdentified(c: Config, v: View, v': View, s: State, cache: Table, r: Request, tenant: Option<Tenant>,
                        t: Times, up: Option<Msg>, up': Option<Msg>)
    requires Past(s.cache, t.get) && Past(cache, t.get)
    requires |r.msg.question| == 1 && Probe.NonceFor(c.zone, Asked(r)).Some?
    ensures var res := Identify(c, v, s, r, tenant, t, up);
      && Identify(c, v', s.(cache := cache), r, tenant, t, up') == OnCache(res, cache)
      && res.state.cache == s.cache
  {
    if Active(tenant, t.unix) {
      assert Judge(c, v, r, tenant.value, t.unix) == Judge(c, v', r, tenant.value, t.unix);
      assert Judge(c, v, r, tenant.value, t.unix).Probing?;
    }
  }

  /** A probe reports reachability whatever the tenant's policy, the cache or
      the upstream would say, and leaves the cache as it is. */
  lemma ProbeIgnoresPolicy(c: Config, v: View, v': View, s: State, cache: Table, r: Request, t: Times,
                           up: Option<Msg>, up': Option<Msg>)
    requires Past(s.cache, t.get) && Past(cache, t.get) && |r.msg.question| == 1 && v.atTenant == v'.atTenant
    ensures Probe.NonceFor(c.zone, Asked(r)).Some? ==>
      var res := ResolveIn(c, v, s, r, t, up);
      && ResolveIn(c, v', s.(cache := cache), r, t, up') == OnCache(res, cache)
      && res.state.cache == s.cache
  {
    if Probe.NonceFor(c.zone, Asked(r)).Some? {
      ProbeIdentified(c, v, v', s, cache, r, TenantSeen(v.atTenant, r.id), t, up, up');
    }
  }

  predicate AddressType(qtype: nat) { qtype in {TYPE_A, TYPE_AAAA, TYPE_HTTPS, TYPE_SVCB} }

  /** Nothing in the message gives an address, other than `addr` if there is one. */
  ghost predicate OnlyAddress(msg: Msg, addr: Option<Addr>) {
    forall rr :: rr in msg.answer + msg.ns + msg.extra && AddressIn(rr).Some? ==> AddressIn(rr) == addr
  }

  lemma OverrideReplyAddress(req: Msg, q: Question, addr: Addr)
    requires AddressType(q.qtype)
    ensures OverrideReply(req, q, addr).Some? && OnlyAddress(OverrideReply(req, q, addr).value, Some(addr))
    ensures OverrideReply(req, q, addr).value.answer != []
       <==> (q.qtype == TYPE_A && addr.V4?) || (q.qtype == TYPE_AAAA && addr.V6? && !Is4In6(addr))
  {}

  lemma OverriddenVerdict(c: Config, v: View, r: Request, tenant: Tenant, unix: int, addr: Addr)
    requires |r.msg.question| == 1 && AddressType(r.msg.question[0].qtype)
    requires !IsAllowed(v.atAllowed, tenant.routeID, Asked(r))
    requires OverrideOf(v.atOverride, tenant.routeID, Asked(r)) == Some(addr)
    ensures DecidedHere(Judge(c, v, r, tenant, unix), Some(addr))
  {
    OverrideReplyAddress(r.msg, r.msg.question[0], addr);
  }

  /** A verdict that needs neither cache nor upstream, and gives no address but
      `addr`. */
  ghost predicate DecidedHere(verdict: Verdict, addr: Option<Addr>) {
    verdict.Probing? || verdict.Sink? || (verdict.Redirect? && OnlyAddress(verdict.reply, addr))
  }

  lemma NoAddress(req: Msg, addr: Option<Addr>)
    ensures OnlyAddress(Synth(req, FormErr, [], []), addr) && OnlyAddress(Synth(req, Rcode.Refused, [], []), addr)
    ensures OnlyAddress(Synth(req, NXDomain, [], [BLOCK_SOA]), addr)
  {}

  lemma CarriedHere(c: Config, s: State, s': State, r: Request, rid: string, verdict: Verdict, t: Times,
                    up: Option<Msg>, up': Option<Msg>, addr: Option<Addr>)
    requires Past(s.cache, t.get) && Past(s'.cache, t.get) && |r.msg.question| == 1 && DecidedHere(verdict, addr)
    ensures var res := Carry(c, s, r, rid, verdict, t, up);
      && OnlyAddress(res.reply, addr) && res.state.cache == s.cache
      && res.reply == Carry(c, s', r, rid, verdict, t, up').reply
  {
    NoAddress(r.msg, addr);
  }

  lemma ConcludedHere(c: Config, s: State, cache: Table, r: Request, rid: string, adm: (RateModel.Buckets, bool),
                      verdict: Verdict, t: Times,
                      up: Option<Msg>, up': Option<Msg>, addr: Option<Addr>)
    requires Past(s.cache, t.get) && Past(cache, t.get) && |r.msg.question| == 1 && DecidedHere(verdict, addr)
    ensures var res := Conclude(c, s, r, rid, adm, verdict, t, up);
      && OnlyAddress(res.reply, addr) && res.state.cache == s.cache
      && res.reply == Conclude(c, s.(cache := cache), r, rid, adm, verdict, t, up').reply
  {
    NoAddress(r.msg, addr);
    CarriedHere(c, s.(buckets := adm.0), s.(buckets := adm.0, cache := cache), r, rid, verdict, t, up, up', addr);
  }

  lemma IdentifiedHere(c: Config, v: View, s: State, cache: Table, r: Request, tenant: Option<Tenant>, t: Times,
                       up: Option<Msg>, up': Option<Msg>, addr: Option<Addr>)
    requires Past(s.cache, t.get) && Past(cache, t.get) && |r.msg.question| == 1
    requires tenant.Some? ==> DecidedHere(Judge(c, v, r, tenant.value, t.unix), addr)
    ensures var res := Identify(c, v, s, r, tenant, t, up);
      && OnlyAddress(res.reply, addr) && res.state.cache == s.cache
      && res.reply == Identify(c, v, s.(cache := cache), r, tenant, t, up').reply
  {
    NoAddress(r.msg, addr);
    if Active(tenant, t.unix) {
      var rid := tenant.value.routeID;
      var verdict := Judge(c, v, r, tenant.value, t.unix);
      ConcludedHere(c, s, cache, r, rid, Admit(c, s.buckets, rid, t.allow), verdict, t, up, up', addr);
    }
  }

  lemma ResolvedHere(c: Config, v: View, s: State, r: Request, t: Times, up: Option<Msg>, cache: Table,
                     up': Option<Msg>, addr: Option<Addr>)
    requires Past(s.cache, t.get) && Past(cache, t.get) && |r.msg.question| == 1
    requires var tenant := TenantSeen(v.atTenant, r.id);
      tenant.Some? ==> DecidedHere(Judge(c, v, r, tenant.value, t.unix), addr)
    ensures NeverAsks(c, v, s, r, t, up, cache, up', addr)
  {
    NoAddress(r.msg, addr);
    IdentifiedHere(c, v, s, cache, r, TenantSeen(v.atTenant, r.id), t, up, up', addr);
  }

  /** No address but `addr` is answered, the cache is not touched, and neither
      the cache nor any upstream has a say in the reply. */
  ghost predicate NeverAsks(c: Config, v: View, s: State, r: Request, t: Times, up: Option<Msg>,
                            cache: Table, up': Option<Msg>, addr: Option<Addr>)
    requires Past(s.cache, t.get) && Past(cache, t.get)
  {
    var res := ResolveIn(c, v, s, r, t, up);
    && OnlyAddress(res.reply, addr) && res.state.cache == s.cache
    && res.reply == ResolveIn(c, v, s.(cache := cache), r, t, up').reply
  }

  /** The name is overridden to `addr` for whoever asks, and not allowed. */
  ghost predicate OverriddenTo(v: View, r: Request, addr: Addr)
    requires |r.msg.question| == 1
  {
    var tenant := TenantSeen(v.atTenant, r.id);
    tenant.Some? ==> !IsAllowed(v.atAllowed, tenant.value.routeID, Asked(r))
                     && OverrideOf(v.atOverride, tenant.value.routeID, Asked(r)) == Some(addr)
  }

  /** An overridden name that is not allowed never leaks its real address. */
  lemma OverrideNeverLeaks(c: Config, v: View, s: State, r: Request, t: Times, up: Option<Msg>, cache: Table,
                           up': Option<Msg>, addr: Addr)
    requires Past(s.cache, t.get) && Past(cache, t.get) && |r.msg.question| == 1
    ensures AddressType(r.msg.question[0].qtype) && OverriddenTo(v, r, addr) ==>
      NeverAsks(c, v, s, r, t, up, cache, up', Some(addr))
  {
    var tenant := TenantSeen(v.atTenant, r.id);
    if AddressType(r.msg.question[0].qtype) && OverriddenTo(v, r, addr) {
      if tenant.Some? { OverriddenVerdict(c, v, r, tenant.value, t.unix, addr); }
      ResolvedHere(c, v, s, r, t, up, cache, up', Some(addr));
    }
  }

  lemma BlockedVerdict(c: Config, v: View, r: Request, tenant: Tenant, unix: int)
    requires |r.msg.question| == 1 && Filtering(Some(tenant), unix) && Covered(v.blocklist, Normalize(Asked(r)))
    requires !IsAllowed(v.atAllowed, tenant.routeID, Asked(r))
    requires OverrideOf(v.atOverride, tenant.routeID, Asked(r)) == None
    ensures DecidedHere(Judge(c, v, r, tenant, unix), None)
  {}

  /** The name is blocked for whoever asks, and neither allowed nor overridden. */
  ghost predicate BlockedFor(v: View, r: Request, unix: int)
    requires |r.msg.question| == 1
  {
    var tenant := TenantSeen(v.atTenant, r.id);
    && Covered(v.blocklist, Normalize(Asked(r)))
    && (tenant.Some? ==> Filtering(tenant, unix) && !IsAllowed(v.atAllowed, tenant.value.routeID, Asked(r))
                         && OverrideOf(v.atOverride, tenant.value.routeID, Asked(r)) == None)
  }

  /** A blocked name that is neither allowed nor overridden gets no address at
      all while the tenant filters, cached or not. */
  lemma BlockedNeverAnswered(c: Config, v: View, s: State, r: Request, t: Times, up: Option<Msg>, cache: Table,
                             up': Option<Msg>)
    requires Past(s.cache, t.get) && Past(cache, t.get) && |r.msg.question| == 1
    ensures BlockedFor(v, r, t.unix) ==> NeverAsks(c, v, s, r, t, up, cache, up', None)
  {
    var tenant := TenantSeen(v.atTenant, r.id);
    if BlockedFor(v, r, t.unix) {
      if tenant.Some? { BlockedVerdict(c, v, r, tenant.value, t.unix); }
      ResolvedHere(c, v, s, r, t, up, cache, up', None);
    }
  }

  /** What every run of a limiter keeps: buckets in range, none filled after `now`. */
  ghost predicate FilledBy(c: Config, m: RateModel.Buckets, now: real) {
    c.limits.Some? ==> c.limits.value.qps > 0.0 && RateModel.BucketsOk(c.limits.value, m, now)
  }

  /** A well-formed query is turned away exactly when its tenant is unknown,
      revoked or lapsed, or over its rate, which is to say that its tokens, as
      refilled by then, do not reach one. It gets REFUSED and no answer; no probe
      is noted and the cache is not read; and nothing is charged, nor any bucket
      touched, unless there is an active tenant to charge. */
  lemma TurnedAwayIff(c: Config, v: View, s: State, r: Request, t: Times, up: Option<Msg>)
    requires Past(s.cache, t.get) && ValidRequest(r)
    ensures var tenant, res := TenantSeen(v.atTenant, r.id), ResolveIn(c, v, s, r, t, up);
      && (res.out == Denied <==> !Active(tenant, t.unix))
      && (res.out == OverRate <==> Active(tenant, t.unix) && !Admit(c, s.buckets, tenant.value.routeID, t.allow).1)
      && (FilledBy(c, s.buckets, t.allow) ==>
            (res.out == OverRate <==>
               && Active(tenant, t.unix) && c.limits.Some?
               && RateModel.Tokens(c.limits.value, s.buckets, tenant.value.routeID, t.allow) < 1.0))
      && (res.out == Denied || res.out == OverRate ==>
            && res.reply.rcode == Rcode.Refused && res.reply.answer == []
            && res.state.cache == s.cache && res.state.probes == s.probes)
      && (res.out == Denied ==> res.state == s && res.sample == None)
  {
    var tenant := TenantSeen(v.atTenant, r.id);
    if Active(tenant, t.unix) {
      var rid := tenant.value.routeID;
      if FilledBy(c, s.buckets, t.allow) && c.limits.Some? {
        RateModel.AllowExact(c.limits.value, s.buckets, rid, t.allow, t.allow);
      }
      ConcludedOuts(c, s, r, rid, Admit(c, s.buckets, rid, t.allow), Judge(c, v, r, tenant.value, t.unix), t, up);
    }
  }

  lemma ConcludedOuts(c: Config, s: State, r: Request, rid: string, adm: (RateModel.Buckets, bool), verdict: Verdict,
                      t: Times, up: Option<Msg>)
    requires Past(s.cache, t.get) && |r.msg.question| == 1
    ensures var res := Conclude(c, s, r, rid, adm, verdict, t, up);
      && (res.out == OverRate <==> !adm.1) && res.out != Denied
      && (!adm.1 ==> res.reply.rcode == Rcode.Refused && res.reply.answer == []
                     && res.state.cache == s.cache && res.state.probes == s.probes)
  {}

  /** The hit an admitted probe leaves. */
  predicate AdmittedProbe(c: Config, v: View, s: State, r: Request, t: Times, nonce: string) {
    var tenant := TenantSeen(v.atTenant, r.id);
    && ValidRequest(r) && c.zone.Some? && Probe.IsNonce(nonce) && Normalize(Asked(r)) == nonce + "." + c.zone.value
    && Active(tenant, t.unix) && Admit(c, s.buckets, tenant.value.routeID, t.allow).1
  }

  function HitOf(v: View, r: Request, t: Times): Probe.ProbeHit
    requires TenantSeen(v.atTenant, r.id).Some?
  {
    Probe.ProbeHit(TenantSeen(v.atTenant, r.id).value.routeID, t.probe, r.id.via)
  }

  lemma ProbeIsNoted(c: Config, v: View, s: State, r: Request, t: Times, up: Option<Msg>, nonce: string)
    requires Past(s.cache, t.get) && AdmittedProbe(c, v, s, r, t, nonce)
    ensures var res := ResolveIn(c, v, s, r, t, up);
      && res.state.probes == Probe.RecordIn(s.probes, nonce, HitOf(v, r, t))
      && res.reply.rcode == NXDomain && res.reply.answer == []
  {
    Probe.NonceExact(c.zone.value, Asked(r), nonce);
  }

  /** A probe query is answered NXDOMAIN and can be read back as its own tenant's,
      whatever probes came before: until its nonce is used again, a Lookup finds
      it exactly for two minutes, however many other probes come in between. */
  lemma ProbeIsFound(c: Config, v: View, s: State, r: Request, t: Times, up: Option<Msg>, nonce: string,
                     before: seq<Probe.Event>, between: seq<Probe.Event>, now: int)
    requires Past(s.cache, t.get) && AdmittedProbe(c, v, s, r, t, nonce)
    requires s.probes == Probe.SeenAfter(before, |before|)
    requires Probe.LeftAlone(before, nonce, HitOf(v, r, t), between, now)
    ensures var hit, res := HitOf(v, r, t), ResolveIn(c, v, s, r, t, up);
      var probed := before + [Probe.Recorded(nonce, hit)];
      && res.reply.rcode == NXDomain && res.reply.answer == []
      && res.state.probes == Probe.SeenAfter(probed, |probed|)
      && Probe.Found(probed + between, nonce, now) == if now - t.probe <= 120_000_000_000 then Some(hit) else None
  {
    ProbeIsNoted(c, v, s, r, t, up, nonce);
    Probe.FoundAfter(before, nonce, HitOf(v, r, t), between, now);
  }

  predicate Echoes(reply: Msg, req: Msg) { reply.id == req.id && reply.question == req.question }

  lemma RedirectEchoes(c: Config, v: View, r: Request, tenant: Tenant, unix: int)
    requires |r.msg.question| == 1 && Judge(c, v, r, tenant, unix).Redirect?
    ensures Echoes(Judge(c, v, r, tenant, unix).reply, r.msg)
  {
    assert r.msg.question[..1] == r.msg.question;
  }

  lemma CarryEchoes(c: Config, s: State, r: Request, rid: string, verdict: Verdict, t: Times, up: Option<Msg>)
    requires Past(s.cache, t.get) && |r.msg.question| == 1 && (verdict.Redirect? ==> Echoes(verdict.reply, r.msg))
    ensures var res := Carry(c, s, r, rid, verdict, t, up);
      res.reply.id == r.msg.id && (res.out != Fetched ==> Echoes(res.reply, r.msg))
  {
    assert r.msg.question[..1] == r.msg.question;
  }

  /** A reply carries the id of its own request, and its question, whether made
      here or taken from the cache. Only an upstream's reply keeps its own
      question, and only a request that is no single question is cut to its first. */
  lemma ReplyEchoes(c: Config, v: View, s: State, r: Request, t: Times, up: Option<Msg>)
    requires Past(s.cache, t.get)
    ensures var res := ResolveIn(c, v, s, r, t, up);
      && res.reply.id == r.msg.id
      && (|r.msg.question| == 1 && res.out != Fetched ==> res.reply.question == r.msg.question)
      && (|r.msg.question| != 1 ==> res.reply.rcode == FormErr && |res.reply.question| <= 1)
  {
    var tenant := TenantSeen(v.atTenant, r.id);
    if |r.msg.question| == 1 {
      assert r.msg.question[..1] == r.msg.question;
      if Active(tenant, t.unix) {
        var verdict := Judge(c, v, r, tenant.value, t.unix);
        if verdict.Redirect? { RedirectEchoes(c, v, r, tenant.value, t.unix); }
        var rid := tenant.value.routeID;
        CarryEchoes(c, s.(buckets := Admit(c, s.buckets, rid, t.allow).0), r, rid, verdict, t, up);
      }
    }
  }

  predicate LookedUp(out: Outcome) { out == FromCache || out == Fetched || out == Failed }

  /** A query that gets past policy is answered by the lookup of its question. */
  ghost predicate ByLookup(c: Config, res: Result, s: State, r: Request, t: Times, up: Option<Msg>)
    requires Past(s.cache, t.get) && |r.msg.question| == 1
  {
    var l := Lookup(c, s, r, "", t, up);
    res.out == l.out && res.reply == l.reply && res.state.cache == l.state.cache
  }

  lemma LookupForAnyone(c: Config, s: State, m: RateModel.Buckets, r: Request, rid: string, t: Times, up: Option<Msg>)
    requires Past(s.cache, t.get) && |r.msg.question| == 1
    ensures ByLookup(c, Lookup(c, s.(buckets := m), r, rid, t, up), s, r, t, up)
  {}

  lemma CarriedByLookup(c: Config, s: State, m: RateModel.Buckets, r: Request, rid: string, verdict: Verdict,
                        t: Times, up: Option<Msg>)
    requires Past(s.cache, t.get) && |r.msg.question| == 1
    ensures var res := Carry(c, s.(buckets := m), r, rid, verdict, t, up);
      LookedUp(res.out) ==> ByLookup(c, res, s, r, t, up)
  {
    LookupForAnyone(c, s, m, r, rid, t, up);
  }

  lemma ReachesLookup(c: Config, v: View, s: State, r: Request, t: Times, up: Option<Msg>)
    requires Past(s.cache, t.get)
    ensures var res := ResolveIn(c, v, s, r, t, up);
      LookedUp(res.out) ==> |r.msg.question| == 1 && ByLookup(c, res, s, r, t, up)
  {
    var tenant := TenantSeen(v.atTenant, r.id);
    if ValidRequest(r) && Active(tenant, t.unix) {
      var rid := tenant.value.routeID;
      CarriedByLookup(c, s, Admit(c, s.buckets, rid, t.allow).0, r, rid, Judge(c, v, r, tenant.value, t.unix), t, up);
    }
  }

  /** A reply counted down by some seconds, in all its sections. */
  ghost predicate CountedDown(reply: Msg, first: Msg, seconds: nat) {
    && reply.rcode == first.rcode && reply.answer == AdjustAll(first.answer, seconds)
    && reply.ns == AdjustAll(first.ns, seconds) && reply.extra == AdjustAll(first.extra, seconds)
  }

  lemma LookedUpAgain(c: Config, s: State, r: Request, t: Times, up: Option<Msg>,
                      s': State, r': Request, t': Times, up': Option<Msg>)
    requires Past(s.cache, t.get) && Past(s'.cache, t'.get) && |r.msg.question| == |r'.msg.question| == 1
    requires CacheKey(c.names, r.msg.question[0]) == CacheKey(c.names, r'.msg.question[0])
    requires Lookup(c, s, r, "", t, up).out == Fetched && !up.value.truncated
    requires s'.cache == Lookup(c, s, r, "", t, up).state.cache
    requires t.put <= t'.get <= t.put + Life(Unbound(c, up.value, Asked(r)))
    ensures var first, again := Lookup(c, s, r, "", t, up).reply, Lookup(c, s', r', "", t', up');
      again.out == FromCache && CountedDown(again.reply, first, (t'.get - t.put) / SECOND)
  {}

  /** What one tenant's query fetched, any tenant's query for the same key that
      gets past policy gets from the cache, for as long as the entry lives and
      whatever the upstream would say by then: all the same records, counted
      down. */
  lemma FetchedIsServedAgain(c: Config, v: View, s: State, r: Request, t: Times, up: Msg,
                             v': View, s': State, r': Request, t': Times, up': Option<Msg>)
    requires Past(s.cache, t.get) && Past(s'.cache, t'.get) && |r.msg.question| == |r'.msg.question| == 1
    requires CacheKey(c.names, r.msg.question[0]) == CacheKey(c.names, r'.msg.question[0])
    requires ResolveIn(c, v, s, r, t, Some(up)).out == Fetched && !up.truncated
    requires s'.cache == ResolveIn(c, v, s, r, t, Some(up)).state.cache
    requires t.put <= t'.get <= t.put + Life(Unbound(c, up, Asked(r)))
    ensures var first, again := ResolveIn(c, v, s, r, t, Some(up)), ResolveIn(c, v', s', r', t', up');
      LookedUp(again.out) ==> again.out == FromCache && CountedDown(again.reply, first.reply, (t'.get - t.put) / SECOND)
  {
    ReachesLookup(c, v, s, r, t, Some(up));
    ReachesLookup(c, v', s', r', t', up');
    LookedUpAgain(c, s, r, t, Some(up), s', r', t', up');
  }

  // ---- no rebinding ----

  /** Free of private addresses, unless the policy is off or the name exempt. */
  ghost predicate Clean(c: Config, msg: Msg, name: string) {
    c.rebind.enabled && !IsExempt(c.rebind, name) ==> forall rr :: rr in msg.answer ==> !PrivateBytes(rr.data)
  }

  /** A message fit to be kept under `key`, whoever may ask for it. */
  ghost predicate CleanUnder(c: Config, key: string, msg: Msg) {
    forall q :: CacheKey(c.names, q) == key ==> Clean(c, msg, Normalize(q.name))
  }

  ghost predicate CleanTable(c: Config, m: Table) {
    forall k :: k in m ==> CleanUnder(c, k, m[k].msg)
  }

  lemma FilteredIsCleanUnder(c: Config, q: Question, msg: Msg, answer: seq<RR>)
    requires NoBars(c.names) && msg.answer == Filtered(answer, Normalize(q.name), c.rebind)
    ensures Clean(c, msg, Normalize(q.name)) && CleanUnder(c, CacheKey(c.names, q), msg)
  {
    FilteredIsClean(answer, Normalize(q.name), c.rebind);
    forall p | CacheKey(c.names, p) == CacheKey(c.names, q) ensures Normalize(p.name) == Normalize(q.name) {
      KeysAgree(c.names, p, q);
    }
    assert c.rebind.enabled && !IsExempt(c.rebind, Normalize(q.name)) ==>
      forall rr :: rr in msg.answer ==> multiset(msg.answer)[rr] > 0;
  }

  /** Counting down TTLs neither adds nor changes an address. */
  lemma ServedIsClean(c: Config, e: Entry, now: int, key: string)
    requires e.storedAt <= now && Hit(e, now).Some? && CleanUnder(c, key, e.msg)
    ensures CleanUnder(c, key, Hit(e, now).value)
  {
    var msg := Hit(e, now).value;
    forall rr | rr in msg.answer ensures exists from :: from in e.msg.answer && from.data == rr.data {
      var i :| 0 <= i < |msg.answer| && msg.answer[i] == rr;
      assert e.msg.answer[i] in e.msg.answer && AddressIn(rr) == AddressIn(e.msg.answer[i]);
    }
    forall q | CacheKey(c.names, q) == key ensures Clean(c, msg, Normalize(q.name)) {
      assert Clean(c, e.msg, Normalize(q.name));
    }
  }

  lemma LookupStaysClean(c: Config, s: State, r: Request, rid: string, t: Times, up: Option<Msg>)
    requires Past(s.cache, t.get) && NoBars(c.names) && CleanTable(c, s.cache) && |r.msg.question| == 1
    ensures var res := Lookup(c, s, r, rid, t, up);
      CleanTable(c, res.state.cache) && Clean(c, res.reply, Asked(r))
  {
    var q := r.msg.question[0];
    var key := CacheKey(c.names, q);
    var (m, hit) := GetIn(s.cache, key, t.get);
    assert CleanTable(c, m);
    if hit.Some? {
      ServedIsClean(c, s.cache[key], t.get, key);
    } else if up.Some? {
      FilteredIsCleanUnder(c, q, Unbound(c, up.value, Normalize(q.name)), up.value.answer);
    }
  }

  lemma CarryStaysClean(c: Config, s: State, r: Request, rid: string, verdict: Verdict, t: Times, up: Option<Msg>)
    requires Past(s.cache, t.get) && NoBars(c.names) && CleanTable(c, s.cache) && |r.msg.question| == 1
    ensures var res := Carry(c, s, r, rid, verdict, t, up);
      CleanTable(c, res.state.cache) && (res.out != Redirected ==> Clean(c, res.reply, Asked(r)))
  {
    LookupStaysClean(c, s, r, rid, t, up);
  }

  /** Every query keeps the cache clean, and every reply but a redirect is clean
      for the name it was asked. */
  lemma ResolveStaysClean(c: Config, v: View, s: State, r: Request, t: Times, up: Option<Msg>)
    requires Past(s.cache, t.get) && NoBars(c.names) && CleanTable(c, s.cache)
    ensures var res := ResolveIn(c, v, s, r, t, up);
      && CleanTable(c, res.state.cache)
      && (|r.msg.question| == 1 && res.out != Redirected ==> Clean(c, res.reply, Asked(r)))
  {
    var tenant := TenantSeen(v.atTenant, r.id);
    if |r.msg.question| == 1 && Active(tenant, t.unix) {
      var rid := tenant.value.routeID;
      var z := s.(buckets := Admit(c, s.buckets, rid, t.allow).0);
      CarryStaysClean(c, z, r, rid, Judge(c, v, r, tenant.value, t.unix), t, up);
    }
  }

  /** Only what the pipeline stores is ever stored. */
  ghost predicate FromPipeline(c: Config, evs: seq<Event>) {
    forall i :: 0 <= i < |evs| && evs[i].Stored? ==>
      exists q, answer :: evs[i].key == CacheKey(c.names, q)
                       && evs[i].msg.answer == Filtered(answer, Normalize(q.name), c.rebind)
  }

  lemma {:induction false} LastPutClean(c: Config, evs: seq<Event>, key: string)
    requires NoBars(c.names) && FromPipeline(c, evs)
    ensures LastPut(evs, key).Some? ==> CleanUnder(c, key, LastPut(evs, key).value.msg)
  {
    if evs != [] {
      var n := |evs| - 1;
      var e := evs[n];
      if e.Stored? && e.key == key {
        var q, answer :| e.key == CacheKey(c.names, q) && e.msg.answer == Filtered(answer, Normalize(q.name), c.rebind);
        FilteredIsCleanUnder(c, q, e.msg, answer);
      }
      LastPutClean(c, evs[..n], key);
    }
  }

  /** In every interleaving of Gets, Puts and sweeps: all that the cache holds,
      and all that any Get answers, is clean for every question of its key. */
  lemma CacheAlwaysClean(c: Config, evs: seq<Event>, read: nat, now: int)
    requires NoBars(c.names) && FromPipeline(c, evs)
    ensures CleanTable(c, After(evs).table)
    ensures var (_, hit) := Step(After(evs), ReadEnded(read, now));
      hit.Some? ==> read < |After(evs).gets| && CleanUnder(c, After(evs).gets[read].value.key, hit.value)
  {
    AlwaysFaithful(evs);
    forall k | k in After(evs).table ensures CleanUnder(c, k, After(evs).table[k].msg) { LastPutClean(c, evs, k); }
    var (_, hit) := Step(After(evs), ReadEnded(read, now));
    if hit.Some? {
      var g := After(evs).gets[read].value;
      LastPutClean(c, evs[..g.at], g.key);
      ServedIsClean(c, g.entry, now, g.key);
    }
  }

  // ---- tenants do not interfere ----

  /** Two policies that differ only in what belongs to others than `rid`. */
  ghost predicate SameFor(v: View, v': View, rid: string) {
    && Rules(v.atAllowed.allow, ToLower(rid)) == Rules(v'.atAllowed.allow, ToLower(rid))
    && Rules(v.atAllowed.allow, GLOBAL) == Rules(v'.atAllowed.allow, GLOBAL)
    && Answers(v.atOverride.over, ToLower(rid)) == Answers(v'.atOverride.over, ToLower(rid))
    && Answers(v.atOverride.over, GLOBAL) == Answers(v'.atOverride.over, GLOBAL)
    && v.blocklist == v'.blocklist
  }

  ghost predicate AgreeAt<T>(m: map<string, T>, m': map<string, T>, k: string) {
    (k in m <==> k in m') && (k in m ==> m[k] == m'[k])
  }

  /** The parts of the state a query of tenant `rid` may look at. */
  ghost predicate AgreeOn(s: State, s': State, rid: string) {
    AgreeAt(s.buckets, s'.buckets, rid) && s.cache == s'.cache
  }

  /** The tenant a query is charged to. */
  function Charged(v: View, r: Request): string {
    var tenant := TenantSeen(v.atTenant, r.id);
    if tenant.Some? then tenant.value.routeID else ""
  }

  ghost predicate Alike(a: Result, b: Result, rid: string) {
    && a.reply == b.reply && a.out == b.out && a.tallied == b.tallied && a.sample == b.sample
    && AgreeOn(a.state, b.state, rid)
  }

  /** The limiter looks at, and changes, one tenant's bucket. */
  lemma AdmitIsolated(c: Config, m: RateModel.Buckets, m': RateModel.Buckets, rid: string, now: real)
    requires AgreeAt(m, m', rid)
    ensures Admit(c, m, rid, now).1 == Admit(c, m', rid, now).1
    ensures AgreeAt(Admit(c, m, rid, now).0, Admit(c, m', rid, now).0, rid)
    ensures forall other :: other != rid ==> AgreeAt(Admit(c, m, rid, now).0, m, other)
  {}

  lemma LookupIsolated(c: Config, s: State, s': State, r: Request, rid: string, t: Times, up: Option<Msg>)
    requires Past(s.cache, t.get) && |r.msg.question| == 1 && AgreeOn(s, s', rid)
    ensures Alike(Lookup(c, s, r, rid, t, up), Lookup(c, s', r, rid, t, up), rid)
  {}

  lemma CarryIsolated(c: Config, s: State, s': State, r: Request, rid: string, verdict: Verdict, t: Times,
                      up: Option<Msg>)
    requires Past(s.cache, t.get) && |r.msg.question| == 1 && AgreeOn(s, s', rid)
    ensures Alike(Carry(c, s, r, rid, verdict, t, up), Carry(c, s', r, rid, verdict, t, up), rid)
  {
    LookupIsolated(c, s, s', r, rid, t, up);
  }

  lemma ConcludeIsolated(c: Config, s: State, s': State, r: Request, rid: string, adm: (RateModel.Buckets, bool),
                         adm': (RateModel.Buckets, bool),
                         verdict: Verdict, t: Times, up: Option<Msg>)
    requires Past(s.cache, t.get) && |r.msg.question| == 1 && AgreeOn(s, s', rid) && AgreeAt(adm.0, adm'.0, rid)
    requires adm.1 == adm'.1
    ensures Alike(Conclude(c, s, r, rid, adm, verdict, t, up), Conclude(c, s', r, rid, adm', verdict, t, up), rid)
  {
    CarryIsolated(c, s.(buckets := adm.0), s'.(buckets := adm'.0), r, rid, verdict, t, up);
  }

  lemma JudgeIsolated(c: Config, v: View, v': View, r: Request, tenant: Tenant, unix: int)
    requires |r.msg.question| == 1 && SameFor(v, v', tenant.routeID)
    ensures Judge(c, v, r, tenant, unix) == Judge(c, v', r, tenant, unix)
  {}

  lemma IdentifyIsolated(c: Config, v: View, v': View, s: State, s': State, r: Request, tenant: Tenant, t: Times,
                         up: Option<Msg>)
    requires Past(s.cache, t.get) && |r.msg.question| == 1 && SameFor(v, v', tenant.routeID)
    requires AgreeOn(s, s', tenant.routeID)
    ensures Alike(Identify(c, v, s, r, Some(tenant), t, up), Identify(c, v', s', r, Some(tenant), t, up),
                  tenant.routeID)
  {
    var rid := tenant.routeID;
    AdmitIsolated(c, s.buckets, s'.buckets, rid, t.allow);
    JudgeIsolated(c, v, v', r, tenant, t.unix);
    ConcludeIsolated(c, s, s', r, rid, Admit(c, s.buckets, rid, t.allow), Admit(c, s'.buckets, rid, t.allow),
                     Judge(c, v, r, tenant, t.unix), t, up);
  }

  /** Non-interference. For a query identified by its SNI route, other tenants'
      rows, allowlists, overrides and rate buckets, and anyone's probes, change
      nothing: not the reply, not the outcome, not what is counted and recorded,
      not the cache and not the tenant's own bucket. */
  lemma TenantIsolated(c: Config, v: View, v': View, s: State, s': State, r: Request, t: Times, up: Option<Msg>)
    requires Past(s.cache, t.get) && r.id.via != "ip"
    requires TenantOf(v.atTenant, r.id.routeID) == TenantOf(v'.atTenant, r.id.routeID)
    requires SameFor(v, v', Charged(v, r)) && AgreeOn(s, s', Charged(v, r))
    ensures Alike(ResolveIn(c, v, s, r, t, up), ResolveIn(c, v', s', r, t, up), Charged(v, r))
  {
    var tenant := TenantOf(v.atTenant, r.id.routeID);
    if |r.msg.question| == 1 && tenant.Some? {
      IdentifyIsolated(c, v, v', s, s', r, tenant.value, t, up);
    }
  }

  lemma LookupChargesOnly(c: Config, s: State, r: Request, rid: string, t: Times, up: Option<Msg>)
    requires Past(s.cache, t.get) && |r.msg.question| == 1
    ensures var res := Lookup(c, s, r, rid, t, up);
      res.state.buckets == s.buckets && res.sample.Some? && res.sample.value.routeID == rid
  {}

  lemma CarryChargesOnly(c: Config, s: State, r: Request, rid: string, verdict: Verdict, t: Times, up: Option<Msg>)
    requires Past(s.cache, t.get) && |r.msg.question| == 1
    ensures var res := Carry(c, s, r, rid, verdict, t, up);
      res.state.buckets == s.buckets && res.sample.Some? && res.sample.value.routeID == rid
  {
    LookupChargesOnly(c, s, r, rid, t, up);
  }

  /** And conversely a query charges no other tenant, and leaves their buckets. */
  lemma OthersUntouched(c: Config, v: View, s: State, r: Request, t: Times, up: Option<Msg>, other: string)
    requires Past(s.cache, t.get) && other != Charged(v, r)
    ensures var res := ResolveIn(c, v, s, r, t, up);
      AgreeAt(res.state.buckets, s.buckets, other) && (res.sample.Some? ==> res.sample.value.routeID != other)
  {
    var tenant := TenantSeen(v.atTenant, r.id);
    if |r.msg.question| == 1 && Active(tenant, t.unix) {
      var rid := tenant.value.routeID;
      AdmitIsolated(c, s.buckets, s.buckets, rid, t.allow);
      var verdict := Judge(c, v, r, tenant.value, t.unix);
      CarryChargesOnly(c, s.(buckets := Admit(c, s.buckets, rid, t.allow).0), r, rid, verdict, t, up);
    }
  }
}
