/** resolver/resolve.go:116-313: when each end of a query comes about, said of the
    request, the policy tables and the cache themselves, and what it tells the
    client, the metrics and the usage table. */
module Outcomes {
  import opened GoStrings
  import opened Netip
  import opened Domain
  import opened Dns
  import opened Policy
  import opened Rebind
  import opened CacheModel
  import opened Pipeline
  import opened Counters
  import opened PipelineLaws
  import Probe
  import RateModel
  import Usage

  // ---- what a query meets, in the terms of the tables ----

  /** One question, of a name of 1 to 255 characters that the library takes for a
      domain name, in the Internet class. */
  predicate WellFormed(r: Request) {
    && |r.msg.question| == 1 && 1 <= |r.msg.question[0].name| <= 255
    && r.msg.question[0].qclass == 1 && r.isDomainName
  }

  /** The tenant of a registered address, or of a route whatever its case. */
  ghost predicate Belongs(snap: Snapshot, id: Identity, x: Tenant) {
    exists rid :: rid in snap.tenants && snap.tenants[rid] == x && Identifies(snap, id, rid)
  }

  predicate Identifies(snap: Snapshot, id: Identity, rid: string) {
    if id.via == "ip" then id.ip in snap.byIP && snap.byIP[id.ip] == rid else ToLower(id.routeID) == rid
  }

  /** A query of this tenant, who has paid and is within the rate. */
  ghost predicate Served(c: Config, v: View, s: State, r: Request, t: Times, x: Tenant) {
    Paying(v, r, t, x) && WithinRate(c, s, t, x)
  }

  ghost predicate Paying(v: View, r: Request, t: Times, x: Tenant) {
    WellFormed(r) && Belongs(v.atTenant, r.id, x) && x.status == "active" && t.unix < x.expiresAt
  }

  ghost predicate WithinRate(c: Config, s: State, t: Times, x: Tenant) {
    c.limits.Some? ==> RateModel.AllowIn(c.limits.value, s.buckets, x.routeID, t.allow).1
  }

  ghost predicate IsProbe(c: Config, name: string, nonce: string) {
    c.zone.Some? && Probe.IsNonce(nonce) && Normalize(name) == nonce + "." + c.zone.value
  }

  ghost predicate Probes(c: Config, name: string) { exists nonce :: IsProbe(c, name, nonce) }

  /** The tenant has this rule, or everyone does. */
  predicate RuleOf(allow: map<string, set<string>>, rid: string, rule: string) {
    (ToLower(rid) in allow && rule in allow[ToLower(rid)]) || ("*" in allow && rule in allow["*"])
  }

  ghost predicate Allows(v: View, x: Tenant, name: string) {
    exists rule :: RuleOf(v.atAllowed.allow, x.routeID, rule) && Under(Normalize(name), rule)
  }

  predicate AnswerOf(over: map<string, map<string, Addr>>, rid: string, rule: string) {
    (ToLower(rid) in over && rule in over[ToLower(rid)]) || ("*" in over && rule in over["*"])
  }

  /** Some override covers the name, and is one for this type of question. */
  ghost predicate Redirects(v: View, x: Tenant, name: string, qtype: nat) {
    && qtype in {1, 28, 64, 65}
    && exists rule :: AnswerOf(v.atOverride.over, x.routeID, rule) && Under(Normalize(name), rule)
  }

  /** The tenant wants names blocked now, and this one is listed. */
  ghost predicate Blocks(v: View, x: Tenant, unix: int, name: string) {
    && x.blockAds && x.pausedUntil <= unix
    && exists b :: b in v.blocklist && Under(Normalize(name), b)
  }

  /** The stages a served query may be settled at. */
  ghost predicate Settled(c: Config, v: View, r: Request, t: Times, x: Tenant, stage: Stage)
    requires |r.msg.question| == 1
  {
    var name, qtype := Asked(r), r.msg.question[0].qtype;
    match stage
    case AtDoor => Probes(c, name)
    case ByAllowlist => !Probes(c, name) && Allows(v, x, name)
    case ByOverride => !Probes(c, name) && !Allows(v, x, name) && Redirects(v, x, name, qtype)
    case ByBlocklist =>
      && !Probes(c, name) && !Allows(v, x, name) && !Redirects(v, x, name, qtype)
      && Blocks(v, x, t.unix, name)
    case Unsettled =>
      && !Probes(c, name) && !Allows(v, x, name) && !Redirects(v, x, name, qtype)
      && !Blocks(v, x, t.unix, name)
  }

  // ---- that is what the code looks at ----

  lemma BelongsSeen(snap: Snapshot, id: Identity, x: Tenant)
    ensures Belongs(snap, id, x) <==> TenantSeen(snap, id) == Some(x)
  {
    if TenantSeen(snap, id) == Some(x) {
      var rid := if id.via == "ip" then snap.byIP[id.ip] else ToLower(id.routeID);
      assert rid in snap.tenants && Identifies(snap, id, rid);
    }
  }

  lemma ProbesSeen(c: Config, name: string)
    ensures Probes(c, name) <==> Probe.NonceFor(c.zone, name).Some?
  {
    if c.zone.Some? {
      if Probes(c, name) {
        var nonce :| IsProbe(c, name, nonce);
        Probe.NonceExact(c.zone.value, name, nonce);
      }
      if Probe.NonceFor(c.zone, name).Some? {
        var nonce := Probe.NonceFor(c.zone, name).value;
        Probe.NonceExact(c.zone.value, name, nonce);
        assert IsProbe(c, name, nonce);
      }
    }
  }

  lemma AllowsSeen(v: View, x: Tenant, name: string)
    ensures Allows(v, x, name) <==> IsAllowed(v.atAllowed, x.routeID, name)
  {
    var allow := v.atAllowed.allow;
    var rules := Rules(allow, ToLower(x.routeID)) + Rules(allow, GLOBAL);
    assert forall rule :: rule in rules <==> RuleOf(allow, x.routeID, rule);
  }

  lemma RedirectsSeen(v: View, x: Tenant, name: string, req: Msg, q: Question)
    ensures Redirects(v, x, name, q.qtype) <==> RedirectFor(v.atOverride, x.routeID, name, req, q).Some?
  {
    var over := v.atOverride.over;
    var own, all := Answers(over, ToLower(x.routeID)), Answers(over, GLOBAL);
    OverrideExact(v.atOverride, x.routeID, name);
    assert forall rule :: AnswerOf(over, x.routeID, rule) <==> rule in own || rule in all;
    if OverrideOf(v.atOverride, x.routeID, name).Some? {
      var rule :| Deepest(own, all, Normalize(name), rule);
      assert AnswerOf(over, x.routeID, rule) && Under(Normalize(name), rule);
    }
  }

  lemma BlocksSeen(v: View, x: Tenant, unix: int, name: string)
    ensures Blocks(v, x, unix, name) <==> Filtering(Some(x), unix) && Covered(v.blocklist, Normalize(name))
  {}

  /** What the policy lookups say of a query, stage by stage. */
  lemma JudgedAt(c: Config, v: View, r: Request, t: Times, x: Tenant)
    requires |r.msg.question| == 1
    ensures var verdict := Judge(c, v, r, x, t.unix);
      && (verdict.Probing? <==> Settled(c, v, r, t, x, AtDoor))
      && (verdict.Allow? <==> Settled(c, v, r, t, x, ByAllowlist))
      && (verdict.Redirect? <==> Settled(c, v, r, t, x, ByOverride))
      && (verdict.Sink? <==> Settled(c, v, r, t, x, ByBlocklist))
      && (verdict.Pass? <==> Settled(c, v, r, t, x, Unsettled))
  {
    var name := Asked(r);
    ProbesSeen(c, name);
    AllowsSeen(v, x, name);
    RedirectsSeen(v, x, name, r.msg, r.msg.question[0]);
    BlocksSeen(v, x, t.unix, name);
  }

  // ---- when each end comes about ----

  /** A live entry of the question's key. */
  predicate Cached(c: Config, s: State, r: Request, t: Times)
    requires |r.msg.question| == 1
  {
    var key := CacheKey(c.names, r.msg.question[0]);
    key in s.cache && t.get <= s.cache[key].expires
  }

  lemma LookupTo(c: Config, s: State, r: Request, rid: string, t: Times, up: Option<Msg>)
    requires Past(s.cache, t.get) && |r.msg.question| == 1
    ensures var res := Lookup(c, s, r, rid, t, up);
      && LookedUp(res.out) && res.tallied[Allowed] == 0
      && (res.out == FromCache <==> Cached(c, s, r, t))
      && (res.out == Failed <==> !Cached(c, s, r, t) && up == None)
  {}

  /** How a carried-out verdict ends, in its outcome and its mark of the allowlist. */
  lemma CarriedTo(c: Config, s: State, r: Request, rid: string, verdict: Verdict, t: Times, up: Option<Msg>)
    requires Past(s.cache, t.get) && |r.msg.question| == 1
    ensures var res := Carry(c, s, r, rid, verdict, t, up);
      && (res.out == Probed <==> verdict.Probing?)
      && (res.out == Redirected <==> verdict.Redirect?)
      && (res.out == Sunk <==> verdict.Sink?)
      && (LookedUp(res.out) <==> verdict.Allow? || verdict.Pass?)
      && res.tallied[Allowed] == (if verdict.Allow? then 1 else 0)
      && res.out !in {Rejected, Denied, OverRate}
  {
    if verdict.Allow? || verdict.Pass? { LookupTo(c, s, r, rid, t, up); }
  }

  lemma PayingSeen(v: View, r: Request, t: Times)
    ensures (exists x :: Paying(v, r, t, x)) <==> ValidRequest(r) && Active(TenantSeen(v.atTenant, r.id), t.unix)
    ensures forall x :: Paying(v, r, t, x) ==> TenantSeen(v.atTenant, r.id) == Some(x)
  {
    forall x ensures Belongs(v.atTenant, r.id, x) <==> TenantSeen(v.atTenant, r.id) == Some(x) {
      BelongsSeen(v.atTenant, r.id, x);
    }
    if ValidRequest(r) && Active(TenantSeen(v.atTenant, r.id), t.unix) {
      assert Paying(v, r, t, TenantSeen(v.atTenant, r.id).value);
    }
  }

  /** Who is turned away, and why: a malformed request, a request of nobody who
      has paid, and one over the rate of whoever has. */
  lemma RefusedIff(c: Config, v: View, s: State, r: Request, t: Times, up: Option<Msg>)
    requires Past(s.cache, t.get)
    ensures var out := ResolveIn(c, v, s, r, t, up).out;
      && (out == Rejected <==> !WellFormed(r))
      && (out == Denied <==> WellFormed(r) && !exists x :: Paying(v, r, t, x))
      && (out == OverRate <==> exists x :: Paying(v, r, t, x) && !WithinRate(c, s, t, x))
  {
    PayingSeen(v, r, t);
    var tenant := TenantSeen(v.atTenant, r.id);
    if ValidRequest(r) && Active(tenant, t.unix) {
      var rid := tenant.value.routeID;
      ConcludedOuts(c, s, r, rid, Admit(c, s.buckets, rid, t.allow), Judge(c, v, r, tenant.value, t.unix), t, up);
      CarriedTo(c, s.(buckets := Admit(c, s.buckets, rid, t.allow).0), r, rid,
                Judge(c, v, r, tenant.value, t.unix), t, up);
      assert Paying(v, r, t, tenant.value);
    }
  }

  /** Some paying tenant within its rate asks, and policy settles it at `stage`. */
  ghost predicate EndsAt(c: Config, v: View, s: State, r: Request, t: Times, stage: Stage) {
    exists x :: Served(c, v, s, r, t, x) && Settled(c, v, r, t, x, stage)
  }

  lemma EndsOnly(c: Config, v: View, s: State, r: Request, t: Times, stage: Stage)
    ensures EndsAt(c, v, s, r, t, stage) <==>
      var tenant := TenantSeen(v.atTenant, r.id);
      && ValidRequest(r) && Active(tenant, t.unix) && WithinRate(c, s, t, tenant.value)
      && Settled(c, v, r, t, tenant.value, stage)
  {
    PayingSeen(v, r, t);
    var tenant := TenantSeen(v.atTenant, r.id);
    if ValidRequest(r) && Active(tenant, t.unix) {
      BelongsSeen(v.atTenant, r.id, tenant.value);
      assert Paying(v, r, t, tenant.value);
    }
  }

  lemma IdentifiedTo(c: Config, v: View, s: State, r: Request, x: Tenant, t: Times, up: Option<Msg>)
    requires Past(s.cache, t.get) && |r.msg.question| == 1 && Active(Some(x), t.unix)
    ensures var res, ok := Identify(c, v, s, r, Some(x), t, up), WithinRate(c, s, t, x);
      && (res.out == Probed <==> ok && Settled(c, v, r, t, x, AtDoor))
      && (res.out == Redirected <==> ok && Settled(c, v, r, t, x, ByOverride))
      && (res.out == Sunk <==> ok && Settled(c, v, r, t, x, ByBlocklist))
      && (LookedUp(res.out) <==> ok && (Settled(c, v, r, t, x, ByAllowlist) || Settled(c, v, r, t, x, Unsettled)))
      && res.tallied[Allowed] == (if ok && Settled(c, v, r, t, x, ByAllowlist) then 1 else 0)
  {
    var rid, verdict := x.routeID, Judge(c, v, r, x, t.unix);
    JudgedAt(c, v, r, t, x);
    CarriedTo(c, s.(buckets := Admit(c, s.buckets, rid, t.allow).0), r, rid, verdict, t, up);
  }

  /** How every other query ends: exactly those under the probe zone are probed,
      exactly those overridden, and not allowed, are redirected, exactly those
      listed, for a tenant that has names blocked, and neither allowed nor
      overridden, are blocked, and the rest is looked up, marked as allowed
      exactly if it is. */
  lemma EndsIff(c: Config, v: View, s: State, r: Request, t: Times, up: Option<Msg>)
    requires Past(s.cache, t.get)
    ensures var res := ResolveIn(c, v, s, r, t, up);
      && (res.out == Probed <==> EndsAt(c, v, s, r, t, AtDoor))
      && (res.out == Redirected <==> EndsAt(c, v, s, r, t, ByOverride))
      && (res.out == Sunk <==> EndsAt(c, v, s, r, t, ByBlocklist))
      && (LookedUp(res.out) <==> EndsAt(c, v, s, r, t, ByAllowlist) || EndsAt(c, v, s, r, t, Unsettled))
      && res.tallied[Allowed] == (if EndsAt(c, v, s, r, t, ByAllowlist) then 1 else 0)
  {
    EndsOnly(c, v, s, r, t, AtDoor);
    EndsOnly(c, v, s, r, t, ByAllowlist);
    EndsOnly(c, v, s, r, t, ByOverride);
    EndsOnly(c, v, s, r, t, ByBlocklist);
    EndsOnly(c, v, s, r, t, Unsettled);
    var tenant := TenantSeen(v.atTenant, r.id);
    if ValidRequest(r) && Active(tenant, t.unix) { IdentifiedTo(c, v, s, r, tenant.value, t, up); }
  }

  /** And a lookup ends in the cache exactly if it holds a live entry of the
      question's key, and else fails exactly if no upstream answers. */
  lemma LookedUpIff(c: Config, v: View, s: State, r: Request, t: Times, up: Option<Msg>)
    requires Past(s.cache, t.get) && LookedUp(ResolveIn(c, v, s, r, t, up).out)
    ensures var out := ResolveIn(c, v, s, r, t, up).out;
      && |r.msg.question| == 1
      && (out == FromCache <==> Cached(c, s, r, t))
      && (out == Failed <==> !Cached(c, s, r, t) && up == None)
  {
    ReachesLookup(c, v, s, r, t, up);
    LookupTo(c, s, r, "", t, up);
  }

  // ---- what each end tells ----

  /** The code a client is given by a reply made here. */
  function CodeOf(out: Outcome): Option<Rcode> {
    match out
    case Rejected => Some(FormErr)
    case Denied => Some(Rcode.Refused)
    case OverRate => Some(Rcode.Refused)
    case Probed => Some(NXDomain)
    case Sunk => Some(NXDomain)
    case Redirected => Some(NoError)
    case Failed => Some(ServFail)
    case FromCache => None
    case Fetched => None
  }

  /** The metric of an outcome. */
  function MarkOf(out: Outcome): Option<Metric> {
    match out
    case Rejected => Some(Malformed)
    case Denied => Some(Metric.Refused)
    case OverRate => Some(Throttled)
    case Probed => None
    case Redirected => Some(Overridden)
    case Sunk => Some(Blocked)
    case FromCache => Some(CacheHits)
    case Fetched => Some(Answered)
    case Failed => Some(Unanswered)
  }

  /** Every query counts once, and once under its own outcome and no other; and
      every record that the upstream sent and the client does not get counts as
      stripped. (Allowed is in EndsIff.) */
  ghost predicate Tallied(res: Result, queries: nat, up: Option<Msg>) {
    && res.tallied[Queries] == queries
    && (forall m: Metric :: m !in {Queries, Allowed, Stripped} ==>
          res.tallied[m] == if MarkOf(res.out) == Some(m) then 1 else 0)
    && (if res.out == Fetched then up.Some? && |up.value.answer| == |res.reply.answer| + res.tallied[Stripped]
        else res.tallied[Stripped] == 0)
  }

  /** A reply made here answers nothing, but for a redirect; where it denies the
      name it says so for a minute. */
  ghost predicate Tells(res: Result, r: Request) {
    && (CodeOf(res.out).Some? ==> res.reply.rcode == CodeOf(res.out).value && !res.reply.truncated)
    && (CodeOf(res.out).Some? && res.out != Redirected ==> res.reply.answer == [] && res.reply.extra == [])
    && (res.out == Probed || res.out == Sunk ==> res.reply.ns == [RR(6, 60, Other([]))])
  }

  /** A query is charged to its tenant, with the flag of its outcome. */
  ghost predicate Charges(res: Result, v: View, r: Request, t: Times) {
    if res.out == Rejected || res.out == Denied then res.sample == None
    else exists x ::
      && Paying(v, r, t, x)
      && res.sample == Some(Usage.Sample(x.routeID, res.out == Sunk, res.out == Redirected, res.out == OverRate,
                                         t.record))
  }

  lemma LookupTells(c: Config, s: State, r: Request, rid: string, t: Times, up: Option<Msg>)
    requires Past(s.cache, t.get) && |r.msg.question| == 1
    ensures var res := Lookup(c, s, r, rid, t, up);
      Tells(res, r) && res.sample == Use(rid, false, false, false, t) && LookedUp(res.out) && Tallied(res, 0, up)
  {}

  lemma CountedTells(res: Result, m: Metric, r: Request, up: Option<Msg>)
    requires m in {Queries, Allowed} && Tells(res, r) && Tallied(res, 0, up)
    ensures Tells(Counted(m, res), r) && Tallied(Counted(m, res), if m == Queries then 1 else 0, up)
  {}

  /** The records a redirect answers with: the address itself, for a minute, and
      only in its own family. */
  function Redirection(qtype: nat, addr: Addr): seq<RR> {
    match addr
    case V4(o) => if qtype == 1 then [RR(1, 60, A(o))] else []
    case V6(o) => if qtype == 28 && !Carries4(o) then [RR(28, 60, AAAA(o))] else []
  }

  lemma RedirectTells(req: Msg, q: Question, addr: Addr)
    ensures var reply := OverrideReply(req, q, addr);
      && (reply.Some? <==> q.qtype in {1, 28, 64, 65})
      && (reply.Some? ==> reply.value.rcode == NoError && !reply.value.truncated
                          && reply.value.answer == Redirection(q.qtype, addr)
                          && reply.value.ns == [] && reply.value.extra == [])
  {
    if addr.V6? { CarriesMapped(addr.o16); }
  }

  lemma CarriedTells(c: Config, s: State, r: Request, rid: string, verdict: Verdict, t: Times, up: Option<Msg>)
    requires Past(s.cache, t.get) && |r.msg.question| == 1
    requires verdict.Redirect? ==> verdict.reply.rcode == NoError && !verdict.reply.truncated
    ensures var res := Carry(c, s, r, rid, verdict, t, up);
      && Tells(res, r) && Tallied(res, 0, up) && res.out !in {Rejected, Denied, OverRate}
      && res.sample == Use(rid, res.out == Sunk, res.out == Redirected, false, t)
  {
    if verdict.Allow? || verdict.Pass? {
      LookupTells(c, s, r, rid, t, up);
      CountedTells(Lookup(c, s, r, rid, t, up), Allowed, r, up);
    }
  }

  lemma ConcludedTells(c: Config, s: State, r: Request, rid: string, adm: (RateModel.Buckets, bool), verdict: Verdict,
                       t: Times, up: Option<Msg>)
    requires Past(s.cache, t.get) && |r.msg.question| == 1
    requires verdict.Redirect? ==> verdict.reply.rcode == NoError && !verdict.reply.truncated
    ensures var res := Conclude(c, s, r, rid, adm, verdict, t, up);
      && Tells(res, r) && Tallied(res, 0, up) && res.out !in {Rejected, Denied}
      && res.sample == Use(rid, res.out == Sunk, res.out == Redirected, res.out == OverRate, t)
  {
    if adm.1 { CarriedTells(c, s.(buckets := adm.0), r, rid, verdict, t, up); }
  }

  lemma IdentifiedTells(c: Config, v: View, s: State, r: Request, x: Tenant, t: Times, up: Option<Msg>)
    requires Past(s.cache, t.get) && |r.msg.question| == 1 && Active(Some(x), t.unix)
    ensures var res := Identify(c, v, s, r, Some(x), t, up);
      && Tells(res, r) && Tallied(res, 0, up) && res.out !in {Rejected, Denied}
      && res.sample == Use(x.routeID, res.out == Sunk, res.out == Redirected, res.out == OverRate, t)
  {
    var rid, verdict := x.routeID, Judge(c, v, r, x, t.unix);
    if verdict.Redirect? {
      RedirectTells(r.msg, r.msg.question[0], OverrideOf(v.atOverride, rid, Asked(r)).value);
    }
    ConcludedTells(c, s, r, rid, Admit(c, s.buckets, rid, t.allow), verdict, t, up);
  }

  lemma RedirectIs(c: Config, v: View, s: State, r: Request, x: Tenant, t: Times, up: Option<Msg>)
    requires Past(s.cache, t.get) && |r.msg.question| == 1 && Active(Some(x), t.unix)
    ensures var res, addr := Identify(c, v, s, r, Some(x), t, up), OverrideOf(v.atOverride, x.routeID, Asked(r));
      res.out == Redirected ==>
        && addr.Some? && res.reply.ns == [] && res.reply.extra == []
        && res.reply.answer == Redirection(r.msg.question[0].qtype, addr.value)
  {
    var rid, verdict := x.routeID, Judge(c, v, r, x, t.unix);
    CarriedTo(c, s.(buckets := Admit(c, s.buckets, rid, t.allow).0), r, rid, verdict, t, up);
    if verdict.Redirect? {
      RedirectTells(r.msg, r.msg.question[0], OverrideOf(v.atOverride, rid, Asked(r)).value);
    }
  }

  /** A redirect answers with the address of the longest covering override, the
      tenant's own before everyone's of that name. */
  lemma RedirectedTo(c: Config, v: View, s: State, r: Request, t: Times, up: Option<Msg>)
    returns (x: Tenant, rule: string)
    requires Past(s.cache, t.get) && ResolveIn(c, v, s, r, t, up).out == Redirected
    ensures var over, reply := v.atOverride.over, ResolveIn(c, v, s, r, t, up).reply;
      var own, all := Answers(over, ToLower(x.routeID)), Answers(over, "*");
      && Paying(v, r, t, x) && Deepest(own, all, Normalize(Asked(r)), rule)
      && reply.answer == Redirection(r.msg.question[0].qtype, if rule in own then own[rule] else all[rule])
      && reply.ns == [] && reply.extra == []
  {
    PayingSeen(v, r, t);
    x := TenantSeen(v.atTenant, r.id).value;
    BelongsSeen(v.atTenant, r.id, x);
    RedirectIs(c, v, s, r, x, t, up);
    OverrideExact(v.atOverride, x.routeID, Asked(r));
    var own, all := Answers(v.atOverride.over, ToLower(x.routeID)), Answers(v.atOverride.over, GLOBAL);
    var addr := OverrideOf(v.atOverride, x.routeID, Asked(r)).value;
    rule :| Deepest(own, all, Normalize(Asked(r)), rule) && addr == if rule in own then own[rule] else all[rule];
  }

  /** What a query tells its client, the metrics and the usage table is settled by
      how it ended, and by whose it was. */
  lemma EndsTell(c: Config, v: View, s: State, r: Request, t: Times, up: Option<Msg>)
    requires Past(s.cache, t.get)
    ensures var res := ResolveIn(c, v, s, r, t, up); Tells(res, r) && Tallied(res, 1, up) && Charges(res, v, r, t)
  {
    PayingSeen(v, r, t);
    var tenant := TenantSeen(v.atTenant, r.id);
    if ValidRequest(r) && Active(tenant, t.unix) {
      BelongsSeen(v.atTenant, r.id, tenant.value);
      assert Paying(v, r, t, tenant.value);
      IdentifiedTells(c, v, s, r, tenant.value, t, up);
    }
    CountedTells(Screen(c, v, s, r, t, up), Queries, r, up);
  }

  lemma LookupFetches(c: Config, s: State, r: Request, t: Times, up: Option<Msg>)
    requires Past(s.cache, t.get) && |r.msg.question| == 1
    ensures var res := Lookup(c, s, r, "", t, up);
      res.out == Fetched ==>
        && up.Some? && res.reply == Unbound(c, up.value, Asked(r)).(id := r.msg.id)
        && res.state.cache == PutIn(GetIn(s.cache, CacheKey(c.names, r.msg.question[0]), t.get).0,
                                    CacheKey(c.names, r.msg.question[0]), Unbound(c, up.value, Asked(r)), t.put)
  {}

  /** A fetched reply is the upstream's own, under the request's id, with every
      record of its answer that is not barred as private, and no other; and that,
      unless it was cut off, is what the cache holds for the question from then
      on, as of then. */
  lemma FetchedTells(c: Config, v: View, s: State, r: Request, t: Times, up: Option<Msg>)
    requires Past(s.cache, t.get) && ResolveIn(c, v, s, r, t, up).out == Fetched
    ensures up.Some? && |r.msg.question| == 1
    ensures var reply, heard := ResolveIn(c, v, s, r, t, up).reply, up.value;
      var bars := c.rebind.enabled && !IsExempt(c.rebind, Asked(r));
      && reply == heard.(id := r.msg.id, answer := reply.answer)
      && forall rr ::
           multiset(reply.answer)[rr] == if bars && PrivateBytes(rr.data) then 0 else multiset(heard.answer)[rr]
    ensures var res, key := ResolveIn(c, v, s, r, t, up), CacheKey(c.names, r.msg.question[0]);
      if up.value.truncated then key !in res.state.cache
      else key in res.state.cache && res.state.cache[key].storedAt == t.put
           && res.state.cache[key].msg == res.reply.(id := up.value.id)
  {
    ReachesLookup(c, v, s, r, t, up);
    LookupFetches(c, s, r, t, up);
    LookupTo(c, s, r, "", t, up);
    FilteredIsClean(up.value.answer, Asked(r), c.rebind);
  }
}
