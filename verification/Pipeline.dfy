/** resolver/resolve.go: one query through the policy pipeline, and what it
    leaves behind in the metrics, limiter, usage table, probes and cache. */
module Pipeline {
  import opened GoStrings
  import opened Netip
  import opened Domain
  import opened Dns
  import opened Policy
  import opened Rebind
  import opened CacheModel
  import opened Upstream
  import opened Counters
  import Probe
  import RateModel
  import Usage
  import Limiter
  import Bind

  datatype Identity = Identity(routeID: string, ip: string, via: string, srcIP: string)

  /** A request as it arrives, with the library's verdict on the name asked for. */
  datatype Request = Request(msg: Msg, isDomainName: bool, id: Identity)

  /** What is fixed while the resolver runs. No limits and no zone stand for a
      nil limiter and a nil recorder. */
  datatype Config = Config(names: Names, limits: Option<RateModel.Limits>, zone: Option<string>, rebind: RebindPolicy)

  /** The policy one query saw. Each lookup loads the snapshot afresh, so a
      reload may fall between any two of them. */
  datatype View = View(atTenant: Snapshot, atAllowed: Snapshot, atOverride: Snapshot, blocklist: set<string>)

  /** The clock readings of one query, in the units of whoever takes them. */
  datatype Times = Times(unix: int, allow: real, probe: int, record: nat, get: int, put: int)

  datatype State = State(buckets: RateModel.Buckets, probes: Probe.Seen, cache: Table)

  /** How a query ended. */
  datatype Outcome = Rejected | Denied | OverRate | Probed | Redirected | Sunk | FromCache | Fetched | Failed

  /** What a query answers, adds to the metrics, records as usage and leaves. */
  datatype Result = Result(reply: Msg, out: Outcome, tallied: Metrics, sample: Option<Usage.Sample>, state: State)

  // ---- replies made here ----

  /** `SetReply` and `SetRcode`: the first question, if there is one, is echoed. */
  function Synth(req: Msg, rcode: Rcode, answer: seq<RR>, ns: seq<RR>): Msg {
    Msg(req.id, if req.question == [] then [] else req.question[..1], rcode, false, answer, ns, [])
  }

  const BLOCK_SOA := RR(TYPE_SOA, 60, Other([]))

  const OVERRIDE_TTL: U32 := 60

  /** overrideReply; None when the type is left to the normal path. */
  function OverrideReply(req: Msg, q: Question, addr: Addr): Option<Msg> {
    if q.qtype == TYPE_A then
      Some(Synth(req, NoError, if addr.V4? then [RR(TYPE_A, OVERRIDE_TTL, A(addr.o4))] else [], []))
    else if q.qtype == TYPE_AAAA then
      Some(Synth(req, NoError,
                 if addr.V6? && !Is4In6(addr) then [RR(TYPE_AAAA, OVERRIDE_TTL, AAAA(addr.o16))] else [], []))
    else if q.qtype == TYPE_HTTPS || q.qtype == TYPE_SVCB then Some(Synth(req, NoError, [], []))
    else None
  }

  predicate ValidQuestion(q: Question, isDomainName: bool) {
    0 < |q.name| <= 255 && q.qclass == CLASS_INET && isDomainName
  }

  // ---- one query, on values ----

  function Use(rid: string, blocked: bool, overridden: bool, throttled: bool, t: Times): Option<Usage.Sample> {
    Some(Usage.Sample(rid, blocked, overridden, throttled, t.record))
  }

  function TenantSeen(snap: Snapshot, id: Identity): Option<Tenant> {
    if id.via == "ip" then TenantByIPOf(snap, id.ip) else TenantOf(snap, id.routeID)
  }

  ghost predicate IsAllowed(snap: Snapshot, rid: string, name: string) {
    Covered(Rules(snap.allow, ToLower(rid)) + Rules(snap.allow, GLOBAL), Normalize(name))
  }

  /** The limiter's word on one more query. */
  function Admit(c: Config, m: RateModel.Buckets, rid: string, now: real): (RateModel.Buckets, bool) {
    if c.limits == None then (m, true) else RateModel.AllowIn(c.limits.value, m, rid, now)
  }

  /** An upstream reply without what it may not answer for this name. */
  function Unbound(c: Config, msg: Msg, name: string): (r: Msg)
    ensures |r.answer| <= |msg.answer|
  {
    FilteredShrinks(msg.answer, name, c.rebind);
    msg.(answer := Filtered(msg.answer, name, c.rebind))
  }

  function Drops(n: nat): Metrics { multiset{}[Stripped := n] }

  /** The answer to the policy's redirect, where there is one and it applies. */
  function RedirectFor(snap: Snapshot, rid: string, name: string, req: Msg, q: Question): Option<Msg> {
    match OverrideOf(snap, rid, name)
    case None => None
    case Some(addr) => OverrideReply(req, q, addr)
  }

  function Counted(m: Metric, res: Result): Result { res.(tallied := multiset{m} + res.tallied) }

  /** Resolve: every query is counted, whatever becomes of it. */
  ghost function ResolveIn(c: Config, v: View, s: State, r: Request, t: Times, up: Option<Msg>): Result
    requires Past(s.cache, t.get)
  {
    Counted(Queries, Screen(c, v, s, r, t, up))
  }

  predicate ValidRequest(r: Request) { |r.msg.question| == 1 && ValidQuestion(r.msg.question[0], r.isDomainName) }

  /** Anything but one well-formed question is turned away. */
  ghost function Screen(c: Config, v: View, s: State, r: Request, t: Times, up: Option<Msg>): Result
    requires Past(s.cache, t.get)
  {
    if ValidRequest(r) then Identify(c, v, s, r, TenantSeen(v.atTenant, r.id), t, up)
    else Result(Synth(r.msg, FormErr, [], []), Rejected, multiset{Malformed}, None, s)
  }

  /** Unknown and lapsed tenants are refused. */
  ghost function Identify(c: Config, v: View, s: State, r: Request, tenant: Option<Tenant>, t: Times,
                          up: Option<Msg>): Result
    requires Past(s.cache, t.get) && |r.msg.question| == 1
  {
    if !Active(tenant, t.unix) then
      Result(Synth(r.msg, Rcode.Refused, [], []), Denied, multiset{Metric.Refused}, None, s)
    else
      var rid := tenant.value.routeID;
      Conclude(c, s, r, rid, Admit(c, s.buckets, rid, t.allow), Judge(c, v, r, tenant.value, t.unix), t, up)
  }

  /** A known tenant's query: the limiter's word first, and then the verdict. */
  ghost function Conclude(c: Config, s: State, r: Request, rid: string, admitted: (RateModel.Buckets, bool),
                          verdict: Verdict, t: Times, up: Option<Msg>): Result
    requires Past(s.cache, t.get) && |r.msg.question| == 1
  {
    var s := s.(buckets := admitted.0);
    if admitted.1 then Carry(c, s, r, rid, verdict, t, up)
    else Result(Synth(r.msg, Rcode.Refused, [], []), OverRate, multiset{Throttled}, Use(rid, false, false, true, t), s)
  }

  /** What policy makes of an admitted query: the first of these that applies. */
  datatype Verdict = Probing(nonce: string) | Allow | Redirect(reply: Msg) | Sink | Pass

  ghost function Judge(c: Config, v: View, r: Request, tenant: Tenant, unix: int): Verdict
    requires |r.msg.question| == 1
  {
    var rid, q := tenant.routeID, r.msg.question[0];
    var name := Normalize(q.name);
    var nonce := Probe.NonceFor(c.zone, name);
    if nonce.Some? then Probing(nonce.value)
    else if IsAllowed(v.atAllowed, rid, name) then Allow
    else
      var redirect := RedirectFor(v.atOverride, rid, name, r.msg, q);
      if redirect.Some? then Redirect(redirect.value)
      else if Filtering(Some(tenant), unix) && Covered(v.blocklist, Normalize(name)) then Sink
      else Pass
  }

  /** Past the limiter: the verdict carried out. */
  ghost function Carry(c: Config, s: State, r: Request, rid: string, verdict: Verdict, t: Times,
                       up: Option<Msg>): Result
    requires Past(s.cache, t.get) && |r.msg.question| == 1
  {
    match verdict
    case Probing(nonce) =>
      var s := s.(probes := Probe.RecordIn(s.probes, nonce, Probe.ProbeHit(rid, t.probe, r.id.via)));
      Result(Synth(r.msg, NXDomain, [], [BLOCK_SOA]), Probed, multiset{}, Use(rid, false, false, false, t), s)
    case Redirect(reply) =>
      Result(reply, Redirected, multiset{Overridden}, Use(rid, false, true, false, t), s)
    case Sink =>
      Result(Synth(r.msg, NXDomain, [], [BLOCK_SOA]), Sunk, multiset{Blocked}, Use(rid, true, false, false, t), s)
    case Allow => Counted(Allowed, Lookup(c, s, r, rid, t, up))
    case Pass => Lookup(c, s, r, rid, t, up)
  }

  /** Past policy: the cache, and then an upstream resolver. */
  ghost function Lookup(c: Config, s: State, r: Request, rid: string, t: Times, up: Option<Msg>): Result
    requires Past(s.cache, t.get) && |r.msg.question| == 1
  {
    var req := r.msg;
    var q := req.question[0];
    var key := CacheKey(c.names, q);
    var use := Use(rid, false, false, false, t);
    var (m, hit) := GetIn(s.cache, key, t.get);
    var s := s.(cache := m);
    if hit.Some? then
      Result(hit.value.(id := req.id, question := req.question), FromCache, multiset{CacheHits}, use, s)
    else if up == None then
      Result(Synth(req, ServFail, [], []), Failed, multiset{Unanswered}, use, s)
    else
      var reply := Unbound(c, up.value, Normalize(q.name));
      Result(reply.(id := req.id), Fetched, multiset{Answered} + Drops(|up.value.answer| - |reply.answer|), use,
             s.(cache := PutIn(m, key, reply, t.put)))
  }
}
