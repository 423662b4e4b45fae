/** The policy lookups of resolver/store.go, resolver/blocklist.go and
    resolver/rebind.go: every one of them walks the suffixes of a name. */
module Policy {
  import opened GoStrings
  import opened Domain
  import opened Netip

  datatype Tenant = Tenant(routeID: string, name: string, status: string,
                           expiresAt: int, blockAds: bool, pausedUntil: int)

  /** `(*Tenant).Active`; a missing tenant is the nil pointer. */
  predicate Active(t: Option<Tenant>, now: int) {
    t.Some? && t.value.status == "active" && t.value.expiresAt > now
  }

  predicate Filtering(t: Option<Tenant>, now: int) {
    t.Some? && t.value.blockAds && t.value.pausedUntil <= now
  }

  datatype Snapshot = Snapshot(
    tenants: map<string, Tenant>,
    byIP: map<string, string>,
    allow: map<string, set<string>>,
    over: map<string, map<string, Addr>>)

  const GLOBAL := "*"

  function Rules(m: map<string, set<string>>, rid: string): set<string> {
    if rid in m then m[rid] else {}
  }

  function Answers(m: map<string, map<string, Addr>>, rid: string): map<string, Addr> {
    if rid in m then m[rid] else map[]
  }

  function TenantOf(snap: Snapshot, routeID: string): Option<Tenant> {
    var rid := ToLower(routeID);
    if rid in snap.tenants then Some(snap.tenants[rid]) else None
  }

  function TenantByIPOf(snap: Snapshot, ip: string): Option<Tenant> {
    if ip in snap.byIP && snap.byIP[ip] in snap.tenants
    then Some(snap.tenants[snap.byIP[ip]]) else None
  }

  /** Some rule of `rules` covers the (normalised) name. */
  ghost predicate Covered(rules: set<string>, name: string) {
    exists r :: r in rules && Under(name, r)
  }

  /** The first suffix of the list for which the tenant or "*" has an answer. */
  function FirstAnswer(own: map<string, Addr>, all: map<string, Addr>, walk: seq<string>): Option<Addr> {
    if walk == [] then None
    else if walk[0] in own then Some(own[walk[0]])
    else if walk[0] in all then Some(all[walk[0]])
    else FirstAnswer(own, all, walk[1..])
  }

  function OverrideOf(snap: Snapshot, routeID: string, name: string): Option<Addr> {
    FirstAnswer(Answers(snap.over, ToLower(routeID)), Answers(snap.over, GLOBAL), Suffixes(name))
  }

  lemma CoveredByWalk(rules: set<string>, name: string)
    ensures Covered(rules, Normalize(name)) <==> exists s :: s in Suffixes(name) && s in rules
  {
    forall r ensures r in Suffixes(name) <==> Under(Normalize(name), r) { SuffixesExact(name, r); }
  }

  /** The snapshot-serving half of SQLiteStore. */
  class PolicyStore {
    var snap: Snapshot

    constructor (s: Snapshot)
      ensures snap == s
    { snap := s; }

    method Allowed(routeID: string, name: string) returns (ok: bool)
      ensures ok <==> Covered(Rules(snap.allow, ToLower(routeID)) + Rules(snap.allow, GLOBAL), Normalize(name))
    {
      var own, all := Rules(snap.allow, ToLower(routeID)), Rules(snap.allow, GLOBAL);
      var walk := DomainSuffixes(name);
      ghost var rules := own + all;
      for i := 0 to |walk|
        invariant forall j :: 0 <= j < i ==> walk[j] !in rules
      {
        if walk[i] in own || walk[i] in all {
          assert walk[i] in rules;
          CoveredByWalk(rules, name);
          return true;
        }
      }
      CoveredByWalk(rules, name);
      return false;
    }

    method Override(routeID: string, name: string) returns (r: Option<Addr>)
      ensures r == OverrideOf(snap, routeID, name)
    {
      var rid := ToLower(routeID);
      var walk := DomainSuffixes(name);
      var own, all := Answers(snap.over, rid), Answers(snap.over, GLOBAL);
      assert walk[0..] == walk;
      for i := 0 to |walk|
        invariant FirstAnswer(own, all, walk) == FirstAnswer(own, all, walk[i..])
      {
        assert walk[i..][1..] == walk[i + 1..];
        if walk[i] in own { return Some(own[walk[i]]); }
        if walk[i] in all { return Some(all[walk[i]]); }
      }
      return None;
    }
  }

  class Blocklist {
    var names: set<string>

    constructor ()
      ensures names == {}
    { names := {}; }

    method Blocked(name: string) returns (b: bool)
      ensures b <==> Covered(names, Normalize(name))
    {
      if |names| == 0 { return false; }
      var walk := DomainSuffixes(name);
      for i := 0 to |walk|
        invariant forall j :: 0 <= j < i ==> walk[j] !in names
      {
        if walk[i] in names {
          CoveredByWalk(names, name);
          return true;
        }
      }
      CoveredByWalk(names, name);
      return false;
    }
  }

  datatype RebindPolicy = RebindPolicy(enabled: bool, allowedSuffixes: seq<string>)

  /** `suffixes` are the non-empty ones of `normal`, each from its place. */
  ghost predicate NonEmptyOf(normal: seq<string>, n: nat, suffixes: seq<string>, from: seq<int>)
    requires n <= |normal|
  {
    && |from| == |suffixes| && (forall k :: 0 <= k < |from| ==> 0 <= from[k] < n)
    && (forall k :: 0 <= k < |from| ==> suffixes[k] != "" && suffixes[k] == normal[from[k]])
    && (forall j :: 0 <= j < n ==> normal[j] == "" || normal[j] in suffixes)
  }

  lemma NonEmptyGrows(normal: seq<string>, n: nat, suffixes: seq<string>, from: seq<int>)
    requires n < |normal| && NonEmptyOf(normal, n, suffixes, from)
    ensures if normal[n] == "" then NonEmptyOf(normal, n + 1, suffixes, from)
            else NonEmptyOf(normal, n + 1, suffixes + [normal[n]], from + [n])
  {
    var more := suffixes + [normal[n]];
    assert more[|suffixes|] == normal[n] && forall s :: s in suffixes ==> s in more;
  }

  lemma NonEmptyAre(configured: seq<string>, normal: seq<string>, suffixes: seq<string>, from: seq<int>, s: string)
    requires |normal| == |configured| && forall i :: 0 <= i < |normal| ==> normal[i] == Normalize(configured[i])
    requires NonEmptyOf(normal, |normal|, suffixes, from)
    ensures s in suffixes <==> s != "" && exists c :: c in configured && Normalize(c) == s
  {
    if s in suffixes {
      var k :| 0 <= k < |suffixes| && suffixes[k] == s;
      assert configured[from[k]] in configured;
    }
    if c :| c in configured && Normalize(c) == s {
      var j :| 0 <= j < |configured| && configured[j] == c;
      assert normal[j] == s;
    }
  }

  /** newRebindPolicy: configured names normalised, empty ones dropped. */
  method NewRebindPolicy(block: bool, configured: seq<string>) returns (p: RebindPolicy)
    ensures p.enabled == block
    ensures "" !in p.allowedSuffixes
    ensures forall s :: s in p.allowedSuffixes <==> s != "" && exists c :: c in configured && Normalize(c) == s
  {
    var suffixes: seq<string> := [];
    ghost var from: seq<int> := [];
    ghost var normal := seq(|configured|, i requires 0 <= i < |configured| => Normalize(configured[i]));
    for i := 0 to |configured|
      invariant NonEmptyOf(normal, i, suffixes, from)
    {
      var n := Normalize(configured[i]);
      NonEmptyGrows(normal, i, suffixes, from);
      if n != "" { suffixes, from := suffixes + [n], from + [i]; }
    }
    p := RebindPolicy(block, suffixes);
    forall s ensures s in suffixes <==> s != "" && exists c :: c in configured && Normalize(c) == s {
      NonEmptyAre(configured, normal, suffixes, from, s);
    }
  }

  /** rebindPolicy.exempt: a scan of all rules with `HasSuffix`, no walk. */
  method Exempt(p: RebindPolicy, name: string) returns (b: bool)
    ensures b <==> IsExempt(p, name)
  {
    var n := Normalize(name);
    for i := 0 to |p.allowedSuffixes|
      invariant forall j :: 0 <= j < i ==> n != p.allowedSuffixes[j] && !HasSuffix(n, "." + p.allowedSuffixes[j])
    {
      var suffix := p.allowedSuffixes[i];
      if n == suffix || HasSuffix(n, "." + suffix) { return true; }
    }
    return false;
  }

  predicate IsExempt(p: RebindPolicy, name: string) {
    exists i | 0 <= i < |p.allowedSuffixes| ::
      Normalize(name) == p.allowedSuffixes[i] || HasSuffix(Normalize(name), "." + p.allowedSuffixes[i])
  }

  /** Scanning every rule with `HasSuffix` (exempt) and walking the suffixes of
      the name (Blocked, Allowed) decide one and the same relation, for every
      rule list that newRebindPolicy can build. */
  lemma ScanEqualsWalk(p: RebindPolicy, name: string)
    requires "" !in p.allowedSuffixes
    ensures IsExempt(p, name) <==> Covered((set s | s in p.allowedSuffixes), Normalize(name))
    ensures IsExempt(p, name) <==> exists s :: s in Suffixes(name) && s in p.allowedSuffixes
  {
    var rules := set s | s in p.allowedSuffixes;
    CoveredByWalk(rules, name);
    if Covered(rules, Normalize(name)) {
      var r :| r in rules && Under(Normalize(name), r);
      var i :| 0 <= i < |p.allowedSuffixes| && p.allowedSuffixes[i] == r;
    }
    if IsExempt(p, name) {
      var i :| 0 <= i < |p.allowedSuffixes|
            && (Normalize(name) == p.allowedSuffixes[i] || HasSuffix(Normalize(name), "." + p.allowedSuffixes[i]));
      assert Under(Normalize(name), p.allowedSuffixes[i]);
    }
    if exists s :: s in Suffixes(name) && s in p.allowedSuffixes {
      var s :| s in Suffixes(name) && s in p.allowedSuffixes;
      assert s in rules;
    }
  }

  // ---- overrides: which rule answers ----

  /** `s` is the most specific name with a rule: it covers the name, and no
      covering rule of either table is written deeper. */
  ghost predicate Deepest(own: map<string, Addr>, all: map<string, Addr>, name: string, s: string) {
    && Under(name, s) && (s in own || s in all)
    && forall r :: Under(name, r) && (r in own || r in all) ==> |r| <= |s|
  }

  predicate HasAnswer(own: map<string, Addr>, all: map<string, Addr>, s: string) { s in own || s in all }

  lemma {:induction false} FirstAnswerNone(own: map<string, Addr>, all: map<string, Addr>, walk: seq<string>)
    requires FirstAnswer(own, all, walk) == None
    ensures forall s :: s in walk ==> !HasAnswer(own, all, s)
  {
    if walk != [] {
      FirstAnswerNone(own, all, walk[1..]);
      assert walk == [walk[0]] + walk[1..];
    }
  }

  lemma {:induction false} FirstAnswerAt(own: map<string, Addr>, all: map<string, Addr>, walk: seq<string>)
    returns (i: nat)
    requires FirstAnswer(own, all, walk).Some?
    ensures i < |walk| && HasAnswer(own, all, walk[i])
    ensures forall j :: 0 <= j < i ==> !HasAnswer(own, all, walk[j])
    ensures FirstAnswer(own, all, walk) == Some(if walk[i] in own then own[walk[i]] else all[walk[i]])
  {
    i := 0;
    if !HasAnswer(own, all, walk[0]) {
      var k := FirstAnswerAt(own, all, walk[1..]);
      i := k + 1;
      assert forall j :: 1 <= j < |walk| ==> walk[j] == walk[1..][j - 1];
    }
  }

  /** Override answers from the longest covering rule of the tenant's and the
      global table together, and prefers the tenant only at that one name. */
  lemma OverrideExact(snap: Snapshot, routeID: string, name: string)
    ensures var own, all, n := Answers(snap.over, ToLower(routeID)), Answers(snap.over, GLOBAL), Normalize(name);
      match OverrideOf(snap, routeID, name)
      case None => forall r :: Under(n, r) ==> r !in own && r !in all
      case Some(a) => exists s :: Deepest(own, all, n, s) && a == if s in own then own[s] else all[s]
  {
    var own, all := Answers(snap.over, ToLower(routeID)), Answers(snap.over, GLOBAL);
    if OverrideOf(snap, routeID, name) == None {
      FirstAnswerNone(own, all, Suffixes(name));
      forall r | Under(Normalize(name), r) ensures !HasAnswer(own, all, r) { SuffixesExact(name, r); }
    } else {
      var i := FirstAnswerAt(own, all, Suffixes(name));
      FirstIsDeepest(own, all, name, i);
    }
  }

  /** In a list that shrinks, no rule with an answer is longer than the first. */
  lemma NoneDeeper(own: map<string, Addr>, all: map<string, Addr>, walk: seq<string>, i: nat, r: string)
    requires Shrinking(walk) && i < |walk| && forall j :: 0 <= j < i ==> !HasAnswer(own, all, walk[j])
    requires r in walk && HasAnswer(own, all, r)
    ensures |r| <= |walk[i]|
  {
    var j :| 0 <= j < |walk| && walk[j] == r;
  }

  lemma FirstIsDeepest(own: map<string, Addr>, all: map<string, Addr>, name: string, i: nat)
    requires i < |Suffixes(name)| && HasAnswer(own, all, Suffixes(name)[i])
    requires forall j :: 0 <= j < i ==> !HasAnswer(own, all, Suffixes(name)[j])
    ensures Deepest(own, all, Normalize(name), Suffixes(name)[i])
  {
    var walk := Suffixes(name);
    SuffixesExact(name, walk[i]);
    forall r | Under(Normalize(name), r) && (r in own || r in all) ensures |r| <= |walk[i]| {
      SuffixesExact(name, r);
      NoneDeeper(own, all, walk, i, r);
    }
  }

  /** `r` is the longest rule of one table that covers the name. */
  ghost predicate LongestIn(rules: map<string, Addr>, name: string, r: string) {
    && Under(name, r) && r in rules
    && forall s :: Under(name, s) && s in rules ==> |s| <= |r|
  }

  /** "Tenant-specific rules beat global ones" (store.go:276-277), for a tenant
      with a covering rule: Override answers from the tenant's longest one exactly
      when no covering global rule is written deeper, and otherwise from the
      longest global one. */
  lemma TenantBeatsGlobalIff(snap: Snapshot, routeID: string, name: string, mine: string)
    requires LongestIn(Answers(snap.over, ToLower(routeID)), Normalize(name), mine)
    ensures var own, all, n := Answers(snap.over, ToLower(routeID)), Answers(snap.over, GLOBAL), Normalize(name);
      if forall g :: Under(n, g) && g in all ==> |g| <= |mine|
      then OverrideOf(snap, routeID, name) == Some(own[mine])
      else exists g :: LongestIn(all, n, g) && |g| > |mine| && OverrideOf(snap, routeID, name) == Some(all[g])
  {
    var own, all, n := Answers(snap.over, ToLower(routeID)), Answers(snap.over, GLOBAL), Normalize(name);
    OverrideExact(snap, routeID, name);
    var s :| Deepest(own, all, n, s) && OverrideOf(snap, routeID, name) == Some(if s in own then own[s] else all[s]);
    if |s| == |mine| {
      UnderSameLength(n, s, mine);
    } else {
      assert LongestIn(all, n, s);
    }
  }

  lemma ExactNameWins(snap: Snapshot, routeID: string, name: string)
    requires name != "" && Normalize(name) == name
    requires name !in Answers(snap.over, ToLower(routeID)) && name in Answers(snap.over, GLOBAL)
    ensures OverrideOf(snap, routeID, name) == Some(Answers(snap.over, GLOBAL)[name])
  {
    WalkShrinks(name);
  }

  lemma DeeperGlobalBeatsTenant(mine: Addr, theirs: Addr)
    ensures var snap := Snapshot(map[], map[], map[], map["t" := map["b.c" := mine], GLOBAL := map["a.b.c" := theirs]]);
      OverrideOf(snap, "t", "a.b.c") == Some(theirs)
  {
    var name := "a.b.c";
    var own, all := map["b.c" := mine], map[name := theirs];
    var snap := Snapshot(map[], map[], map[], map["t" := own, GLOBAL := all]);
    assert |name| == 5 && |"b.c"| == 3;
    assert Normalize(name) == name by { AlreadyNormal(name); }
    assert ToLower("t") == "t";
    assert Answers(snap.over, "t") == own && Answers(snap.over, GLOBAL) == all;
    ExactNameWins(snap, "t", name);
  }
}
