/** resolver/probe.go: diagnostic lookups, recorded under a nonce and read back
    once. Times are nanoseconds on a steady clock. */
module Probe {
  import opened GoStrings
  import opened Domain

  const PROBE_TTL: int := 120_000_000_000
  const LIMIT: nat := 1000

  datatype ProbeHit = ProbeHit(routeID: string, at: int, proto: string)

  type Seen = map<string, ProbeHit>

  predicate NonceChar(c: char) { 'a' <= c <= 'z' || '0' <= c <= '9' || c == '-' }

  predicate IsNonce(s: string) {
    0 < |s| <= 63 && forall i :: 0 <= i < |s| ==> 'a' <= s[i] <= 'z' || '0' <= s[i] <= '9' || s[i] == '-'
  }

  /** nonceFor; no zone is the nil recorder. */
  function NonceFor(zone: Option<string>, name: string): Option<string> {
    if zone == None then None
    else
      var n, suffix := Normalize(name), "." + zone.value;
      if !HasSuffix(n, suffix) then None
      else
        var nonce := TrimSuffix(n, suffix);
        if nonce == "" || |nonce| > 63 || '.' in nonce then None
        else if forall i :: 0 <= i < |nonce| ==> NonceChar(nonce[i]) then Some(nonce)
        else None
  }

  /** Exactly the names of one nonce label under the probe zone are probes. */
  lemma NonceExact(zone: string, name: string, nonce: string)
    ensures NonceFor(Some(zone), name) == Some(nonce) <==> Normalize(name) == nonce + "." + zone && IsNonce(nonce)
  {
    var n, suffix := Normalize(name), "." + zone;
    assert nonce + "." + zone == nonce + suffix;
    if n == nonce + suffix {
      assert n[|n| - |suffix|..] == suffix && n[..|n| - |suffix|] == nonce;
      assert IsNonce(nonce) ==> '.' !in nonce;
    }
    if HasSuffix(n, suffix) { assert n == TrimSuffix(n, suffix) + suffix; }
  }

  function Expire(m: Seen, now: int): Seen { map k | k in m && now - m[k].at <= PROBE_TTL :: m[k] }

  function RecordIn(m: Seen, nonce: string, hit: ProbeHit): Seen {
    (if |m| > LIMIT then Expire(m, hit.at) else m)[nonce := hit]
  }

  function LookupIn(m: Seen, nonce: string, now: int): (Seen, Option<ProbeHit>) {
    (m - {nonce}, if nonce in m && now - m[nonce].at <= PROBE_TTL then Some(m[nonce]) else None)
  }

  class ProbeRecorder {
    const zone: Option<string>
    var seen: Seen

    /** NewProbeRecorder; no base domain stands for a resolver without probes. */
    constructor (base: Option<string>)
      ensures seen == map[]
      ensures zone == if base.Some? then Some("check." + Normalize(base.value)) else None
    {
      zone := if base.Some? then Some("check." + Normalize(base.value)) else None;
      seen := map[];
    }

    method Record(nonce: string, routeID: string, proto: string, now: int)
      modifies this
      ensures seen == RecordIn(old(seen), nonce, ProbeHit(routeID, now, proto))
    {
      if |seen| > LIMIT {
        ghost var m := seen;
        var todo := seen.Keys;
        while todo != {}
          invariant todo <= m.Keys
          invariant seen == map k | k in m && (k in todo || now - m[k].at <= PROBE_TTL) :: m[k]
        {
          var k :| k in todo;
          if now - seen[k].at > PROBE_TTL { seen := seen - {k}; }
          todo := todo - {k};
        }
        assert seen == Expire(m, now);
      }
      seen := seen[nonce := ProbeHit(routeID, now, proto)];
    }

    method Lookup(nonce: string, now: int) returns (r: Option<ProbeHit>)
      modifies this
      ensures (seen, r) == LookupIn(old(seen), nonce, now)
    {
      if nonce !in seen || now - seen[nonce].at > PROBE_TTL {
        seen := seen - {nonce};
        return None;
      }
      r := Some(seen[nonce]);
      seen := seen - {nonce};
    }
  }

  // ---- whole runs ----

  datatype Event = Recorded(nonce: string, hit: ProbeHit) | Looked(nonce: string, now: int)

  function Time(e: Event): int { if e.Recorded? then e.hit.at else e.now }

  ghost predicate Steady(evs: seq<Event>) { forall i, j :: 0 <= i < j < |evs| ==> Time(evs[i]) <= Time(evs[j]) }

  function SeenAfter(evs: seq<Event>, n: nat): Seen
    requires n <= |evs|
  {
    if n == 0 then map[]
    else match evs[n - 1]
      case Recorded(nonce, hit) => RecordIn(SeenAfter(evs, n - 1), nonce, hit)
      case Looked(nonce, now) => LookupIn(SeenAfter(evs, n - 1), nonce, now).0
  }

  /** What a Lookup in the run answers. */
  function Answer(evs: seq<Event>, i: nat): Option<ProbeHit>
    requires i < |evs| && evs[i].Looked?
  {
    LookupIn(SeenAfter(evs, i), evs[i].nonce, evs[i].now).1
  }

  /** The specification: the last probe of a nonce that no Lookup has read since. */
  function Unread(evs: seq<Event>, n: nat, nonce: string): Option<ProbeHit>
    requires n <= |evs|
  {
    if n == 0 then None
    else if evs[n - 1].nonce != nonce then Unread(evs, n - 1, nonce)
    else if evs[n - 1].Recorded? then Some(evs[n - 1].hit) else None
  }

  lemma {:induction false} SeenIsUnread(evs: seq<Event>, n: nat, nonce: string, clock: int)
    requires n <= |evs| && Steady(evs) && (n > 0 ==> Time(evs[n - 1]) <= clock)
    ensures var m, u := SeenAfter(evs, n), Unread(evs, n, nonce);
      && (nonce in m ==> u == Some(m[nonce]))
      && (u.Some? && nonce !in m ==> clock - u.value.at > PROBE_TTL)
  {
    if n > 0 {
      SeenIsUnread(evs, n - 1, nonce, Time(evs[n - 1]));
      if evs[n - 1].Recorded? && evs[n - 1].nonce != nonce {
        RecordElsewhere(SeenAfter(evs, n - 1), evs[n - 1].nonce, evs[n - 1].hit, nonce);
      }
    }
  }

  lemma RecordElsewhere(m: Seen, at: string, hit: ProbeHit, nonce: string)
    requires at != nonce
    ensures nonce in RecordIn(m, at, hit) ==> nonce in m && RecordIn(m, at, hit)[nonce] == m[nonce]
    ensures nonce in m && nonce !in RecordIn(m, at, hit) ==> hit.at - m[nonce].at > PROBE_TTL
  {}

  /** A Lookup finds exactly the unread probe of its nonce, if that is at most
      two minutes old; the sweep is never noticed. */
  lemma LookupExact(evs: seq<Event>, i: nat)
    requires i < |evs| && evs[i].Looked? && Steady(evs)
    ensures var u := Unread(evs, i, evs[i].nonce);
      Answer(evs, i) == if u.Some? && evs[i].now - u.value.at <= 120_000_000_000 then u else None
  {
    SeenIsUnread(evs, i, evs[i].nonce, evs[i].now);
  }

  lemma {:induction false} SeenFrame(evs: seq<Event>, more: seq<Event>, n: nat)
    requires n <= |evs|
    ensures SeenAfter(evs + more, n) == SeenAfter(evs, n)
  {
    if n > 0 { SeenFrame(evs, more, n - 1); }
  }

  /** What a Lookup after the run finds. */
  function Found(evs: seq<Event>, nonce: string, now: int): Option<ProbeHit> {
    LookupIn(SeenAfter(evs, |evs|), nonce, now).1
  }

  lemma {:induction false} UnreadSince(evs: seq<Event>, m: nat, n: nat, nonce: string)
    requires m < n <= |evs| && evs[m].nonce == nonce && evs[m].Recorded?
    requires forall i :: m < i < n ==> evs[i].nonce != nonce
    ensures Unread(evs, n, nonce) == Some(evs[m].hit)
  {
    if m < n - 1 { UnreadSince(evs, m, n - 1, nonce); }
  }

  /** A probe in a run, whose nonce is then left alone until a Lookup. */
  ghost predicate LeftAlone(before: seq<Event>, nonce: string, hit: ProbeHit, between: seq<Event>, now: int) {
    && Steady(before + [Recorded(nonce, hit)] + between + [Looked(nonce, now)])
    && forall e :: e in between ==> e.nonce != nonce
  }

  /** It is found exactly for two minutes. */
  lemma FoundAfter(before: seq<Event>, nonce: string, hit: ProbeHit, between: seq<Event>, now: int)
    requires LeftAlone(before, nonce, hit, between, now)
    ensures var probed := before + [Recorded(nonce, hit)];
      && SeenAfter(probed, |probed|) == RecordIn(SeenAfter(before, |before|), nonce, hit)
      && Found(probed + between, nonce, now) == if now - hit.at <= 120_000_000_000 then Some(hit) else None
  {
    var evs := before + [Recorded(nonce, hit)] + between;
    var all, n := evs + [Looked(nonce, now)], |evs|;
    forall i | |before| < i < n ensures all[i].nonce != nonce { assert all[i] == between[i - |before| - 1]; }
    UnreadSince(all, |before|, n, nonce);
    LookupExact(all, n);
    SeenFrame(evs, [Looked(nonce, now)], n);
    SeenFrame(before, [Recorded(nonce, hit)], |before|);
  }

  /** No replay: between two Lookups that both find a nonce it was probed again. */
  lemma ReadOnce(evs: seq<Event>, i: nat, j: nat) returns (k: nat)
    requires i < j < |evs| && evs[i].Looked? && evs[j].Looked? && evs[i].nonce == evs[j].nonce
    requires Steady(evs) && Answer(evs, j).Some?
    ensures i < k < j && evs[k] == Recorded(evs[j].nonce, Answer(evs, j).value)
  {
    LookupExact(evs, j);
    k := UnreadFrom(evs, j, evs[j].nonce);
  }

  lemma {:induction false} UnreadFrom(evs: seq<Event>, n: nat, nonce: string) returns (k: nat)
    requires n <= |evs| && Unread(evs, n, nonce).Some?
    ensures k < n && evs[k] == Recorded(nonce, Unread(evs, n, nonce).value)
    ensures forall i :: k < i < n ==> evs[i].nonce != nonce
  {
    if evs[n - 1].nonce == nonce { k := n - 1; } else { k := UnreadFrom(evs, n - 1, nonce); }
  }
}
