/** resolver/rebind.go: private-space answers are stripped from an upstream
    reply, in place. */
module Rebind {
  import opened GoStrings
  import opened Netip
  import opened Dns
  import opened Policy

  /** A record a public name must not resolve to. */
  predicate Private(rr: RR) {
    AddressIn(rr).Some? && IsPrivateTarget(AddressIn(rr))
  }

  /** Sixteen bytes that carry an IPv4 address: ::ffff:0:0/96. */
  predicate Carries4(ip: seq<bv8>) {
    |ip| == 16 && ip[10] == 0xFF && ip[11] == 0xFF && forall i :: 0 <= i < 10 ==> ip[i] == 0
  }

  /** A record whose bytes are an address in private space: four bytes, or
      sixteen that carry four, in an IPv4 block, or sixteen others of an AAAA
      record in an IPv6 block. Any other number of bytes is no address. */
  predicate PrivateBytes(data: Data) {
    match data
    case A(ip) => (|ip| == 4 && PrivateRange4(ip)) || (Carries4(ip) && PrivateRange4(ip[12..]))
    case AAAA(ip) =>
      || (|ip| == 4 && PrivateRange4(ip)) || (Carries4(ip) && PrivateRange4(ip[12..]))
      || (|ip| == 16 && !Carries4(ip) && PrivateRange6(ip))
    case Other(_) => false
  }

  lemma CarriesMapped(ip: seq<bv8>)
    requires |ip| == 16
    ensures Carries4(ip) <==> ip[..12] == MAPPED
  {
    if Carries4(ip) {
      forall i | 0 <= i < 12 ensures ip[..12][i] == MAPPED[i] {}
    } else if ip[..12] == MAPPED {
      assert ip[..12][10] == 0xFF && ip[..12][11] == 0xFF;
      forall i | 0 <= i < 10 ensures ip[i] == 0 { assert ip[..12][i] == MAPPED[i] == 0; }
    }
  }

  /** What the filter reads out of a record and judges private is exactly a record
      of private bytes, in every one of these forms. */
  lemma PrivateIffBytes(rr: RR)
    ensures Private(rr) <==> PrivateBytes(rr.data)
  {
    PrivateTargetRanges(AddressIn(rr));
    match rr.data
    case A(ip) => if |ip| == 16 { CarriesMapped(ip); }
    case AAAA(ip) =>
      if |ip| == 4 { MappedJudgedAlike(ip); PrivateTargetRanges(Some(V4(ip))); }
      if |ip| == 16 { CarriesMapped(ip); }
    case Other(_) =>
  }

  function Permitted(rrs: seq<RR>): seq<RR> {
    if rrs == [] then []
    else
      var rest := Permitted(rrs[..|rrs| - 1]);
      var rr := rrs[|rrs| - 1];
      if Private(rr) then rest else rest + [rr]
  }

  /** What filterRebind leaves of an answer section. */
  function Filtered(rrs: seq<RR>, name: string, p: RebindPolicy): seq<RR> {
    if !p.enabled || IsExempt(p, name) then rrs else Permitted(rrs)
  }

  lemma FilteredShrinks(rrs: seq<RR>, name: string, p: RebindPolicy)
    ensures |Filtered(rrs, name, p)| <= |rrs|
  {
    PermittedShrinks(rrs);
  }

  lemma {:induction false} PermittedShrinks(rrs: seq<RR>)
    ensures |Permitted(rrs)| <= |rrs|
  {
    if rrs != [] { PermittedShrinks(rrs[..|rrs| - 1]); }
  }

  /** filterRebind. The kept records are written over the front of the very
      array being read, as `kept := msg.Answer[:0]` does; the first `kept` slots
      are the new section. */
  method FilterRebind(answer: array<RR>, name: string, p: RebindPolicy) returns (kept: nat, removed: nat)
    modifies answer
    ensures kept <= answer.Length && kept + removed == answer.Length
    ensures answer[..kept] == Filtered(old(answer[..]), name, p)
  {
    if !p.enabled || answer.Length == 0 {
      assert Permitted([]) == [];
      return answer.Length, 0;
    }
    var exempt := Exempt(p, name);
    if exempt { return answer.Length, 0; }

    ghost var was := answer[..];
    kept, removed := 0, 0;
    for i := 0 to answer.Length
      invariant kept <= i && kept + removed == i
      invariant forall k :: i <= k < answer.Length ==> answer[k] == was[k]
      invariant answer[..kept] == Permitted(was[..i])
    {
      var rr := answer[i];
      assert was[..i + 1][..i] == was[..i];
      match rr.data {
        case Other(_) =>
          answer[kept] := rr;
          kept := kept + 1;
        case _ =>
          var addr := AddressIn(rr);
          if addr.Some? && IsPrivateTarget(addr) {
            removed := removed + 1;
          } else {
            answer[kept] := rr;
            kept := kept + 1;
          }
      }
    }
    assert was[..answer.Length] == was;
  }

  /** Strictly increasing positions, all of them below `n`. */
  ghost predicate Positions(at: seq<int>, n: nat) {
    && (forall k :: 0 <= k < |at| ==> 0 <= at[k] < n)
    && (forall j, k :: 0 <= j < k < |at| ==> at[j] < at[k])
  }

  /** Exactly the permitted records survive, each once and in their old order. */
  lemma {:induction false} PermittedInOrder(rrs: seq<RR>) returns (at: seq<int>)
    ensures Positions(at, |rrs|) && |at| == |Permitted(rrs)|
    ensures forall k :: 0 <= k < |at| ==> Permitted(rrs)[k] == rrs[at[k]]
    ensures forall i :: 0 <= i < |rrs| ==> (i in at <==> !Private(rrs[i]))
  {
    at := [];
    if rrs != [] {
      var n := |rrs| - 1;
      at := PermittedInOrder(rrs[..n]);
      if !Private(rrs[n]) { at := at + [n]; }
    }
  }

  lemma {:induction false} PermittedCounts(rrs: seq<RR>, rr: RR)
    ensures multiset(Permitted(rrs))[rr] == if Private(rr) then 0 else multiset(rrs)[rr]
  {
    if rrs != [] {
      var n := |rrs| - 1;
      PermittedCounts(rrs[..n], rr);
      assert rrs == rrs[..n] + [rrs[n]];
    }
  }

  /** The in-place filter neither drops a public record nor lets a private one
      through, unless the policy is off or the name exempt: every record is kept
      as often as it came, or not at all if its bytes are private. */
  lemma FilteredIsClean(rrs: seq<RR>, name: string, p: RebindPolicy)
    ensures var bars := p.enabled && !IsExempt(p, name);
      forall rr ::
        multiset(Filtered(rrs, name, p))[rr] == if bars && PrivateBytes(rr.data) then 0 else multiset(rrs)[rr]
  {
    forall rr ensures multiset(Permitted(rrs))[rr] == if PrivateBytes(rr.data) then 0 else multiset(rrs)[rr] {
      PermittedCounts(rrs, rr);
      PrivateIffBytes(rr);
    }
  }
}
