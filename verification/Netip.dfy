/** IP addresses as Go's `net/netip` sees them, and the private ranges of
    resolver/rebind.go. */
module Netip {
  import opened GoStrings

  type Octets4 = s: seq<bv8> | |s| == 4 witness [0, 0, 0, 0]
  type Octets16 = s: seq<bv8> | |s| == 16 witness [0, 0, 0, 0, 0, 0, 0, 0, 0, 0, 0, 0, 0, 0, 0, 0]

  datatype Addr = V4(o4: Octets4) | V6(o16: Octets16)

  const MAPPED: seq<bv8> := [0, 0, 0, 0, 0, 0, 0, 0, 0, 0, 0xFF, 0xFF]

  /** `netip.AddrFromSlice`. */
  function AddrFromSlice(s: seq<bv8>): Option<Addr> {
    if |s| == 4 then Some(V4(s)) else if |s| == 16 then Some(V6(s)) else None
  }

  predicate Is4In6(a: Addr) { a.V6? && a.o16[..12] == MAPPED }

  /** `net.IP.To4`: nothing when the slice is no IPv4 address. */
  function To4(s: seq<bv8>): seq<bv8> {
    if |s| == 4 then s
    else if |s| == 16 && s[..12] == MAPPED then s[12..]
    else []
  }

  /** `net.IP.To16`. */
  function To16(s: seq<bv8>): seq<bv8> {
    if |s| == 4 then MAPPED + s else if |s| == 16 then s else []
  }

  function Unmap(a: Addr): Addr {
    if Is4In6(a) then V4(a.o16[12..]) else a
  }

  predicate IsLoopback(a: Addr) {
    match a
    case V4(b) => b[0] == 127
    case V6(b) => b[..15] == MAPPED[..10] + [0, 0, 0, 0, 0] && b[15] == 1
  }

  predicate IsPrivate(a: Addr) {
    match a
    case V4(b) =>
      b[0] == 10 || (b[0] == 172 && b[1] & 0xF0 == 16) || (b[0] == 192 && b[1] == 168)
    case V6(b) => b[0] & 0xFE == 0xFC
  }

  predicate IsLinkLocalUnicast(a: Addr) {
    match a
    case V4(b) => b[0] == 169 && b[1] == 254
    case V6(b) => b[0] == 0xFE && b[1] & 0xC0 == 0x80
  }

  predicate IsLinkLocalMulticast(a: Addr) {
    match a
    case V4(b) => b[0] == 224 && b[1] == 0 && b[2] == 0
    case V6(b) => b[0] == 0xFF && b[1] & 0x0F == 0x02
  }

  predicate IsInterfaceLocalMulticast(a: Addr) {
    a.V6? && a.o16[0] == 0xFF && a.o16[1] & 0x0F == 0x01
  }

  predicate IsUnspecified(a: Addr) {
    match a
    case V4(b) => b == [0, 0, 0, 0]
    case V6(b) => b == MAPPED[..10] + [0, 0, 0, 0, 0, 0]
  }

  /** isPrivateTarget; None is the zero Addr, which is not a valid address. */
  predicate IsPrivateTarget(addr: Option<Addr>) { addr == None || InPrivateSpace(addr.value) }

  predicate InPrivateSpace(addr: Addr) {
    var a := Unmap(addr);
    || IsLoopback(a) || IsPrivate(a) || IsLinkLocalUnicast(a) || IsLinkLocalMulticast(a)
    || IsInterfaceLocalMulticast(a) || IsUnspecified(a)
    || match a
       case V4(b) =>
         || (b[0] == 100 && b[1] & 0xC0 == 64)
         || (b[0] == 169 && b[1] == 254)
         || (b[0] == 192 && b[1] == 0 && b[2] == 0)
         || b[0] >= 240
       case V6(b) => b[0] & 0xFE == 0xFC
  }

  /** The IPv4 blocks, as the dotted ranges they are written as:
      0.0.0.0/32, 10/8, 100.64/10, 127/8, 169.254/16, 172.16/12, 192.0.0/24,
      192.168/16, 224.0.0/24 and 240/4. */
  predicate PrivateRange4(b: Octets4) {
    || (b[0] == 0 && b[1] == 0 && b[2] == 0 && b[3] == 0)
    || b[0] == 10
    || (b[0] == 100 && 64 <= b[1] <= 127)
    || b[0] == 127
    || (b[0] == 169 && b[1] == 254)
    || (b[0] == 172 && 16 <= b[1] <= 31)
    || (b[0] == 192 && b[1] == 0 && b[2] == 0)
    || (b[0] == 192 && b[1] == 168)
    || (b[0] == 224 && b[1] == 0 && b[2] == 0)
    || 240 <= b[0]
  }

  /** The IPv6 blocks: ::/127, fc00::/7, fe80::/10, ffx1::/16 and ffx2::/16. */
  predicate PrivateRange6(b: Octets16) {
    || (b[15] <= 1 && forall i :: 0 <= i < 15 ==> b[i] == 0)
    || 0xFC <= b[0] <= 0xFD
    || (b[0] == 0xFE && 0x80 <= b[1] <= 0xBF)
    || (b[0] == 0xFF && b[1] % 16 in {1, 2})
  }

  lemma OctetMasks(x: bv8)
    ensures x & 0xF0 == 16 <==> 16 <= x <= 31
    ensures x & 0xC0 == 64 <==> 64 <= x <= 127
    ensures x & 0xC0 == 0x80 <==> 0x80 <= x <= 0xBF
    ensures x & 0xFE == 0xFC <==> 0xFC <= x <= 0xFD
    ensures x & 0x0F == x % 16
  {}

  lemma PrivateRanges4(b: Octets4)
    ensures InPrivateSpace(V4(b)) <==> PrivateRange4(b)
  {
    OctetMasks(b[1]);
    assert b == [b[0], b[1], b[2], b[3]];
  }

  lemma LowOctets(b: Octets16, last: bv8)
    ensures b == MAPPED[..10] + [0, 0, 0, 0, 0, last]
       <==> b[15] == last && forall i :: 0 <= i < 15 ==> b[i] == 0
  {
    var low: seq<bv8> := MAPPED[..10] + [0, 0, 0, 0, 0, last];
    assert low[15] == last && forall i :: 0 <= i < 15 ==> low[i] == 0;
    if b[15] == last && forall i :: 0 <= i < 15 ==> b[i] == 0 {
      assert b == low;
    }
  }

  lemma LoopbackIsOne(b: Octets16)
    ensures IsLoopback(V6(b)) <==> b == MAPPED[..10] + [0, 0, 0, 0, 0, 1]
  {
    var zeros: seq<bv8> := MAPPED[..10] + [0, 0, 0, 0, 0];
    assert b == b[..15] + [b[15]];
    assert MAPPED[..10] + [0, 0, 0, 0, 0, 1] == zeros + [1];
    assert (zeros + [1])[..15] == zeros;
  }

  lemma PrivateRanges6(b: Octets16)
    requires !Is4In6(V6(b))
    ensures InPrivateSpace(V6(b)) <==> PrivateRange6(b)
  {
    OctetMasks(b[0]);
    OctetMasks(b[1]);
    LowOctets(b, 0);
    LowOctets(b, 1);
    LoopbackIsOne(b);
    assert b[15] <= 1 <==> b[15] == 0 || b[15] == 1;
  }

  /** isPrivateTarget's masks and library predicates amount to exactly these
      ranges; an IPv4-mapped IPv6 address is judged as the IPv4 address, and no
      address at all as a private one. */
  lemma PrivateTargetRanges(addr: Option<Addr>)
    ensures addr == None ==> IsPrivateTarget(addr)
    ensures addr.Some? ==>
      (IsPrivateTarget(addr) <==> match Unmap(addr.value) case V4(b) => PrivateRange4(b) case V6(b) => PrivateRange6(b))
  {
    if addr.Some? {
      match Unmap(addr.value)
      case V4(b) => PrivateRanges4(b);
      case V6(b) => PrivateRanges6(b);
    }
  }

  /** An A record's bytes and the same address carried in an AAAA record are
      judged alike, so a private IPv4 target cannot pass as IPv6. */
  lemma MappedJudgedAlike(b: Octets4)
    ensures IsPrivateTarget(Some(V6(MAPPED + b))) == IsPrivateTarget(Some(V4(b)))
  {
    var m: Octets16 := MAPPED + b;
    assert m[..12] == MAPPED && m[12..] == b;
    assert Unmap(V6(m)) == V4(b);
  }
}
