/** DNS messages, as far as the resolver looks into them. */
module Dns {
  import opened GoStrings
  import opened Netip

  const TYPE_A: nat := 1
  const TYPE_SOA: nat := 6
  const TYPE_AAAA: nat := 28
  const TYPE_OPT: nat := 41
  const TYPE_SVCB: nat := 64
  const TYPE_HTTPS: nat := 65
  const CLASS_INET: nat := 1

  type U32 = x: int | 0 <= x < 0x1_0000_0000

  /** A record's body, by its Go type. The bytes of an address are whatever the
      library holds, not always 4 or 16 of them. */
  datatype Data = A(ip: seq<bv8>) | AAAA(ip: seq<bv8>) | Other(payload: seq<bv8>)

  datatype RR = RR(rrtype: nat, ttl: U32, data: Data)

  datatype Question = Question(name: string, qtype: nat, qclass: nat)

  datatype Rcode = NoError | FormErr | ServFail | NXDomain | Refused

  datatype Msg = Msg(id: nat, question: seq<Question>, rcode: Rcode, truncated: bool,
                     answer: seq<RR>, ns: seq<RR>, extra: seq<RR>)

  /** The address an A or AAAA record carries, if it is a well-formed one. */
  function AddressIn(rr: RR): Option<Addr> {
    match rr.data
    case A(ip) => AddrFromSlice(To4(ip))
    case AAAA(ip) => AddrFromSlice(To16(ip))
    case Other(_) => None
  }
}
