/** The parsed form of a DNS message (dns.h). Names are the bytes of their dotted text. */
module DnsTypes {

  type Byte = x: int | 0 <= x < 256
  type Name = seq<Byte>

  datatype Option<+T> = None | Some(value: T)

  const TYPE_A := 1
  const TYPE_NS := 2
  const TYPE_CNAME := 5
  const TYPE_PTR := 12
  const TYPE_AAAA := 28
  const TYPE_SRV := 33

  /** The rdata union of pj_dns_parsed_rr, and the raw data kept for unknown types. */
  datatype Rdata =
    | Address(bytes: seq<Byte>)
    | Target(name: Name)
    | Service(prio: nat, weight: nat, port: nat, target: Name)
    | Raw(data: seq<Byte>)

  datatype Question = Question(name: Name, qtype: nat, qclass: nat)

  datatype Record = Record(name: Name, rtype: nat, rclass: nat, ttl: nat, rdlength: nat, rdata: Rdata)

  /** The header's section counts are the lengths of the four sections. */
  datatype Packet = Packet(id: nat, flags: nat, q: seq<Question>, ans: seq<Record>, ns: seq<Record>, arr: seq<Record>)

  predicate IsTargetType(t: nat) {
    t == TYPE_CNAME || t == TYPE_NS || t == TYPE_PTR
  }

  /** The rdata member in use is the one the record's type selects. */
  predicate RdataFits(r: Record) {
    if r.rtype == TYPE_A then r.rdata.Address? && |r.rdata.bytes| == 4
    else if r.rtype == TYPE_AAAA then r.rdata.Address? && |r.rdata.bytes| == 16
    else if IsTargetType(r.rtype) then r.rdata.Target?
    else if r.rtype == TYPE_SRV then r.rdata.Service?
    else r.rdata.Raw?
  }

  /** pj_tolower. */
  function Lower(b: Byte): Byte {
    if 'A' as int <= b <= 'Z' as int then b + 32 else b
  }

  function LowerName(n: Name): (r: Name)
    ensures |r| == |n|
  {
    seq(|n|, i requires 0 <= i < |n| => Lower(n[i]))
  }

  /** pj_stricmp(a, b) == 0. */
  predicate EqualFold(a: Name, b: Name) {
    LowerName(a) == LowerName(b)
  }

  /** PJ_DNS_GET_RCODE. */
  function Rcode(p: Packet): nat {
    p.flags % 16
  }

  const RCODE_REFUSED := 5
  const RCODE_NOTAUTH := 9

  const SUCCESS := 0
  const RCODE_START := 320050  // PJLIB_UTIL_DNS_RCODE_START

  /** PJ_STATUS_FROM_DNS_RCODE. */
  function StatusFromRcode(rcode: nat): nat {
    if rcode == 0 then SUCCESS else RCODE_START + rcode
  }
}
