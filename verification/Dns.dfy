// Names, record types and records, as every zone module sees them.
//
// A name is its sequence of lowercased labels, leaf first; the root is the
// empty sequence. Two rdata values are equal exactly when their presentation
// texts are equal, which is the only comparison the update and transfer code
// makes.

module Dns {

  type Name = seq<string>
  type RType = nat

  const TYPE_A: RType := 1
  const TYPE_NS: RType := 2
  const TYPE_CNAME: RType := 5
  const TYPE_SOA: RType := 6
  const TYPE_AAAA: RType := 28
  const TYPE_DS: RType := 43
  const TYPE_RRSIG: RType := 46
  const TYPE_NSEC3: RType := 50
  const TYPE_ANY: RType := 255

  const CLASS_IN: nat := 1
  const CLASS_NONE: nat := 254
  const CLASS_ANY: nat := 255

  datatype Rcode = NoError | FormErr | ServFail | NxDomain | Refused
                 | YxDomain | YxRrset | NxRrset | NotAuth | NotZone

  datatype Rdata =
    | SoaData(mname: string, rname: string, serial: nat, refresh: nat,
              retry: nat, expire: nat, minimum: nat)
    | NameData(text: string, target: Name)
    | SigData(covered: RType, text: string)
    | OtherData(text: string)

  datatype RR = RR(name: Name, rtype: RType, rclass: nat, ttl: nat, rdata: Rdata)

  /** The parser gives every SOA record an SOA rdata and every RRSIG its own. */
  predicate WellTyped(rr: RR) {
    && (rr.rtype == TYPE_SOA ==> rr.rdata.SoaData?)
    && (rr.rtype == TYPE_RRSIG ==> rr.rdata.SigData?)
  }

  predicate IsSubdomainOf(n: Name, other: Name) {
    |other| <= |n| && n[|n| - |other|..] == other
  }

  function Parent(n: Name): Name
    requires n != []
  {
    n[1..]
  }
}
