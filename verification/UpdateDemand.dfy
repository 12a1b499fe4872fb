// What RFC 2136 demands of an UPDATE, stated on the nodes of a zone as sets of
// records, and exactly when the handler does it.

module UpdateDemand {
  import opened Wrappers
  import opened Dns
  import opened Zones
  import opened Updates
  import opened UpdateInvariants
  import opened UpdateMeaning

  const TYPE_WKS: RType := 11

  datatype RRset = RRset(rds: set<Rdata>, ttl: nat)

  /** A node as the RFC speaks of it: its RRsets, each with its one TTL. */
  type NodeView = map<RType, RRset>

  function Members(rds: seq<Rdata>): set<Rdata> {
    set rd | rd in rds
  }

  function View(z: ZoneData, n: Name): NodeView {
    map t | t in z.NodeOf(n) :: RRset(Members(z.Rrset(n, t)), z.TtlOf(n, t))
  }

  function RdsOf(node: NodeView, t: RType): set<Rdata> {
    if t in node then node[t].rds else {}
  }

  // ---- The demand (section 3.4.2) ----

  /** A later serial in the arithmetic of RFC 1982. */
  predicate Newer(rd: Rdata, held: Rdata) {
    rd.SoaData? && held.SoaData? && 0 < (rd.serial - held.serial) % SERIAL_SPACE < SERIAL_SPACE / 2
  }

  /** Section 3.4.2.2, the zone's class: an SOA only replaces an older SOA, a CNAME
    * stands alone, and a record already there is replaced, TTL and all. A WKS
    * record replaces the one of the same address and protocol, its `service`. */
  function Added(node: NodeView, rr: RR, service: Rdata -> string): NodeView {
    var t, rds := rr.rtype, RdsOf(node, rr.rtype);
    if t == TYPE_CNAME then
      if node.Keys - {TYPE_CNAME} != {} then node else node[t := RRset({rr.rdata}, rr.ttl)]
    else if TYPE_CNAME in node then node
    else if t == TYPE_SOA then
      if rds != {} && (forall rd | rd in rds :: Newer(rr.rdata, rd)) then node[t := RRset({rr.rdata}, rr.ttl)] else node
    else
      var others := set rd | rd in rds && !(t == TYPE_WKS && service(rd) == service(rr.rdata));
      node[t := RRset(others + {rr.rdata}, rr.ttl)]
  }

  /** Section 3.4.2.4, class NONE: one record goes, but never the apex SOA and never
    * the only apex NS. */
  function Removed(origin: Name, node: NodeView, rr: RR): NodeView {
    var t, rds := rr.rtype, RdsOf(node, rr.rtype);
    if rr.rdata !in rds || (rr.name == origin && (t == TYPE_SOA || (t == TYPE_NS && rds == {rr.rdata}))) then node
    else if rds == {rr.rdata} then node - {t}
    else node[t := RRset(rds - {rr.rdata}, node[t].ttl)]
  }

  /** Section 3.4.2.3, class ANY: one RRset or all of them go, the apex SOA and NS excepted. */
  function Cleared(origin: Name, node: NodeView, rr: RR): NodeView {
    map t | t in node && ((rr.rtype != TYPE_ANY && t != rr.rtype) || (rr.name == origin && (t == TYPE_SOA || t == TYPE_NS))) :: node[t]
  }

  function Demand(origin: Name, n: Name, node: NodeView, rr: RR, service: Rdata -> string): NodeView {
    if rr.name != n then node
    else if rr.rclass == CLASS_ANY then Cleared(origin, node, rr)
    else if rr.rclass == CLASS_NONE then Removed(origin, node, rr)
    else Added(node, rr, service)
  }

  /** The node after the update records in order. */
  function DemandAll(origin: Name, n: Name, node: NodeView, rrs: seq<RR>, service: Rdata -> string): NodeView
    decreases |rrs|
  {
    if rrs == [] then node
    else DemandAll(origin, n, Demand(origin, n, node, rrs[0], service), rrs[1..], service)
  }

  // ---- One update record ----

  /** The additions that the handler gets wrong: a CNAME that would replace another
    * or its TTL; one that joins other types, or another type that joins it; an SOA
    * that is not there yet; another TTL for a record that is there; a WKS record
    * for a service that has one. */
  predicate Deviates(node: NodeView, rr: RR, service: Rdata -> string) {
    var t, rds := rr.rtype, RdsOf(node, rr.rtype);
    && rr.rclass !in {CLASS_ANY, CLASS_NONE}
    && if t == TYPE_CNAME && node.Keys <= {TYPE_CNAME} then t in node && node[t] != RRset({rr.rdata}, rr.ttl)
       else if t == TYPE_CNAME || TYPE_CNAME in node || t == TYPE_SOA then rr.rdata !in rds
       else
         || (rr.rdata in rds && node[t].ttl != rr.ttl)
         || (t == TYPE_WKS && exists rd | rd in rds :: rd != rr.rdata && service(rd) == service(rr.rdata))
  }

  /** What the handler makes of a node. */
  function Handled(origin: Name, n: Name, node: NodeView, rr: RR): NodeView {
    if rr.name != n then node
    else if rr.rclass == CLASS_ANY then Cleared(origin, node, rr)
    else if rr.rclass == CLASS_NONE then Removed(origin, node, rr)
    else if rr.rdata in RdsOf(node, rr.rtype) then node
    else node[rr.rtype := RRset(RdsOf(node, rr.rtype) + {rr.rdata}, rr.ttl)]
  }

  lemma {:induction false} HandledOrDemanded(origin: Name, node: NodeView, rr: RR, service: Rdata -> string)
    requires forall t | t in node :: node[t].rds != {}
    ensures Handled(origin, rr.name, node, rr) == Demand(origin, rr.name, node, rr, service) <==> !Deviates(node, rr, service)
  {
    var t, rds := rr.rtype, RdsOf(node, rr.rtype);
    if rr.rclass !in {CLASS_ANY, CLASS_NONE} {
      var a, b := Handled(origin, rr.name, node, rr), Added(node, rr, service);
      assert forall u | u in node && u != t :: a[u] == node[u];
      assert a == b <==> (t in a <==> t in b) && (t in a ==> a[t] == b[t]);
      if t == TYPE_CNAME && node.Keys <= {TYPE_CNAME} {
        assert node.Keys - {TYPE_CNAME} == {};
        assert rds != {} && rr.rdata !in rds ==> rds + {rr.rdata} != {rr.rdata} by {
          if x :| x in rds { assert x in rds + {rr.rdata}; }
        }
      } else if t == TYPE_CNAME || TYPE_CNAME in node {
        AddedStays(node, rr, service);
      } else if t == TYPE_SOA {
        assert rr.rdata in rds ==> !Newer(rr.rdata, rr.rdata);
      } else {
        var others := set rd | rd in rds && !(t == TYPE_WKS && service(rd) == service(rr.rdata));
        assert rr.rdata in rds ==> rds + {rr.rdata} == rds;
        assert rds + {rr.rdata} == others + {rr.rdata} <==>
               !(t == TYPE_WKS && exists rd | rd in rds :: rd != rr.rdata && service(rd) == service(rr.rdata)) by {
          if rd :| rd in rds && rd != rr.rdata && t == TYPE_WKS && service(rd) == service(rr.rdata) {
            assert rd !in others + {rr.rdata};
          } 
        }
      }
    }
  }

  /** A CNAME and another type do not come together. */
  lemma {:induction false} AddedStays(node: NodeView, rr: RR, service: Rdata -> string)
    requires rr.rtype == TYPE_CNAME ==> !(node.Keys <= {TYPE_CNAME})
    requires rr.rtype == TYPE_CNAME || TYPE_CNAME in node
    ensures Added(node, rr, service) == node
  {
    if rr.rtype == TYPE_CNAME {
      var t :| t in node.Keys && t != TYPE_CNAME;
      assert t in node.Keys - {TYPE_CNAME};
    }
  }

  // ---- The handler, node by node ----

  ghost predicate ApexNsNoDup(z: ZoneData) {
    NoDup(z.Rrset(z.origin, TYPE_NS))
  }

  predicate AddsRecord(z: ZoneData, rr: RR) {
    rr.rclass !in {CLASS_ANY, CLASS_NONE} && rr.rdata !in z.Rrset(rr.name, rr.rtype)
  }

  lemma {:induction false} OneTtls(c: Change, rr: RR)
    ensures ApplyOne(c, rr).zone.ttls ==
            if AddsRecord(c.zone, rr) then c.zone.ttls[(rr.name, rr.rtype) := rr.ttl] else c.zone.ttls
  {
    if rr.rclass == CLASS_ANY && rr.rtype == TYPE_ANY {
      DropAllFrame(c, rr.name, SortedTypes(c.zone.NodeOf(rr.name).Keys));
    }
  }

  lemma {:induction false} ViewAt(z: ZoneData, n: Name, t: RType)
    requires z.WellFormed()
    ensures t in View(z, n) <==> z.Rrset(n, t) != []
    ensures RdsOf(View(z, n), t) == Members(z.Rrset(n, t))
    ensures t in View(z, n) ==> View(z, n)[t] == RRset(Members(z.Rrset(n, t)), z.TtlOf(n, t))
  {
  }

  lemma {:induction false} WithoutMembers(rds: seq<Rdata>, rd: Rdata)
    ensures Members(Without(rds, rd)) == Members(rds) - {rd}
    ensures Without(rds, rd) == [] <==> Members(rds) <= {rd}
  {
    WithoutSpec(rds, rd);
    var w := Without(rds, rd);
    assert w != [] ==> w[0] in Members(rds) && w[0] != rd by {
      assert w != [] ==> w[0] in w;
    }
    assert w == [] ==> forall x | x in rds :: x == rd;
  }

  lemma {:induction false} OnlyMember(rds: seq<Rdata>, rd: Rdata)
    requires NoDup(rds) && rd in rds
    ensures |rds| <= 1 <==> Members(rds) == {rd}
  {
    if |rds| > 1 {
      assert rds[0] in Members(rds) && rds[1] in Members(rds) && rds[0] != rds[1];
    }
  }

  lemma {:induction false} HandledAt(origin: Name, z: ZoneData, rr: RR, n: Name, t: RType)
    requires z.WellFormed() && origin == z.origin && ApexNsNoDup(z)
    ensures var h, out := Handled(origin, n, View(z, n), rr), Outcome(origin, z.Rrset(n, t), rr, n, t);
            && (t in h <==> out != [])
            && (t in h ==> h[t] == RRset(Members(out), if n == rr.name && t == rr.rtype && AddsRecord(z, rr) then rr.ttl else z.TtlOf(n, t)))
  {
    hide ZoneData.WellFormed, ZoneData.Rrset, View, NoDup;
    var before := z.Rrset(n, t);
    ViewAt(z, n, t);
    assert before != [] ==> before[0] in Members(before);
    if n == rr.name && t == rr.rtype {
      assert Members(before + [rr.rdata]) == Members(before) + {rr.rdata};
      WithoutMembers(before, rr.rdata);
      if rr.rdata !in before {
        WithoutAbsent(before, rr.rdata);
      }
      if n == origin && t == TYPE_NS && rr.rdata in before {
        OnlyMember(before, rr.rdata);
      }
    }
  }

  lemma {:induction false} WithoutAbsent(rds: seq<Rdata>, rd: Rdata)
    requires rd !in rds
    ensures Without(rds, rd) == rds
  {
    WithoutSpec(rds, rd);
  }

  /** One update record changes the one node it names, as Handled says. */
  lemma {:induction false} OneHandled(c: Change, rr: RR, n: Name)
    requires c.zone.WellFormed() && ApexNsNoDup(c.zone)
    ensures View(ApplyOne(c, rr).zone, n) == Handled(c.zone.origin, n, View(c.zone, n), rr)
  {
    hide ApplyOne, ZoneData.WellFormed, ZoneData.Rrset, View, Handled, ApexNsNoDup, Outcome, AddsRecord;
    var z, z' := c.zone, ApplyOne(c, rr).zone;
    OneTtls(c, rr);
    OneKeepsWellFormed(c, rr);
    var a, b := View(z', n), Handled(z.origin, n, View(z, n), rr);
    forall t
      ensures t in a <==> t in b
      ensures t in a ==> a[t] == b[t]
    {
      ViewAt(z', n, t);
      OneOutcome(c, rr, n, t);
      HandledAt(z.origin, z, rr, n, t);
    }
  }

  /** One update record comes out as demanded if and only if it is none of the
    * additions that the handler gets wrong; the other nodes stay either way. */
  lemma {:induction false} OneFollowsExactly(c: Change, rr: RR, n: Name, service: Rdata -> string)
    requires c.zone.WellFormed() && ApexNsNoDup(c.zone)
    ensures View(ApplyOne(c, rr).zone, n) == Demand(c.zone.origin, n, View(c.zone, n), rr, service) <==>
            !(rr.name == n && Deviates(View(c.zone, n), rr, service))
  {
    hide ApplyOne, Demand, Deviates, Handled, View, ApexNsNoDup;
    OneHandled(c, rr, n);
    if rr.name == n {
      ViewFilled(c.zone, n);
      HandledOrDemanded(c.zone.origin, View(c.zone, n), rr, service);
    } else {
      OtherNode(c.zone.origin, n, View(c.zone, n), rr, service);
    }
  }

  lemma {:induction false} OtherNode(origin: Name, n: Name, node: NodeView, rr: RR, service: Rdata -> string)
    requires rr.name != n
    ensures Demand(origin, n, node, rr, service) == node == Handled(origin, n, node, rr)
  {
  }

  lemma {:induction false} ViewFilled(z: ZoneData, n: Name)
    requires z.WellFormed()
    ensures forall t | t in View(z, n) :: View(z, n)[t].rds != {}
  {
    forall t | t in View(z, n)
      ensures View(z, n)[t].rds != {}
    {
      assert z.Rrset(n, t)[0] in Members(z.Rrset(n, t));
    }
  }

  // ---- The update records of a message ----

  /** Some record of the message is one that the handler gets wrong when it comes to it. */
  predicate EverDeviates(origin: Name, n: Name, node: NodeView, rrs: seq<RR>, service: Rdata -> string)
    decreases |rrs|
  {
    rrs != [] && (|| (rrs[0].name == n && Deviates(node, rrs[0], service))
                  || EverDeviates(origin, n, Demand(origin, n, node, rrs[0], service), rrs[1..], service))
  }

  /** After the first `k` records the node is what they demand. */
  ghost predicate AgreesAfter(c: Change, rrs: seq<RR>, n: Name, k: nat, service: Rdata -> string)
    requires k <= |rrs|
  {
    View(ApplyAll(c, rrs[..k]).zone, n) == DemandAll(c.zone.origin, n, View(c.zone, n), rrs[..k], service)
  }

  lemma {:induction false} AgreesLater(c: Change, rrs: seq<RR>, n: Name, k: nat, service: Rdata -> string)
    requires k < |rrs| && c.zone.origin == ApplyOne(c, rrs[0]).zone.origin
    requires View(ApplyOne(c, rrs[0]).zone, n) == Demand(c.zone.origin, n, View(c.zone, n), rrs[0], service)
    ensures AgreesAfter(c, rrs, n, k + 1, service) <==> AgreesAfter(ApplyOne(c, rrs[0]), rrs[1..], n, k, service)
  {
    hide ApplyOne, View, Demand;
    assert rrs[..k + 1][0] == rrs[0] && rrs[..k + 1][1..] == rrs[1..][..k];
  }

  lemma {:induction false} AgreesAtFirst(c: Change, rrs: seq<RR>, n: Name, service: Rdata -> string)
    ensures AgreesAfter(c, rrs, n, 0, service)
    ensures rrs != [] ==> (AgreesAfter(c, rrs, n, 1, service) <==>
                           View(ApplyOne(c, rrs[0]).zone, n) == Demand(c.zone.origin, n, View(c.zone, n), rrs[0], service))
  {
    hide ApplyOne, View, Demand;
    if rrs != [] {
      assert rrs[..1] == [rrs[0]] && [rrs[0]][1..] == [];
      assert ApplyAll(c, [rrs[0]]) == ApplyAll(ApplyOne(c, rrs[0]), []);
      var first := Demand(c.zone.origin, n, View(c.zone, n), rrs[0], service);
      assert DemandAll(c.zone.origin, n, View(c.zone, n), [rrs[0]], service) == DemandAll(c.zone.origin, n, first, [], service);
    }
  }

  /** A node is as demanded after every record of a message if and only if none of
    * them is one that the handler gets wrong. */
  lemma {:induction false} AllFollowExactly(c: Change, rrs: seq<RR>, n: Name, service: Rdata -> string)
    requires c.zone.WellFormed() && ApexNsNoDup(c.zone)
    ensures (forall k | 0 <= k <= |rrs| :: AgreesAfter(c, rrs, n, k, service)) <==>
            !EverDeviates(c.zone.origin, n, View(c.zone, n), rrs, service)
    decreases |rrs|
  {
    hide ApplyOne, View, Demand, Deviates, ApexNsNoDup, AgreesAfter, ZoneData.WellFormed;
    AgreesAtFirst(c, rrs, n, service);
    if rrs != [] {
      var d := ApplyOne(c, rrs[0]);
      OneFollowsExactly(c, rrs[0], n, service);
      OneKeepsApexNs(c, rrs[0]);
      OneKeepsWellFormed(c, rrs[0]);
      AllFollowExactly(d, rrs[1..], n, service);
      if View(d.zone, n) == Demand(c.zone.origin, n, View(c.zone, n), rrs[0], service) {
        forall k | 0 <= k < |rrs|
          ensures AgreesAfter(c, rrs, n, k + 1, service) <==> AgreesAfter(d, rrs[1..], n, k, service)
        {
          AgreesLater(c, rrs, n, k, service);
        }
        if !(forall k | 0 <= k <= |rrs| :: AgreesAfter(c, rrs, n, k, service)) {
          var k :| 0 <= k <= |rrs| && !AgreesAfter(c, rrs, n, k, service);
          assert k > 0 && !AgreesAfter(d, rrs[1..], n, k - 1, service);
        }
      }
    }
  }

  lemma {:induction false} OneKeepsApexNs(c: Change, rr: RR)
    requires ApexNsNoDup(c.zone)
    ensures ApplyOne(c, rr).zone.origin == c.zone.origin && ApexNsNoDup(ApplyOne(c, rr).zone)
  {
    OneOutcome(c, rr, c.zone.origin, TYPE_NS);
    OneKeepsNoDup(c, rr, c.zone.origin, TYPE_NS);
  }

  // ---- Which messages are accepted (sections 3.1 to 3.4.1) ----

  /** A prerequisite of the section 2.4 forms. `blank` tells empty rdata. */
  predicate FormedPrerequisite(origin: Name, rr: RR, blank: Rdata -> bool) {
    && rr.ttl == 0 && IsSubdomainOf(rr.name, origin) && UpdateClass(rr)
    && (rr.rclass != CLASS_IN ==> blank(rr.rdata))
  }

  /** IXFR, AXFR, MAILB, MAILA and ANY, which only a query can ask for. */
  predicate MetaType(t: RType) {
    251 <= t <= 255
  }

  /** An update record that passes the prescan of section 3.4.1. */
  predicate FormedUpdate(origin: Name, rr: RR, blank: Rdata -> bool) {
    && IsSubdomainOf(rr.name, origin) && UpdateClass(rr)
    && (MetaType(rr.rtype) ==> rr.rclass == CLASS_ANY && rr.rtype == TYPE_ANY)
    && (rr.rclass != CLASS_IN ==> rr.ttl == 0)
    && (rr.rclass == CLASS_ANY ==> blank(rr.rdata))
  }

  predicate Formed(origin: Name, msg: UpdateMsg, blank: Rdata -> bool) {
    && (forall rr | rr in msg.answers :: FormedPrerequisite(origin, rr, blank))
    && (forall rr | rr in msg.authority :: FormedUpdate(origin, rr, blank))
  }

  /** The RRset that the prerequisites of the zone's class spell out. */
  function TempRrset(prereqs: seq<RR>, n: Name, t: RType): set<Rdata> {
    set rr | rr in prereqs && rr.rclass == CLASS_IN && rr.name == n && rr.rtype == t :: rr.rdata
  }

  /** What one formed prerequisite demands (section 3.2). */
  ghost predicate Holds(z: ZoneData, prereqs: seq<RR>, rr: RR) {
    if rr.rclass == CLASS_ANY then (if rr.rtype == TYPE_ANY then InUse(z, rr.name) else z.Rrset(rr.name, rr.rtype) != [])
    else if rr.rclass == CLASS_NONE then (if rr.rtype == TYPE_ANY then !InUse(z, rr.name) else z.Rrset(rr.name, rr.rtype) == [])
    else Members(z.Rrset(rr.name, rr.rtype)) == TempRrset(prereqs, rr.name, rr.rtype)
  }

  /** A message that the RFC has a server carry out, the policy permitting. */
  ghost predicate RfcAccepts(z: ZoneData, msg: UpdateMsg, policy: UpdatePolicy, blank: Rdata -> bool) {
    && msg.question == Some((z.origin, TYPE_SOA)) && z.Soa().Some?
    && Formed(z.origin, msg, blank)
    && (forall rr | rr in msg.answers :: Holds(z, msg.answers, rr))
    && (forall rr | rr in msg.authority :: policy.Permits(z.origin, rr.name))
  }

  /** Some RRset is asked for both with its records and without. */
  predicate Mixed(prereqs: seq<RR>) {
    exists a, b | a in prereqs && b in prereqs ::
      a.rclass == CLASS_ANY && b.rclass == CLASS_IN && a.name == b.name && a.rtype == b.rtype
  }

  ghost predicate NoBlank(z: ZoneData, blank: Rdata -> bool) {
    forall n, t, rd :: rd in z.Rrset(n, t) ==> !blank(rd)
  }

  /** Of a formed prerequisite: the handler finds it satisfied if and only if it
    * holds, unless it also reads an empty record into the RRset asked for. */
  lemma {:induction false} SatisfiedOrHolds(z: ZoneData, prereqs: seq<RR>, rr: RR)
    requires rr in prereqs && rr.ttl == 0 && UpdateClass(rr)
    requires rr.rclass == CLASS_IN ==>
               forall b | b in prereqs && b.name == rr.name && b.rtype == rr.rtype :: b.rclass == CLASS_IN
    ensures Satisfied(z, prereqs, rr) <==> Holds(z, prereqs, rr)
  {
    if rr.rclass == CLASS_IN {
      forall rd
        ensures AskedFor(prereqs, rr.name, rr.rtype, rd) <==> rd in TempRrset(prereqs, rr.name, rr.rtype)
      {
      }
    }
  }

  /** An RRset asked for by its records and asked to be empty is neither way met. */
  lemma {:induction false} ContraryAsks(z: ZoneData, prereqs: seq<RR>, rr: RR, none: RR)
    requires rr in prereqs && rr.rclass == CLASS_IN
    requires none in prereqs && none.rclass == CLASS_NONE && none.name == rr.name && none.rtype == rr.rtype
    ensures !(Holds(z, prereqs, rr) && Holds(z, prereqs, none))
    ensures !(Satisfied(z, prereqs, rr) && Satisfied(z, prereqs, none))
  {
    assert rr.rdata in TempRrset(prereqs, rr.name, rr.rtype);
    assert AskedFor(prereqs, rr.name, rr.rtype, rr.rdata);
    assert z.Rrset(rr.name, rr.rtype) != [] ==> rr.rtype != TYPE_ANY || InUse(z, rr.name);
    assert z.Rrset(rr.name, rr.rtype) == [] ==> rr.rdata !in z.Rrset(rr.name, rr.rtype);
  }

  lemma {:induction false} MixedFails(z: ZoneData, prereqs: seq<RR>, blank: Rdata -> bool)
    requires Mixed(prereqs) && NoBlank(z, blank)
    requires forall rr | rr in prereqs :: FormedPrerequisite(z.origin, rr, blank)
    ensures exists rr :: rr in prereqs && !Satisfied(z, prereqs, rr)
  {
    var a, b :| a in prereqs && b in prereqs && a.rclass == CLASS_ANY && b.rclass == CLASS_IN && a.name == b.name && a.rtype == b.rtype;
    assert AskedFor(prereqs, b.name, b.rtype, a.rdata) && blank(a.rdata);
    assert !Satisfied(z, prereqs, b);
  }

  /** The prerequisites of a formed message pass if and only if they hold and none
    * of them asks for an RRset that another one spells out. */
  lemma {:induction false} PrerequisitesExactly(z: ZoneData, prereqs: seq<RR>, blank: Rdata -> bool)
    requires z.WellFormed() && NoBlank(z, blank)
    requires forall rr | rr in prereqs :: FormedPrerequisite(z.origin, rr, blank)
    ensures FirstFailure(z, prereqs, prereqs) == NoError <==>
            (forall rr | rr in prereqs :: Holds(z, prereqs, rr)) && !Mixed(prereqs)
  {
    hide Satisfied, Holds, NoBlank;
    PrerequisitesMean(z, prereqs, prereqs);
    if Mixed(prereqs) {
      MixedFails(z, prereqs, blank);
    } else if contrary, rr :| rr in prereqs && contrary in prereqs && rr.rclass == CLASS_IN && contrary.rclass == CLASS_NONE
                              && contrary.name == rr.name && contrary.rtype == rr.rtype {
      ContraryAsks(z, prereqs, rr, contrary);
    } else {
      forall rr | rr in prereqs
        ensures Satisfied(z, prereqs, rr) <==> Holds(z, prereqs, rr)
      {
        assert FormedPrerequisite(z.origin, rr, blank);
        SatisfiedOrHolds(z, prereqs, rr);
      }
    }
  }

  lemma {:induction false} AuthorizedExactly(z: ZoneData, policy: UpdatePolicy, rrs: seq<RR>)
    ensures AuthorizationRcode(z, policy, rrs) == NoError <==> forall rr | rr in rrs :: policy.Permits(z.origin, rr.name)
    decreases |rrs|
  {
    if rrs != [] {
      AuthorizedExactly(z, policy, rrs[1..]);
      assert rrs == [rrs[0]] + rrs[1..];
    }
  }

  /** The handler carries out a formed message if and only if the RFC has it do so and
    * its prerequisites are not mixed. */
  lemma {:induction false} AdmissionExactly(z: ZoneData, msg: UpdateMsg, policy: UpdatePolicy, blank: Rdata -> bool)
    requires z.WellFormed() && NoBlank(z, blank) && Formed(z.origin, msg, blank)
    ensures Admission(z, msg, policy) == NoError <==> RfcAccepts(z, msg, policy, blank) && !Mixed(msg.answers)
  {
    hide Holds, NoBlank, Mixed, FirstFailure, UpdatePolicy.Permits;
    PrerequisitesExactly(z, msg.answers, blank);
    AuthorizedExactly(z, policy, msg.authority);
    assert forall rr | rr in msg.authority :: FormedUpdate(z.origin, rr, blank) && UpdateClass(rr);
  }

  /** `[class ANY, class IN]` for one RRset that is there with those records: the
    * RFC has the message carried out and the handler answers NXRRSET. */
  lemma {:induction false} MixedIsRefused(z: ZoneData, any: RR, rr: RR, policy: UpdatePolicy, blank: Rdata -> bool)
    requires z.WellFormed() && NoBlank(z, blank) && z.Soa().Some?
    requires any.rclass == CLASS_ANY && rr.rclass == CLASS_IN && any.name == rr.name && any.rtype == rr.rtype != TYPE_ANY
    requires FormedPrerequisite(z.origin, any, blank) && FormedPrerequisite(z.origin, rr, blank)
    requires Members(z.Rrset(rr.name, rr.rtype)) == {rr.rdata}
    ensures var msg := UpdateMsg(Some((z.origin, TYPE_SOA)), [any, rr], []);
            RfcAccepts(z, msg, policy, blank) && Admission(z, msg, policy) == NxRrset
  {
    var all := [any, rr];
    assert z.Rrset(rr.name, rr.rtype) != [] by {
      assert rr.rdata in Members(z.Rrset(rr.name, rr.rtype));
    }
    assert TempRrset(all, rr.name, rr.rtype) == {rr.rdata} by {
      assert rr in all;
    }
    NodeIsUse(z, rr.name);
    assert PrereqRcode(z, all, any) == NoError;
    assert all[0] == any && all[1..] == [rr];
    assert any in all && any.rdata in RdataSet(all, rr.name, rr.rtype);
    assert any.rdata !in z.Rrset(rr.name, rr.rtype);
    assert PrereqRcode(z, all, rr) == NxRrset;
    assert FirstFailure(z, all, [rr]) == NxRrset;
  }

  /** What the handler lets pass though the RFC refuses the message: a prerequisite
    * for a name outside the zone, of a foreign class, or with rdata beside class ANY. */
  lemma {:induction false} UnformedIsAdmitted(z: ZoneData, rr: RR, policy: UpdatePolicy, blank: Rdata -> bool)
    requires z.WellFormed() && z.Soa().Some? && rr.ttl == 0 && rr.rtype != TYPE_ANY
    requires || (!IsSubdomainOf(rr.name, z.origin) && rr.rclass == CLASS_NONE && z.Rrset(rr.name, rr.rtype) == [])
             || (!UpdateClass(rr) && Members(z.Rrset(rr.name, rr.rtype)) == {rr.rdata})
             || (rr.rclass == CLASS_ANY && !blank(rr.rdata) && z.Rrset(rr.name, rr.rtype) != [])
    ensures var msg := UpdateMsg(Some((z.origin, TYPE_SOA)), [rr], []);
            Admission(z, msg, policy) == NoError && !RfcAccepts(z, msg, policy, blank)
  {
    var msg := UpdateMsg(Some((z.origin, TYPE_SOA)), [rr], []);
    assert rr in msg.answers && !FormedPrerequisite(z.origin, rr, blank);
    NodeIsUse(z, rr.name);
    assert RdataSet([rr], rr.name, rr.rtype) == {rr.rdata} by {
      assert rr in [rr];
    }
    assert PrereqRcode(z, [rr], rr) == NoError;
    assert FirstFailure(z, [rr], [rr][1..]) == NoError;
  }

  /** The same of the update section: a record that the prescan refuses, for its TTL,
    * its rdata or its type, is carried out if it is permitted and of a known class. */
  lemma {:induction false} UnformedUpdateIsAdmitted(z: ZoneData, rr: RR, policy: UpdatePolicy, blank: Rdata -> bool)
    requires z.Soa().Some? && policy.Permits(z.origin, rr.name) && UpdateClass(rr) && !FormedUpdate(z.origin, rr, blank)
    ensures var msg := UpdateMsg(Some((z.origin, TYPE_SOA)), [], [rr]);
            Admission(z, msg, policy) == NoError && !RfcAccepts(z, msg, policy, blank)
  {
    var msg := UpdateMsg(Some((z.origin, TYPE_SOA)), [], [rr]);
    assert rr in msg.authority;
    assert AuthorizationRcode(z, policy, [rr][1..]) == NoError;
  }

  /** Every message, formed or not: what the handler carries out. */
  lemma {:induction false} AdmissionMeans(z: ZoneData, msg: UpdateMsg, policy: UpdatePolicy)
    requires z.WellFormed()
    ensures Admission(z, msg, policy) == NoError <==>
            && msg.question == Some((z.origin, TYPE_SOA)) && z.Soa().Some?
            && (forall rr | rr in msg.answers :: Satisfied(z, msg.answers, rr))
            && (forall rr | rr in msg.authority :: policy.Permits(z.origin, rr.name) && UpdateClass(rr))
  {
    hide Satisfied, FirstFailure, UpdatePolicy.Permits;
    PrerequisitesMean(z, msg.answers, msg.answers);
    AuthorizedExactly(z, policy, msg.authority);
  }

  // ---- The whole message ----

  /** The node without the apex SOA, whose serial every update with an effect moves. */
  function SansSoa(origin: Name, n: Name, node: NodeView): NodeView {
    if n == origin then node - {TYPE_SOA} else node
  }

  lemma {:induction false} UpdatedView(z: ZoneData, msg: UpdateMsg, policy: UpdatePolicy, sign: ZoneData -> ZoneData, n: Name)
    requires Sound(z) && !z.signed && Admission(z, msg, policy) == NoError
    requires forall rr | rr in msg.authority :: WellTyped(rr)
    ensures SansSoa(z.origin, n, View(ApplyUpdate(z, msg, policy, sign).0, n)) ==
            SansSoa(z.origin, n, View(ApplyAll(Change(z, [], []), msg.authority).zone, n))
  {
    hide Sound, Admission, ApplyAll, View;
    var c := ApplyAll(Change(z, [], []), msg.authority);
    SoundIsTyped(z);
    AdmittedHasSoa(z, msg, policy);
    SoaSurvives(Change(z, [], []), msg.authority);
    AllKeepStore(Change(z, [], []), msg.authority);
    if c.adds != [] || c.dels != [] {
      CommittedView(c, n);
    }
  }

  lemma {:induction false} CommittedView(c: Change, n: Name)
    requires c.zone.WellFormed() && c.zone.Soa().Some? && SoaTyped(c.zone)
    ensures SansSoa(c.zone.origin, n, View(Commit(c), n)) == SansSoa(c.zone.origin, n, View(c.zone, n))
  {
    hide View, ZoneData.Rrset, ZoneData.WellFormed, Commit;
    var o := c.zone.origin;
    var a, b := SansSoa(o, n, View(Commit(c), n)), SansSoa(o, n, View(c.zone, n));
    CommitStore(c);
    CommitRrsets(c);
    forall t
      ensures t in a <==> t in b
      ensures t in a ==> a[t] == b[t]
    {
      ViewAt(Commit(c), n, t);
      ViewAt(c.zone, n, t);
    }
  }

  lemma {:induction false} CommitStore(c: Change)
    requires c.zone.WellFormed() && c.zone.Soa().Some? && SoaTyped(c.zone)
    ensures Commit(c).WellFormed() && Commit(c).ttls == c.zone.ttls
  {
    var soas, serial := c.zone.Rrset(c.zone.origin, TYPE_SOA), NextSerial(c.zone.Serial());
    SetKeepsWellFormed(c.zone, c.zone.origin, TYPE_SOA, [soas[0].(serial := serial)] + soas[1..]);
  }

  /** A formed message on a zone without empty records: it is carried out if and only
    * if the RFC says so and its prerequisites are not mixed, a refused one changes
    * nothing, and an accepted one leaves every node as the RFC demands, the serial
    * of the apex SOA apart, as long as none of its additions is one that the
    * handler gets wrong. */
  lemma {:induction false} UpdateFollowsDemand(z: ZoneData, msg: UpdateMsg, policy: UpdatePolicy, sign: ZoneData -> ZoneData,
                                               service: Rdata -> string, blank: Rdata -> bool, n: Name)
    requires Sound(z) && !z.signed && NoBlank(z, blank) && Formed(z.origin, msg, blank)
    requires forall rr | rr in msg.authority :: WellTyped(rr)
    ensures var (z', rc) := ApplyUpdate(z, msg, policy, sign);
            && (rc == NoError <==> RfcAccepts(z, msg, policy, blank) && !Mixed(msg.answers))
            && (rc != NoError ==> z' == z)
            && (rc == NoError && !EverDeviates(z.origin, n, View(z, n), msg.authority, service) ==>
                  SansSoa(z.origin, n, View(z', n)) ==
                  SansSoa(z.origin, n, DemandAll(z.origin, n, View(z, n), msg.authority, service)))
  {
    hide Sound, NoBlank, RfcAccepts, Mixed, View, Admission, ApplyAll, EverDeviates;
    SoundIsTyped(z);
    AdmissionExactly(z, msg, policy, blank);
    if Admission(z, msg, policy) == NoError {
      UpdatedView(z, msg, policy, sign, n);
      SoundApexNs(z);
      var c := Change(z, [], []);
      AllFollowExactly(c, msg.authority, n, service);
      if !EverDeviates(z.origin, n, View(z, n), msg.authority, service) {
        assert AgreesAfter(c, msg.authority, n, |msg.authority|, service);
        assert msg.authority[..|msg.authority|] == msg.authority;
      }
    }
  }

  lemma {:induction false} SoundApexNs(z: ZoneData)
    requires Sound(z)
    ensures ApexNsNoDup(z)
  {
  }

  /** An admitted message of one record, other than for the apex SOA: its node comes
    * out as demanded if and only if the record is not one that the handler gets wrong. */
  lemma {:induction false} SingleFollowsExactly(z: ZoneData, msg: UpdateMsg, policy: UpdatePolicy, sign: ZoneData -> ZoneData,
                                                service: Rdata -> string, rr: RR)
    requires Sound(z) && !z.signed && msg.authority == [rr] && WellTyped(rr)
    requires !(rr.name == z.origin && rr.rtype == TYPE_SOA) && Admission(z, msg, policy) == NoError
    ensures SansSoa(z.origin, rr.name, View(ApplyUpdate(z, msg, policy, sign).0, rr.name)) ==
            SansSoa(z.origin, rr.name, Demand(z.origin, rr.name, View(z, rr.name), rr, service)) <==>
            !Deviates(View(z, rr.name), rr, service)
  {
    hide Sound, View, Admission, ApplyOne, Deviates, Demand, Handled;
    var c, n := Change(z, [], []), rr.name;
    SoundIsTyped(z);
    SoundApexNs(z);
    UpdatedView(z, msg, policy, sign, n);
    assert ApplyAll(c, [rr]) == ApplyAll(ApplyOne(c, rr), [rr][1..]);
    OneFollowsExactly(c, rr, n, service);
    OneHandled(c, rr, n);
    ApexSoaApart(z.origin, View(z, n), rr, service);
  }

  lemma {:induction false} ApexSoaApart(origin: Name, node: NodeView, rr: RR, service: Rdata -> string)
    requires !(rr.name == origin && rr.rtype == TYPE_SOA)
    ensures var a, b := Handled(origin, rr.name, node, rr), Demand(origin, rr.name, node, rr, service);
            SansSoa(origin, rr.name, a) == SansSoa(origin, rr.name, b) <==> a == b
  {
    var a, b := Handled(origin, rr.name, node, rr), Demand(origin, rr.name, node, rr, service);
    if rr.name == origin && SansSoa(origin, rr.name, a) == SansSoa(origin, rr.name, b) {
      forall t
        ensures t in a <==> t in b
        ensures t in a ==> a[t] == b[t]
      {
        assert t != TYPE_SOA ==> (t in a <==> t in SansSoa(origin, rr.name, a)) && (t in b <==> t in SansSoa(origin, rr.name, b));
        assert t != TYPE_SOA && t in a ==> a[t] == SansSoa(origin, rr.name, a)[t] && b[t] == SansSoa(origin, rr.name, b)[t];
      }
    }
  }

  // ---- Each of those additions, once ----

  const WWW: Name := ["www"]
  const ALIAS: Name := ["alias"]
  const ADDRESS: Rdata := OtherData("192.0.2.1")
  const SERVICES: Rdata := OtherData("192.0.2.1 tcp 25")
  const MORE_SERVICES: Rdata := OtherData("192.0.2.1 tcp 80")
  const SOA: Rdata := SoaData("m", "r", 1, 1, 1, 1, 1)

  /** A root zone with one host and one alias of it. */
  function SmallZone(): ZoneData {
    EmptyZone([]).SetRrset([], TYPE_SOA, [SOA]).Add(WWW, TYPE_A, ADDRESS, 300).Add(WWW, TYPE_WKS, SERVICES, 300)
      .Add(ALIAS, TYPE_CNAME, NameData("www.", WWW), 300)
  }

  /** A CNAME beside an address, a second CNAME, a CNAME again with another TTL, an
    * address beside a CNAME, an SOA below the apex, an address again with another
    * TTL, and a WKS record for a service that has one. */
  function WrongAdditions(): seq<RR> {
    [RR(WWW, TYPE_CNAME, CLASS_IN, 300, NameData("alias.", ALIAS)),
     RR(ALIAS, TYPE_CNAME, CLASS_IN, 300, NameData("alias.", ALIAS)),
     RR(ALIAS, TYPE_CNAME, CLASS_IN, 60, NameData("www.", WWW)),
     RR(ALIAS, TYPE_A, CLASS_IN, 300, ADDRESS),
     RR(WWW, TYPE_SOA, CLASS_IN, 300, SOA),
     RR(WWW, TYPE_A, CLASS_IN, 60, ADDRESS),
     RR(WWW, TYPE_WKS, CLASS_IN, 300, MORE_SERVICES)]
  }

  lemma {:induction false} SmallZoneRrsets(n: Name, t: RType)
    ensures SmallZone().WellFormed() && SmallZone().origin == [] && SmallZone().journal == [] && !SmallZone().signed
    ensures SmallZone().Rrset(n, t) ==
            if n == [] && t == TYPE_SOA then [SOA]
            else if n == WWW && t == TYPE_A then [ADDRESS]
            else if n == WWW && t == TYPE_WKS then [SERVICES]
            else if n == ALIAS && t == TYPE_CNAME then [NameData("www.", WWW)]
            else []
    ensures SmallZone().ttls == map[(WWW, TYPE_A) := 300, (WWW, TYPE_WKS) := 300, (ALIAS, TYPE_CNAME) := 300]
  {
    hide ZoneData.Rrset, ZoneData.SetRrset, ZoneData.WellFormed;
    var a := EmptyZone([]);
    var b := a.SetRrset([], TYPE_SOA, [SOA]);
    var c := b.Add(WWW, TYPE_A, ADDRESS, 300);
    var d := c.Add(WWW, TYPE_WKS, SERVICES, 300);
    EmptyZoneRrsets(n, t);
    EmptyZoneRrsets(WWW, TYPE_A);
    EmptyZoneRrsets(WWW, TYPE_WKS);
    EmptyZoneRrsets(ALIAS, TYPE_CNAME);
    forall n', t'
      ensures b.Rrset(n', t') == if n' == [] && t' == TYPE_SOA then [SOA] else a.Rrset(n', t')
      ensures c.Rrset(n', t') == if n' == WWW && t' == TYPE_A then b.Rrset(WWW, TYPE_A) + [ADDRESS] else b.Rrset(n', t')
      ensures d.Rrset(n', t') == if n' == WWW && t' == TYPE_WKS then c.Rrset(WWW, TYPE_WKS) + [SERVICES] else c.Rrset(n', t')
    {
      RrsetOfSet(a, [], TYPE_SOA, [SOA], n', t');
      RrsetOfAdd(b, WWW, TYPE_A, ADDRESS, 300, n', t');
      RrsetOfAdd(c, WWW, TYPE_WKS, SERVICES, 300, n', t');
    }
    RrsetOfAdd(d, ALIAS, TYPE_CNAME, NameData("www.", WWW), 300, n, t);
    SetKeepsStore(a, [], TYPE_SOA, [SOA]);
    SetKeepsStore(b, WWW, TYPE_A, b.Rrset(WWW, TYPE_A) + [ADDRESS]);
    SetKeepsStore(c, WWW, TYPE_WKS, c.Rrset(WWW, TYPE_WKS) + [SERVICES]);
    SetKeepsStore(d, ALIAS, TYPE_CNAME, d.Rrset(ALIAS, TYPE_CNAME) + [NameData("www.", WWW)]);
  }

  lemma {:induction false} EmptyZoneRrsets(n: Name, t: RType)
    ensures EmptyZone([]).WellFormed() && EmptyZone([]).Rrset(n, t) == []
  {
  }

  lemma {:induction false} SetKeepsStore(z: ZoneData, n: Name, t: RType, rds: seq<Rdata>)
    requires z.WellFormed()
    ensures var z' := z.SetRrset(n, t, rds);
            && z'.origin == z.origin && z'.journal == z.journal && z'.signed == z.signed && z'.ttls == z.ttls
    ensures forall ttls :: z.SetRrset(n, t, rds).(ttls := ttls).WellFormed()
  {
    SetKeepsWellFormed(z, n, t, rds);
  }

  lemma {:induction false} SmallZoneIsSound()
    ensures Sound(SmallZone())
  {
    hide SmallZone, ZoneData.Rrset;
    var z := SmallZone();
    SmallZoneRrsets([], TYPE_SOA);
    assert z.Soa() == Some(SOA) && SoaTyped(z);
    forall n, t | !(n == z.origin && t == TYPE_SOA)
      ensures NoDup(z.Rrset(n, t))
    {
      SmallZoneRrsets(n, t);
    }
  }

  lemma {:induction false} WrongAdditionDeviates(rr: RR, service: Rdata -> string)
    requires rr in WrongAdditions() && service(SERVICES) == service(MORE_SERVICES)
    ensures Deviates(View(SmallZone(), rr.name), rr, service)
  {
    hide SmallZone, View, ZoneData.Rrset, ZoneData.WellFormed;
    var z := SmallZone();
    var node := View(z, rr.name);
    forall t
      ensures z.WellFormed() && RdsOf(node, t) == Members(z.Rrset(rr.name, t)) && (t in node <==> z.Rrset(rr.name, t) != [])
      ensures z.TtlOf(WWW, TYPE_A) == z.TtlOf(ALIAS, TYPE_CNAME) == 300
      ensures t in node ==> node[t].ttl == z.TtlOf(rr.name, t)
    {
      SmallZoneRrsets(rr.name, t);
      ViewAt(z, rr.name, t);
    }
    SmallZoneRrsets(rr.name, rr.rtype);
    SmallZoneRrsets(WWW, TYPE_A);
    SmallZoneRrsets(ALIAS, TYPE_CNAME);
    if rr.name == WWW {
      assert TYPE_A in node.Keys && TYPE_CNAME !in node by {
        SmallZoneRrsets(WWW, TYPE_CNAME);
      }
      assert rr.rtype == TYPE_WKS ==> SERVICES in RdsOf(node, TYPE_WKS);
    } else {
      forall t | t in node
        ensures t == TYPE_CNAME
      {
        SmallZoneRrsets(ALIAS, t);
      }
      assert TYPE_CNAME in node;
      assert rr.rtype == TYPE_CNAME ==> node[TYPE_CNAME] != RRset({rr.rdata}, rr.ttl) by {
        assert NameData("www.", WWW) in node[TYPE_CNAME].rds;
      }
    }
  }

  /** Each of these, sent alone to the zone, is admitted, and its node does not come
    * out as the RFC demands. */
  lemma {:induction false} WrongAdditionsHappen(rr: RR, sign: ZoneData -> ZoneData, service: Rdata -> string)
    requires rr in WrongAdditions() && service(SERVICES) == service(MORE_SERVICES)
    ensures var z, policy := SmallZone(), UpdatePolicy(true, None);
            var msg := UpdateMsg(Some(([], TYPE_SOA)), [], [rr]);
            && Sound(z) && Admission(z, msg, policy) == NoError
            && SansSoa([], rr.name, View(ApplyUpdate(z, msg, policy, sign).0, rr.name)) !=
               SansSoa([], rr.name, Demand([], rr.name, View(z, rr.name), rr, service))
  {
    hide SmallZone, Sound, View, Demand, ZoneData.Rrset;
    var z, policy, msg := SmallZone(), UpdatePolicy(true, None), UpdateMsg(Some(([], TYPE_SOA)), [], [rr]);
    SmallZoneIsSound();
    SmallZoneRrsets([], TYPE_SOA);
    WrongAdditionDeviates(rr, service);
    assert IsSubdomainOf(rr.name, []);
    assert AuthorizationRcode(z, policy, [rr][1..]) == NoError;
    SingleFollowsExactly(z, msg, policy, sign, service, rr);
  }
}
