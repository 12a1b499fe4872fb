// RFC 2136 dynamic UPDATE (auth_zone/update.py): the functions say what each
// step does to the value of a zone, the methods do it in place.

module Updates {
  import opened Wrappers
  import opened Dns
  import opened Zones

  const MAX_JOURNAL: nat := 64
  const SERIAL_SPACE: nat := 0x1_0000_0000

  datatype UpdatePolicy = UpdatePolicy(allow: bool, names: Option<set<Name>>) {
    predicate Permits(origin: Name, name: Name) {
      && allow
      && IsSubdomainOf(name, origin)
      && (names.None? || name in names.value)
    }
  }

  /** The sections of an UPDATE: the zone, the prerequisites and the changes. */
  datatype UpdateMsg = UpdateMsg(question: Option<(Name, RType)>, answers: seq<RR>, authority: seq<RR>)

  /** A zone in the middle of an update, with what was deleted and added so far. */
  datatype Change = Change(zone: ZoneData, dels: seq<RR>, adds: seq<RR>)

  // ---- Prerequisites (RFC 2136 section 3.2) ----

  function RdataSet(rrs: seq<RR>, name: Name, rtype: RType): set<Rdata> {
    set rr | rr in rrs && rr.name == name && rr.rtype == rtype :: rr.rdata
  }

  function PrereqRcode(z: ZoneData, all: seq<RR>, rr: RR): Rcode {
    var node := z.NodeOf(rr.name);
    if rr.ttl != 0 then FormErr
    else if rr.rclass == CLASS_ANY then
      if rr.rtype == TYPE_ANY then (if node == map[] then NxDomain else NoError)
      else if rr.rtype !in node then NxRrset else NoError
    else if rr.rclass == CLASS_NONE then
      if rr.rtype == TYPE_ANY then (if node != map[] then YxDomain else NoError)
      else if rr.rtype in node then YxRrset else NoError
    else if RdataSet(all, rr.name, rr.rtype) != (set rd | rd in z.Rrset(rr.name, rr.rtype)) then NxRrset
    else NoError
  }

  function FirstFailure(z: ZoneData, all: seq<RR>, rest: seq<RR>): Rcode {
    if rest == [] then NoError
    else if PrereqRcode(z, all, rest[0]) != NoError then PrereqRcode(z, all, rest[0])
    else FirstFailure(z, all, rest[1..])
  }

  method CheckPrerequisites(zone: Zone, prereqs: seq<RR>) returns (rc: Rcode)
    ensures rc == FirstFailure(zone.Data(), prereqs, prereqs)
  {
    for i := 0 to |prereqs|
      invariant FirstFailure(zone.Data(), prereqs, prereqs) == FirstFailure(zone.Data(), prereqs, prereqs[i..])
    {
      var rr := prereqs[i];
      assert prereqs[i..][0] == rr && prereqs[i..][1..] == prereqs[i + 1..];
      if rr.ttl != 0 {
        return FormErr;
      }
      var node: Node := if rr.name in zone.records then zone.records[rr.name] else map[];
      if rr.rclass == CLASS_ANY {
        if rr.rtype == TYPE_ANY {
          if node == map[] {
            return NxDomain;
          }
        } else if rr.rtype !in node {
          return NxRrset;
        }
      } else if rr.rclass == CLASS_NONE {
        if rr.rtype == TYPE_ANY {
          if node != map[] {
            return YxDomain;
          }
        } else if rr.rtype in node {
          return YxRrset;
        }
      } else {
        var want := RdataSet(prereqs, rr.name, rr.rtype);
        var held := if rr.rtype in node then node[rr.rtype] else [];
        var have := set rd | rd in held;
        if want != have {
          return NxRrset;
        }
      }
    }
    return NoError;
  }

  // ---- One update record (RFC 2136 section 3.4.2) ----

  /** The records of an RRset as the class-IN, TTL-0 entries of a deletion list. */
  function Deletions(n: Name, t: RType, rds: seq<Rdata>): seq<RR> {
    if rds == [] then [] else [RR(n, t, CLASS_IN, 0, rds[0])] + Deletions(n, t, rds[1..])
  }

  function Without(rds: seq<Rdata>, rd: Rdata): seq<Rdata> {
    if rds == [] then []
    else if rds[0] == rd then Without(rds[1..], rd)
    else [rds[0]] + Without(rds[1..], rd)
  }

  predicate IsLeast(s: set<RType>, t: RType) {
    t in s && forall u | u in s :: t <= u
  }

  function Least(s: set<RType>): (t: RType)
    requires s != {}
    ensures IsLeast(s, t)
  {
    HasLeast(s);
    var t :| IsLeast(s, t);
    t
  }

  lemma {:induction false} HasLeast(s: set<RType>)
    requires s != {}
    ensures exists t :: IsLeast(s, t)
  {
    var x :| x in s;
    var below := set u | u in s && u < x;
    if below == {} {
      assert forall u | u in s :: u !in below;
      assert IsLeast(s, x);
    } else {
      HasLeast(below);
      var y :| IsLeast(below, y);
      assert forall u | u in s :: u < x ==> u in below;
      assert IsLeast(s, y);
    }
  }

  /** `sorted(node)`: the types of a node in ascending order. */
  function SortedTypes(s: set<RType>): (ts: seq<RType>)
    ensures Lists(ts, s)
  {
    if s == {} then [] else [Least(s)] + SortedTypes(s - {Least(s)})
  }

  function DropRrset(c: Change, n: Name, t: RType): Change {
    Change(c.zone.SetRrset(n, t, []), c.dels + Deletions(n, t, c.zone.Rrset(n, t)), c.adds)
  }

  predicate Apex(origin: Name, n: Name, t: RType) {
    n == origin && t in {TYPE_SOA, TYPE_NS}
  }

  function DropAll(c: Change, n: Name, types: seq<RType>): Change
    decreases |types|
  {
    if types == [] then c
    else if Apex(c.zone.origin, n, types[0]) then DropAll(c, n, types[1..])
    else DropAll(DropRrset(c, n, types[0]), n, types[1..])
  }

  function ApplyOne(c: Change, rr: RR): Change {
    var z, n, t := c.zone, rr.name, rr.rtype;
    if rr.rclass == CLASS_ANY then
      if t == TYPE_ANY then DropAll(c, n, SortedTypes(z.NodeOf(n).Keys))
      else if Apex(z.origin, n, t) || t !in z.NodeOf(n) then c
      else
        var d := DropRrset(c, n, t);
        d.(zone := d.zone.(rrsigs := d.zone.rrsigs - {(n, t)}))
    else if rr.rclass == CLASS_NONE then
      if n == z.origin && t == TYPE_SOA then c
      else if n == z.origin && t == TYPE_NS && z.NodeOf(n) != map[] && |z.Rrset(n, TYPE_NS)| <= 1 then c
      else if t !in z.NodeOf(n) then c
      else
        var keep := Without(z.Rrset(n, t), rr.rdata);
        Change(z.SetRrset(n, t, keep),
               if |keep| != |z.Rrset(n, t)| then c.dels + [RR(n, t, CLASS_IN, 0, rr.rdata)] else c.dels,
               c.adds)
    else if rr.rdata !in z.Rrset(n, t) then
      Change(z.Add(n, t, rr.rdata, rr.ttl), c.dels, c.adds + [rr])
    else c
  }

  function ApplyAll(c: Change, rrs: seq<RR>): Change
    decreases |rrs|
  {
    if rrs == [] then c else ApplyAll(ApplyOne(c, rrs[0]), rrs[1..])
  }

  method KeepOthers(rds: seq<Rdata>, rd: Rdata) returns (keep: seq<Rdata>)
    ensures keep == Without(rds, rd)
  {
    keep := [];
    for i := 0 to |rds|
      invariant Without(rds, rd) == keep + Without(rds[i..], rd)
    {
      if rds[i] != rd {
        keep := keep + [rds[i]];
      }
    }
  }

  /** Takes one RRset out of the zone, logging each record as a deletion. */
  method Drop(zone: Zone, n: Name, t: RType, deletions: seq<RR>) returns (dels: seq<RR>)
    requires t in zone.Data().NodeOf(n)
    modifies zone
    ensures forall adds :: Change(zone.Data(), dels, adds) ==
                           DropRrset(Change(old(zone.Data()), deletions, adds), n, t)
  {
    dels := deletions;
    var rds := zone.records[n][t];
    for i := 0 to |rds|
      invariant zone.Data() == old(zone.Data())
      invariant dels + Deletions(n, t, rds[i..]) == deletions + Deletions(n, t, rds)
    {
      dels := dels + [RR(n, t, CLASS_IN, 0, rds[i])];
    }
    var node: Node := zone.records[n] - {t};
    zone.records := if node == map[] then zone.records - {n} else zone.records[n := node];
  }

  /** Takes the listed RRsets out of one node, the protected apex ones excepted. */
  method DropTypes(zone: Zone, n: Name, types: seq<RType>, deletions: seq<RR>) returns (dels: seq<RR>)
    requires forall t | t in types :: t in zone.Data().NodeOf(n)
    requires forall i, j | 0 <= i < j < |types| :: types[i] != types[j]
    modifies zone
    ensures forall adds :: Change(zone.Data(), dels, adds) ==
                           DropAll(Change(old(zone.Data()), deletions, adds), n, types)
  {
    dels := deletions;
    for i := 0 to |types|
      invariant zone.Data().origin == zone.origin
      invariant forall j | i <= j < |types| :: types[j] in zone.Data().NodeOf(n)
      invariant forall adds :: DropAll(Change(old(zone.Data()), deletions, adds), n, types) ==
                               DropAll(Change(zone.Data(), dels, adds), n, types[i..])
    {
      assert types[i..][1..] == types[i + 1..];
      if !Apex(zone.origin, n, types[i]) {
        ghost var before := Change(zone.Data(), dels, []);
        ghost var left := before.zone.NodeOf(n) - {types[i]};
        dels := Drop(zone, n, types[i], dels);
        assert Change(zone.Data(), dels, []) == DropRrset(before, n, types[i]);
        assert forall j | i + 1 <= j < |types| :: types[j] in left;
      }
    }
  }

  /** `_apply_one`: edits the zone and returns the two lists, extended. */
  method ApplyOneInPlace(zone: Zone, rr: RR, deletions: seq<RR>, additions: seq<RR>)
    returns (dels: seq<RR>, adds: seq<RR>)
    modifies zone
    ensures Change(zone.Data(), dels, adds) == ApplyOne(Change(old(zone.Data()), deletions, additions), rr)
  {
    dels, adds := deletions, additions;
    var node: Node := if rr.name in zone.records then zone.records[rr.name] else map[];
    if rr.rclass == CLASS_ANY {
      if rr.rtype == TYPE_ANY {
        dels := DropTypes(zone, rr.name, SortedTypes(node.Keys), dels);
      } else {
        if Apex(zone.origin, rr.name, rr.rtype) {
          return;
        }
        if rr.rtype in node {
          dels := Drop(zone, rr.name, rr.rtype, dels);
          zone.rrsigs := zone.rrsigs - {(rr.name, rr.rtype)};
        }
      }
    } else if rr.rclass == CLASS_NONE {
      if rr.name == zone.origin && rr.rtype == TYPE_SOA {
        return;
      }
      if rr.name == zone.origin && rr.rtype == TYPE_NS && node != map[]
         && |if TYPE_NS in node then node[TYPE_NS] else []| <= 1 {
        return;
      }
      if rr.rtype in node {
        var keep := KeepOthers(node[rr.rtype], rr.rdata);
        if |keep| != |node[rr.rtype]| {
          dels := dels + [RR(rr.name, rr.rtype, CLASS_IN, 0, rr.rdata)];
        }
        if keep != [] {
          var node': Node := node[rr.rtype := keep];
          assert rr.rtype in node';
          zone.records := zone.records[rr.name := node'];
        } else {
          var node': Node := node - {rr.rtype};
          zone.records := if node' == map[] then zone.records - {rr.name} else zone.records[rr.name := node'];
        }
      }
    } else {
      var existing := if rr.rtype in node then node[rr.rtype] else [];
      if rr.rdata !in existing {
        zone.Add(rr.name, rr.rtype, rr.rdata, rr.ttl);
        adds := adds + [rr];
      }
    }
  }

  // ---- The apex SOA is never deleted ----

  lemma {:induction false} DropAllRrset(c: Change, n: Name, types: seq<RType>, n': Name, t': RType)
    ensures DropAll(c, n, types).zone.origin == c.zone.origin
    ensures DropAll(c, n, types).zone.Rrset(n', t') ==
            if n' == n && t' in types && !Apex(c.zone.origin, n', t') then [] else c.zone.Rrset(n', t')
    decreases |types|
  {
    if types != [] {
      if Apex(c.zone.origin, n, types[0]) {
        DropAllRrset(c, n, types[1..], n', t');
      } else {
        DropAllRrset(DropRrset(c, n, types[0]), n, types[1..], n', t');
        RrsetOfSet(c.zone, n, types[0], [], n', t');
      }
    }
  }

  lemma {:induction false} OneKeepsSoa(c: Change, rr: RR)
    ensures ApplyOne(c, rr).zone.origin == c.zone.origin
    ensures var before := c.zone.Rrset(c.zone.origin, TYPE_SOA);
            var after := ApplyOne(c, rr).zone.Rrset(c.zone.origin, TYPE_SOA);
            after == before || (rr.rtype == TYPE_SOA && after == before + [rr.rdata])
  {
    var z, o := c.zone, c.zone.origin;
    if rr.rclass == CLASS_ANY && rr.rtype == TYPE_ANY {
      DropAllRrset(c, rr.name, SortedTypes(z.NodeOf(rr.name).Keys), o, TYPE_SOA);
    } else {
      RrsetOfSet(z, rr.name, rr.rtype, [], o, TYPE_SOA);
      RrsetOfSet(z, rr.name, rr.rtype, Without(z.Rrset(rr.name, rr.rtype), rr.rdata), o, TYPE_SOA);
      RrsetOfSet(z, rr.name, rr.rtype, z.Rrset(rr.name, rr.rtype) + [rr.rdata], o, TYPE_SOA);
    }
  }

  /** Whatever an update says, the apex keeps the SOA it had, in first place. */
  lemma {:induction false} SoaSurvives(c: Change, rrs: seq<RR>)
    requires c.zone.Soa().Some? && SoaTyped(c.zone)
    requires forall rr | rr in rrs :: WellTyped(rr)
    ensures ApplyAll(c, rrs).zone.origin == c.zone.origin
    ensures ApplyAll(c, rrs).zone.Soa() == c.zone.Soa()
    ensures SoaTyped(ApplyAll(c, rrs).zone)
    decreases |rrs|
  {
    if rrs != [] {
      OneKeepsSoa(c, rrs[0]);
      assert rrs[0] in rrs;
      SoaSurvives(ApplyOne(c, rrs[0]), rrs[1..]);
    }
  }

  // ---- The whole message ----

  function AuthorizationRcode(z: ZoneData, policy: UpdatePolicy, rrs: seq<RR>): Rcode {
    if rrs == [] then NoError
    else if !IsSubdomainOf(rrs[0].name, z.origin) then NotZone
    else if !policy.Permits(z.origin, rrs[0].name) then Refused
    else AuthorizationRcode(z, policy, rrs[1..])
  }

  predicate UpdateClass(rr: RR) {
    rr.rclass in {CLASS_IN, CLASS_ANY, CLASS_NONE}
  }

  /** The rcode of everything that is checked before the zone is touched. */
  function Admission(z: ZoneData, msg: UpdateMsg, policy: UpdatePolicy): Rcode {
    if msg.question.None? || msg.question.value.1 != TYPE_SOA then FormErr
    else if z.origin != msg.question.value.0 then NotAuth
    else if FirstFailure(z, msg.answers, msg.answers) != NoError then FirstFailure(z, msg.answers, msg.answers)
    else if AuthorizationRcode(z, policy, msg.authority) != NoError then AuthorizationRcode(z, policy, msg.authority)
    else if exists rr | rr in msg.authority :: !UpdateClass(rr) then FormErr
    else if z.Soa().None? then ServFail
    else NoError
  }

  function NextSerial(serial: nat): nat {
    (serial + 1) % SERIAL_SPACE
  }

  function LastSteps(journal: seq<Step>): seq<Step> {
    if |journal| > MAX_JOURNAL then journal[|journal| - MAX_JOURNAL..] else journal
  }

  /** `_bump_serial` and `_journal`. */
  function Commit(c: Change): ZoneData {
    var serial := c.zone.Serial();
    var z := c.zone.WithSerial(NextSerial(serial));
    z.(journal := LastSteps(z.journal + [Step(serial, NextSerial(serial), c.dels, c.adds)]))
  }

  /** The swap at the end of `_resign`; the signer itself is the parameter. */
  function Resigned(z: ZoneData, sign: ZoneData -> ZoneData): ZoneData {
    if z.signed then
      var s := sign(z);
      z.(records := s.records, ttls := s.ttls, rrsigs := s.rrsigs, signed := s.signed)
    else z
  }

  function ApplyUpdate(z: ZoneData, msg: UpdateMsg, policy: UpdatePolicy, sign: ZoneData -> ZoneData): (ZoneData, Rcode) {
    var rc := Admission(z, msg, policy);
    if rc != NoError then (z, rc)
    else
      var c := ApplyAll(Change(z, [], []), msg.authority);
      if c.adds == [] && c.dels == [] then (c.zone, NoError)
      else (Resigned(Commit(c), sign), NoError)
  }

  /** The SOA slot holds SOA rdata. */
  predicate SoaTyped(z: ZoneData) {
    forall rd | rd in z.Rrset(z.origin, TYPE_SOA) :: rd.SoaData?
  }

  method Admit(zone: Zone, msg: UpdateMsg, policy: UpdatePolicy) returns (rc: Rcode)
    ensures rc == Admission(zone.Data(), msg, policy)
  {
    if msg.question.None? || msg.question.value.1 != TYPE_SOA {
      return FormErr;
    }
    if zone.origin != msg.question.value.0 {
      return NotAuth;
    }
    rc := CheckPrerequisites(zone, msg.answers);
    if rc != NoError {
      return;
    }
    for i := 0 to |msg.authority|
      invariant AuthorizationRcode(zone.Data(), policy, msg.authority) ==
                AuthorizationRcode(zone.Data(), policy, msg.authority[i..])
    {
      var rr := msg.authority[i];
      if !IsSubdomainOf(rr.name, zone.origin) {
        return NotZone;
      }
      if !policy.Permits(zone.origin, rr.name) {
        return Refused;
      }
    }
    for i := 0 to |msg.authority|
      invariant forall j | 0 <= j < i :: UpdateClass(msg.authority[j])
    {
      if !UpdateClass(msg.authority[i]) {
        return FormErr;
      }
    }
    return if zone.Data().Soa().None? then ServFail else NoError;
  }

  method ApplyUpdateInPlace(zone: Zone, msg: UpdateMsg, policy: UpdatePolicy, sign: ZoneData -> ZoneData)
    returns (rc: Rcode)
    requires SoaTyped(zone.Data())
    requires forall rr | rr in msg.authority :: WellTyped(rr)
    modifies zone
    ensures (zone.Data(), rc) == ApplyUpdate(old(zone.Data()), msg, policy, sign)
  {
    ghost var z := zone.Data();
    rc := Admit(zone, msg, policy);
    if rc != NoError {
      return;
    }
    var deletions, additions := [], [];
    for i := 0 to |msg.authority|
      invariant ApplyAll(Change(z, [], []), msg.authority) ==
                ApplyAll(Change(zone.Data(), deletions, additions), msg.authority[i..])
    {
      deletions, additions := ApplyOneInPlace(zone, msg.authority[i], deletions, additions);
    }
    if additions == [] && deletions == [] {
      return NoError;
    }
    SoaSurvives(Change(z, [], []), msg.authority);
    BumpAndLog(zone, deletions, additions);
    if zone.signed {
      var s := sign(zone.Data());
      zone.records, zone.ttls, zone.rrsigs, zone.signed := s.records, s.ttls, s.rrsigs, s.signed;
    }
  }

  method BumpAndLog(zone: Zone, deletions: seq<RR>, additions: seq<RR>)
    requires zone.Data().Soa().Some? && SoaTyped(zone.Data())
    modifies zone
    ensures zone.Data() == Commit(Change(old(zone.Data()), deletions, additions))
  {
    var serial := zone.Data().Serial();
    zone.SetSerial((serial + 1) % SERIAL_SPACE);
    zone.journal := zone.journal + [Step(serial, NextSerial(serial), deletions, additions)];
    if |zone.journal| > MAX_JOURNAL {
      zone.journal := zone.journal[|zone.journal| - MAX_JOURNAL..];
    }
  }
}
