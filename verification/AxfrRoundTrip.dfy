// A full transfer rebuilds the zone it was made from, exactly when the zone
// holds nothing the stream cannot carry.

module AxfrRoundTrip {
  import opened Dns
  import opened Zones
  import opened Updates
  import opened Xfr

  /** Every stored rdata is of the kind its type promises. */
  ghost predicate RecordsTyped(z: ZoneData) {
    forall n, t, rd :: rd in z.Rrset(n, t) ==>
      (t == TYPE_SOA ==> rd.SoaData?) && (t == TYPE_RRSIG ==> rd.SigData?)
  }

  /** Signatures are filed under the type they cover. */
  ghost predicate SigsTyped(z: ZoneData) {
    forall n, t :: (n, t) in z.rrsigs ==> z.rrsigs[(n, t)].SigData? && z.rrsigs[(n, t)].covered == t
  }

  /** The records an AXFR stream has a place for: one SOA, at the apex, and no
    * RRSIG kept as an ordinary record. */
  ghost predicate Representable(z: ZoneData) {
    SingleSoa(z) && NoLooseSigs(z)
  }

  ghost predicate SingleSoa(z: ZoneData) {
    |z.Rrset(z.origin, TYPE_SOA)| == 1 && forall n :: n != z.origin ==> z.Rrset(n, TYPE_SOA) == []
  }

  ghost predicate NoLooseSigs(z: ZoneData) {
    forall n :: z.Rrset(n, TYPE_RRSIG) == []
  }

  function LiveSigs(z: ZoneData): map<Key, Rdata> {
    map k | k in z.rrsigs && z.Rrset(k.0, k.1) != [] :: z.rrsigs[k]
  }

  /** `s` serves what `p` serves: the same records, TTLs and signatures. */
  ghost predicate Agrees(p: ZoneData, s: ZoneData) {
    && s.origin == p.origin
    && s.records == p.records
    && (forall n, t :: p.Rrset(n, t) != [] ==> s.TtlOf(n, t) == p.TtlOf(n, t))
    && s.rrsigs == LiveSigs(p)
  }

  // ---- The records of a stream, RRset by RRset ----

  function RdatasAt(records: seq<RR>, n: Name, t: RType): seq<Rdata> {
    if records == [] then []
    else (if records[0].name == n && records[0].rtype == t then [records[0].rdata] else [])
         + RdatasAt(records[1..], n, t)
  }

  lemma {:induction false} RdatasAtAppend(a: seq<RR>, b: seq<RR>, n: Name, t: RType)
    ensures RdatasAt(a + b, n, t) == RdatasAt(a, n, t) + RdatasAt(b, n, t)
  {
    if a == [] {
      assert a + b == b;
    } else {
      assert (a + b)[1..] == a[1..] + b;
      RdatasAtAppend(a[1..], b, n, t);
    }
  }

  lemma {:induction false} OneAt(rr: RR, n: Name, t: RType)
    ensures RdatasAt([rr], n, t) == if rr.name == n && rr.rtype == t then [rr.rdata] else []
  {
    assert [rr][1..] == [];
  }

  lemma {:induction false} RdatasAtCons(records: seq<RR>, n: Name, t: RType)
    requires records != []
    ensures RdatasAt(records, n, t) == RdatasAt([records[0]], n, t) + RdatasAt(records[1..], n, t)
  {
    assert [records[0]][1..] == [];
  }

  lemma {:induction false} Regroup(a: seq<Rdata>, b: seq<Rdata>, c: seq<Rdata>)
    ensures (a + b) + c == a + (b + c)
  {
  }

  lemma RdatasAtRrset(n: Name, t: RType, ttl: nat, rds: seq<Rdata>, n': Name, t': RType)
    ensures RdatasAt(RrsetRecords(n, t, ttl, rds), n', t') == if n' == n && t' == t then rds else []
  {
  }

  lemma {:induction false} SigsAreElsewhere(z: ZoneData, n: Name, t: RType, n': Name, t': RType)
    requires t' != TYPE_RRSIG
    ensures RdatasAt(SigRecords(z, n, t), n', t') == []
  {
  }

  /** The records of one RRset with its signature. */
  lemma {:induction false} RdatasAtType(z: ZoneData, n: Name, t: RType, n': Name, t': RType)
    requires t' != TYPE_RRSIG
    ensures RdatasAt(RrsetRecords(n, t, z.TtlOf(n, t), z.Rrset(n, t)) + SigRecords(z, n, t), n', t') ==
            if n' == n && t' == t then z.Rrset(n, t) else []
  {
    hide RdatasAt, RrsetRecords, SigRecords, ZoneData.Rrset;
    var recs := RrsetRecords(n, t, z.TtlOf(n, t), z.Rrset(n, t));
    RdatasAtAppend(recs, SigRecords(z, n, t), n', t');
    RdatasAtRrset(n, t, z.TtlOf(n, t), z.Rrset(n, t), n', t');
    SigsAreElsewhere(z, n, t, n', t');
  }

  lemma {:induction false} FirstType(z: ZoneData, n: Name, types: seq<RType>)
    requires types != []
    ensures var t, rest := types[0], TypeRecords(z, n, types[1..]);
            TypeRecords(z, n, types) ==
            if n == z.origin && t == TYPE_SOA then rest
            else (RrsetRecords(n, t, z.TtlOf(n, t), z.Rrset(n, t)) + SigRecords(z, n, t)) + rest
  {
    hide RrsetRecords, SigRecords, ZoneData.Rrset;
  }

  lemma {:induction false} RdatasAtTypes(z: ZoneData, n: Name, types: seq<RType>, n': Name, t': RType)
    requires forall i, j :: 0 <= i < j < |types| ==> types[i] != types[j]
    requires t' !in {TYPE_SOA, TYPE_RRSIG}
    ensures RdatasAt(TypeRecords(z, n, types), n', t') == if n' == n && t' in types then z.Rrset(n, t') else []
  {
    hide RdatasAt, RrsetRecords, SigRecords, ZoneData.Rrset, TypeRecords;
    if types == [] {
      NoTypes(z, n);
      NoRecords(n', t');
    } else {
      var t, rest := types[0], TypeRecords(z, n, types[1..]);
      var first := RrsetRecords(n, t, z.TtlOf(n, t), z.Rrset(n, t)) + SigRecords(z, n, t);
      RdatasAtTypes(z, n, types[1..], n', t');
      RdatasAtType(z, n, t, n', t');
      RdatasAtAppend(first, rest, n', t');
      FirstType(z, n, types);
      assert t !in types[1..];
      assert t' in types <==> t' == t || t' in types[1..];
    }
  }

  lemma {:induction false} NoTypes(z: ZoneData, n: Name)
    ensures TypeRecords(z, n, []) == []
  {
  }

  lemma {:induction false} RdatasAtNodes(z: ZoneData, names: seq<Name>, n: Name, t: RType)
    requires forall i, j :: 0 <= i < j < |names| ==> names[i] != names[j]
    requires t !in {TYPE_SOA, TYPE_RRSIG}
    ensures RdatasAt(NodeRecords(z, names), n, t) == if n in names then z.Rrset(n, t) else []
  {
    hide RdatasAt, TypeRecords;
    if names != [] {
      var types := SortedTypes(z.NodeOf(names[0]).Keys);
      RdatasAtNodes(z, names[1..], n, t);
      RdatasAtAppend(TypeRecords(z, names[0], types), NodeRecords(z, names[1..]), n, t);
      RdatasAtTypes(z, names[0], types, n, t);
      assert names[0] !in names[1..];
      assert n in names <==> n == names[0] || n in names[1..];
    } else {
      NoRecords(n, t);
    }
  }

  lemma {:induction false} NoRecords(n: Name, t: RType)
    ensures RdatasAt([], n, t) == []
  {
  }

  lemma {:induction false} RdatasAtStream(z: ZoneData, names: seq<Name>, n: Name, t: RType)
    requires z.Soa().Some? && Lists(names, z.records.Keys)
    requires t !in {TYPE_SOA, TYPE_RRSIG}
    ensures RdatasAt(AxfrStream(z, names), n, t) == z.Rrset(n, t)
  {
    OneAt(SoaRR(z), n, t);
    SigsAreElsewhere(z, z.origin, TYPE_SOA, n, t);
    RdatasAtNodes(z, names, n, t);
    hide RdatasAt, NodeRecords, SigRecords;
    var body, sig := NodeRecords(z, names), SigRecords(z, z.origin, TYPE_SOA);
    RdatasAtAppend([SoaRR(z)] + body + sig, [SoaRR(z)], n, t);
    RdatasAtAppend([SoaRR(z)] + body, sig, n, t);
    RdatasAtAppend([SoaRR(z)], body, n, t);
    NotAnOwner(z, names, n, t);
  }

  lemma {:induction false} NotAnOwner(z: ZoneData, names: seq<Name>, n: Name, t: RType)
    requires Lists(names, z.records.Keys)
    ensures n !in names ==> z.Rrset(n, t) == []
  {
  }

  // ---- What each record of a stream says ----

  /** `sig` is the signature of the RRset (n, t), which exists. */
  ghost predicate Signs(z: ZoneData, n: Name, t: RType, sig: Rdata) {
    (n, t) in z.rrsigs && z.rrsigs[(n, t)] == sig && z.Rrset(n, t) != []
  }

  /** `rr` states something true of `z`: a TTL of its RRset, or one of its signatures. */
  ghost predicate Speaks(z: ZoneData, rr: RR) {
    && WellTyped(rr)
    && (rr.rtype != TYPE_RRSIG ==> rr.ttl == z.TtlOf(rr.name, rr.rtype))
    && (rr.rtype == TYPE_RRSIG && z.Rrset(rr.name, TYPE_RRSIG) == [] ==>
          Signs(z, rr.name, rr.rdata.covered, rr.rdata))
  }

  lemma {:induction false} RrsetSpeaks(z: ZoneData, n: Name, t: RType, rds: seq<Rdata>)
    requires RecordsTyped(z) && forall rd :: rd in rds ==> rd in z.Rrset(n, t)
    ensures forall rr :: rr in RrsetRecords(n, t, z.TtlOf(n, t), rds) ==> Speaks(z, rr)
  {
    if rds != [] {
      assert rds[0] in rds;
      RrsetSpeaks(z, n, t, rds[1..]);
    }
  }

  lemma {:induction false} TypesSpeak(z: ZoneData, n: Name, types: seq<RType>)
    requires RecordsTyped(z) && SigsTyped(z)
    requires forall t :: t in types ==> z.Rrset(n, t) != []
    ensures forall rr :: rr in TypeRecords(z, n, types) ==> Speaks(z, rr)
    ensures forall t :: t in types && (n, t) in z.rrsigs && !(n == z.origin && t == TYPE_SOA) ==>
              RR(n, TYPE_RRSIG, CLASS_IN, z.TtlOf(n, t), z.rrsigs[(n, t)]) in TypeRecords(z, n, types)
  {
    if types != [] {
      RrsetSpeaks(z, n, types[0], z.Rrset(n, types[0]));
      TypesSpeak(z, n, types[1..]);
    }
  }

  lemma {:induction false} NodesSpeak(z: ZoneData, names: seq<Name>)
    requires z.WellFormed() && RecordsTyped(z) && SigsTyped(z)
    ensures forall rr :: rr in NodeRecords(z, names) ==> Speaks(z, rr)
    ensures forall n, t, sig :: n in names && Signs(z, n, t, sig) && !(n == z.origin && t == TYPE_SOA) ==>
              RR(n, TYPE_RRSIG, CLASS_IN, z.TtlOf(n, t), sig) in NodeRecords(z, names)
  {
    if names != [] {
      TypesSpeak(z, names[0], SortedTypes(z.NodeOf(names[0]).Keys));
      NodesSpeak(z, names[1..]);
    }
  }

  lemma {:induction false} StreamSpeaks(z: ZoneData, names: seq<Name>)
    requires z.WellFormed() && RecordsTyped(z) && SigsTyped(z) && z.Soa().Some?
    requires Lists(names, z.records.Keys)
    ensures forall rr :: rr in AxfrStream(z, names) ==> Speaks(z, rr)
    ensures forall n, t, sig :: Signs(z, n, t, sig) ==>
              RR(n, TYPE_RRSIG, CLASS_IN, z.TtlOf(n, t), sig) in AxfrStream(z, names)
  {
    hide NodeRecords, SigRecords, Speaks, RecordsTyped, SigsTyped;
    NodesSpeak(z, names);
    ApexSpeaks(z);
    StreamMembers(z, names);
    forall n, t, s | Signs(z, n, t, s) && !(n == z.origin && t == TYPE_SOA)
      ensures RR(n, TYPE_RRSIG, CLASS_IN, z.TtlOf(n, t), s) in AxfrStream(z, names)
    {
      assert n in names;
    }
  }

  lemma {:induction false} StreamMembers(z: ZoneData, names: seq<Name>)
    requires z.Soa().Some?
    ensures forall rr :: rr in AxfrStream(z, names) <==>
              rr == SoaRR(z) || rr in NodeRecords(z, names) || rr in SigRecords(z, z.origin, TYPE_SOA)
  {
    hide NodeRecords, SigRecords, SoaRR;
  }

  lemma {:induction false} ApexSpeaks(z: ZoneData)
    requires RecordsTyped(z) && SigsTyped(z) && z.Soa().Some?
    ensures Speaks(z, SoaRR(z)) && forall rr :: rr in SigRecords(z, z.origin, TYPE_SOA) ==> Speaks(z, rr)
    ensures forall sig :: Signs(z, z.origin, TYPE_SOA, sig) ==>
              RR(z.origin, TYPE_RRSIG, CLASS_IN, z.TtlOf(z.origin, TYPE_SOA), sig) in SigRecords(z, z.origin, TYPE_SOA)
  {
    assert SoaRR(z).rdata in z.Rrset(z.origin, TYPE_SOA);
  }

  // ---- Reading a stream ----

  lemma {:induction false} LoadOneRrset(z: ZoneData, seen: bool, rr: RR, n: Name, t: RType)
    requires WellTyped(rr)
    ensures LoadRecord(z, seen, rr).0.origin == z.origin && (seen ==> LoadRecord(z, seen, rr).1)
    ensures var after := LoadRecord(z, seen, rr).0.Rrset(n, t);
            after == if rr.name == n && rr.rtype == t && t != TYPE_RRSIG && (t == TYPE_SOA ==> !seen)
                     then z.Rrset(n, t) + [rr.rdata] else z.Rrset(n, t)
  {
    RrsetOfSet(z, rr.name, rr.rtype, z.Rrset(rr.name, rr.rtype) + [rr.rdata], n, t);
  }

  /** After its first SOA, a stream adds its ordinary records and nothing else. */
  lemma {:induction false} LoadRrset(z: ZoneData, records: seq<RR>, n: Name, t: RType)
    requires forall rr :: rr in records ==> WellTyped(rr)
    ensures Load(z, true, records).origin == z.origin
    ensures Load(z, true, records).Rrset(n, t) ==
            z.Rrset(n, t) + if t in {TYPE_SOA, TYPE_RRSIG} then [] else RdatasAt(records, n, t)
    decreases |records|
  {
    hide LoadRecord, WellTyped, ZoneData.Rrset, RdatasAt;
    if records != [] {
      var z', rr := LoadRecord(z, true, records[0]).0, records[0];
      assert rr in records;
      LoadOneRrset(z, true, rr, n, t);
      LoadRrset(z', records[1..], n, t);
      RdatasAtCons(records, n, t);
      OneAt(rr, n, t);
      Regroup(z.Rrset(n, t), RdatasAt([rr], n, t), RdatasAt(records[1..], n, t));
    } else {
      NoRecords(n, t);
      assert z.Rrset(n, t) + [] == z.Rrset(n, t);
    }
  }

  lemma {:induction false} LoadKeepsWellFormed(z: ZoneData, seen: bool, records: seq<RR>)
    requires z.WellFormed()
    ensures Load(z, seen, records).WellFormed()
    decreases |records|
  {
    if records != [] {
      var rr := records[0];
      SetKeepsWellFormed(z, rr.name, rr.rtype, z.Rrset(rr.name, rr.rtype) + [rr.rdata]);
      var (z', seen') := LoadRecord(z, seen, rr);
      LoadKeepsWellFormed(z', seen', records[1..]);
    }
  }

  /** TTLs and signatures read from records that speak for `p` are those of `p`. */
  ghost predicate Heard(p: ZoneData, z: ZoneData) {
    && (forall n: Name, t: RType :: (n, t) in z.ttls ==> z.ttls[(n, t)] == p.TtlOf(n, t))
    && (forall n: Name, t: RType :: z.Rrset(n, t) != [] ==> (n, t) in z.ttls)
    && (forall n: Name, t: RType :: (n, t) in z.rrsigs ==> Signs(p, n, t, z.rrsigs[(n, t)]))
  }

  lemma {:induction false} LoadHears(p: ZoneData, z: ZoneData, seen: bool, records: seq<RR>)
    requires forall n :: p.Rrset(n, TYPE_RRSIG) == []
    requires forall rr :: rr in records ==> Speaks(p, rr)
    requires Heard(p, z)
    ensures Heard(p, Load(z, seen, records))
    ensures z.rrsigs.Keys <= Load(z, seen, records).rrsigs.Keys
    ensures forall rr :: rr in records && rr.rtype == TYPE_RRSIG && rr.rdata.SigData? ==>
              (rr.name, rr.rdata.covered) in Load(z, seen, records).rrsigs
    decreases |records|
  {
    if records != [] {
      assert records[0] in records;
      assert p.Rrset(records[0].name, TYPE_RRSIG) == [];
      OneHeard(p, z, seen, records[0]);
      hide LoadRecord, Speaks, Heard;
      var (z', seen') := LoadRecord(z, seen, records[0]);
      LoadHears(p, z', seen', records[1..]);
    }
  }

  lemma {:induction false} OneHeard(p: ZoneData, z: ZoneData, seen: bool, rr: RR)
    requires p.Rrset(rr.name, TYPE_RRSIG) == [] && Speaks(p, rr) && Heard(p, z)
    ensures var z' := LoadRecord(z, seen, rr).0;
            && Heard(p, z') && z.rrsigs.Keys <= z'.rrsigs.Keys
            && (rr.rtype == TYPE_RRSIG && rr.rdata.SigData? ==> (rr.name, rr.rdata.covered) in z'.rrsigs)
  {
    var z' := LoadRecord(z, seen, rr).0;
    forall n: Name, t: RType | z'.Rrset(n, t) != []
      ensures (n, t) in z'.ttls
    {
      LoadOneRrset(z, seen, rr, n, t);
    }
  }

  /** What a secondary assembles from a full transfer of `z`. */
  function Rebuilt(z: ZoneData, names: seq<Name>): ZoneData
    requires z.Soa().Some?
  {
    Load(EmptyZone(z.origin), false, AxfrStream(z, names))
  }

  lemma {:induction false} RebuiltRrset(z: ZoneData, names: seq<Name>, n: Name, t: RType)
    requires z.WellFormed() && RecordsTyped(z) && SigsTyped(z) && z.Soa().Some?
    requires Lists(names, z.records.Keys)
    ensures Rebuilt(z, names).origin == z.origin
    ensures Rebuilt(z, names).Rrset(n, t) ==
            if t == TYPE_RRSIG then []
            else if t == TYPE_SOA then (if n == z.origin then [z.Soa().value] else [])
            else z.Rrset(n, t)
  {
    hide SigsTyped, Signs, Lists, NodeRecords, SigRecords;
    var stream, soa := AxfrStream(z, names), SoaRR(z);
    var z1 := EmptyZone(z.origin).Add(z.origin, TYPE_SOA, soa.rdata, soa.ttl);
    StreamSpeaks(z, names);
    assert stream[0] == soa && stream == [soa] + stream[1..];
    assert Rebuilt(z, names) == Load(z1, true, stream[1..]);
    RrsetOfSet(EmptyZone(z.origin), z.origin, TYPE_SOA, [] + [soa.rdata], n, t);
    assert forall rr :: rr in stream[1..] ==> rr in stream;
    LoadRrset(z1, stream[1..], n, t);
    if t !in {TYPE_SOA, TYPE_RRSIG} {
      RdatasAtStream(z, names, n, t);
      assert z1.Rrset(n, t) == [];
    }
  }

  /** The round trip is exact if and only if the zone is representable. */
  lemma {:induction false} AxfrRoundTripExact(z: ZoneData, names: seq<Name>)
    requires z.WellFormed() && RecordsTyped(z) && SigsTyped(z) && z.Soa().Some?
    requires Lists(names, z.records.Keys)
    ensures Rebuilt(z, names).records == z.records <==> Representable(z)
    ensures Representable(z) ==> Agrees(z, Rebuilt(z, names))
  {
    var r := Rebuilt(z, names);
    forall n, t
      ensures r.Rrset(n, t) == if t == TYPE_RRSIG then []
                               else if t == TYPE_SOA then (if n == z.origin then [z.Soa().value] else [])
                               else z.Rrset(n, t)
    {
      RebuiltRrset(z, names, n, t);
    }
    if r.records == z.records {
      assert forall n, t :: r.Rrset(n, t) == z.Rrset(n, t);
    }
    if Representable(z) {
      assert z.Rrset(z.origin, TYPE_SOA) == [z.Soa().value];
      LoadKeepsWellFormed(EmptyZone(z.origin), false, AxfrStream(z, names));
      RrsetsDetermineRecords(r, z);
      RebuiltAgrees(z, names);
    }
  }

  lemma {:induction false} RebuiltAgrees(z: ZoneData, names: seq<Name>)
    requires z.WellFormed() && RecordsTyped(z) && SigsTyped(z) && z.Soa().Some?
    requires Lists(names, z.records.Keys) && Representable(z)
    requires Rebuilt(z, names).records == z.records
    ensures Agrees(z, Rebuilt(z, names))
  {
    var r, stream := Rebuilt(z, names), AxfrStream(z, names);
    StreamSpeaks(z, names);
    LoadHears(z, EmptyZone(z.origin), false, stream);
    RebuiltRrset(z, names, z.origin, TYPE_SOA);
    assert forall n, t :: r.Rrset(n, t) == z.Rrset(n, t);
    assert forall n, t :: z.Rrset(n, t) != [] ==> r.TtlOf(n, t) == z.TtlOf(n, t);
    forall n: Name, t: RType
      ensures (n, t) in r.rrsigs <==> (n, t) in LiveSigs(z)
      ensures (n, t) in r.rrsigs ==> r.rrsigs[(n, t)] == LiveSigs(z)[(n, t)]
    {
      if (n, t) in LiveSigs(z) {
        var sig := z.rrsigs[(n, t)];
        assert Signs(z, n, t, sig);
        assert RR(n, TYPE_RRSIG, CLASS_IN, z.TtlOf(n, t), sig) in stream && sig.covered == t;
      }
    }
    SameMap(r.rrsigs, LiveSigs(z));
  }

  lemma {:induction false} SameMap(a: map<Key, Rdata>, b: map<Key, Rdata>)
    requires forall n: Name, t: RType :: (n, t) in a <==> (n, t) in b
    requires forall n: Name, t: RType :: (n, t) in a ==> a[(n, t)] == b[(n, t)]
    ensures a == b
  {
    forall k: Key
      ensures k in a <==> k in b
      ensures k in a ==> a[k] == b[k]
    {
      assert k == (k.0, k.1);
    }
  }
}
