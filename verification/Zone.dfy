// The record store of one authoritative zone (auth_zone/zone.py).

module Zones {
  import opened Wrappers
  import opened Dns

  const DEFAULT_TTL: nat := 3600

  type Node = map<RType, seq<Rdata>>
  type Key = (Name, RType)

  /** One IXFR journal entry: what a version changed. */
  datatype Step = Step(from: nat, to: nat, dels: seq<RR>, adds: seq<RR>)

  /** The value of a zone at one moment. */
  datatype ZoneData = ZoneData(
    origin: Name,
    records: map<Name, Node>,
    ttls: map<Key, nat>,
    rrsigs: map<Key, Rdata>,
    signed: bool,
    journal: seq<Step>)
  {
    function NodeOf(n: Name): Node {
      if n in records then records[n] else map[]
    }

    function Rrset(n: Name, t: RType): seq<Rdata> {
      if t in NodeOf(n) then NodeOf(n)[t] else []
    }

    function TtlOf(n: Name, t: RType): nat {
      if (n, t) in ttls then ttls[(n, t)] else DEFAULT_TTL
    }

    function Soa(): Option<Rdata> {
      var soas := Rrset(origin, TYPE_SOA);
      if soas == [] then None else Some(soas[0])
    }

    /** Replaces one RRset; an emptied RRset, and a node left empty, disappear. */
    function SetRrset(n: Name, t: RType, rds: seq<Rdata>): ZoneData {
      var node := if rds == [] then NodeOf(n) - {t} else NodeOf(n)[t := rds];
      this.(records := if node == map[] then records - {n} else records[n := node])
    }

    function Add(n: Name, t: RType, rd: Rdata, ttl: nat): ZoneData {
      SetRrset(n, t, Rrset(n, t) + [rd]).(ttls := ttls[(n, t) := ttl])
    }

    /** The serial of a zone that has an SOA. */
    function Serial(): nat {
      match Soa()
      case Some(SoaData(_, _, serial, _, _, _, _)) => serial
      case _ => 0
    }

    function WithSerial(serial: nat): ZoneData {
      match Soa()
      case Some(SoaData(m, r, _, rf, rt, e, mi)) =>
        SetRrset(origin, TYPE_SOA,
                 [SoaData(m, r, serial, rf, rt, e, mi)] + Rrset(origin, TYPE_SOA)[1..])
      case _ => this
    }

    /** No empty node and no empty RRset. */
    ghost predicate WellFormed() {
      && (forall n :: n in records ==> records[n] != map[])
      && (forall n, t :: n in records && t in records[n] ==> records[n][t] != [])
    }
  }

  function EmptyZone(origin: Name): ZoneData {
    ZoneData(origin, map[], map[], map[], false, [])
  }

  /** `names` lists the owner names of a zone, each once, in some order. */
  ghost predicate Lists<T(!new)>(names: seq<T>, keys: set<T>) {
    && (forall n :: n in names <==> n in keys)
    && (forall i, j :: 0 <= i < j < |names| ==> names[i] != names[j])
  }

  class Zone {
    const origin: Name
    var records: map<Name, Node>
    var ttls: map<Key, nat>
    var rrsigs: map<Key, Rdata>
    var signed: bool
    var journal: seq<Step>

    function Data(): ZoneData
      reads this
    {
      ZoneData(origin, records, ttls, rrsigs, signed, journal)
    }

    constructor (origin: Name)
      ensures Data() == EmptyZone(origin)
    {
      this.origin := origin;
      records, ttls, rrsigs, signed, journal := map[], map[], map[], false, [];
    }

    /** The deep copy a delta is applied to. */
    constructor Copy(other: Zone)
      ensures Data() == other.Data()
    {
      origin := other.origin;
      records, ttls, rrsigs := other.records, other.ttls, other.rrsigs;
      signed, journal := other.signed, other.journal;
    }

    method Add(name: Name, rtype: RType, rdata: Rdata, ttl: nat)
      modifies this
      ensures Data() == old(Data()).Add(name, rtype, rdata, ttl)
    {
      if name !in records {
        records := records[name := map[]];
      }
      var node: Node := records[name];
      if rtype !in node {
        node := node[rtype := []];
      }
      node := node[rtype := node[rtype] + [rdata]];
      records := records[name := node];
      ttls := ttls[(name, rtype) := ttl];
      assert node == old(Data()).NodeOf(name)[rtype := old(Data()).Rrset(name, rtype) + [rdata]];
      assert rtype in node;
    }

    /** `soa.serial = serial`: the SOA rdata is edited in place. */
    method SetSerial(serial: nat)
      requires Data().Soa().Some? && Data().Soa().value.SoaData?
      modifies this
      ensures Data() == old(Data()).WithSerial(serial)
    {
      var soas := records[origin][TYPE_SOA];
      soas := soas[0 := soas[0].(serial := serial)];
      assert soas == [soas[0]] + soas[1..];
      var node: Node := records[origin][TYPE_SOA := soas];
      assert TYPE_SOA in node;
      records := records[origin := node];
    }

    /** The owner names. The code sorts them; nothing below depends on which order. */
    method Names() returns (names: seq<Name>)
      ensures Lists(names, records.Keys)
    {
      names := [];
      var todo := records.Keys;
      while todo != {}
        invariant todo <= records.Keys
        invariant Lists(names, records.Keys - todo)
      {
        var n :| n in todo;
        names := names + [n];
        todo := todo - {n};
      }
    }
  }

  // ---- How the operations act on one RRset ----

  lemma {:induction false} RrsetOfSet(z: ZoneData, n: Name, t: RType, rds: seq<Rdata>, n': Name, t': RType)
    ensures z.SetRrset(n, t, rds).Rrset(n', t') == if n' == n && t' == t then rds else z.Rrset(n', t')
  {
    if n' == n {
      var node := if rds == [] then z.NodeOf(n) - {t} else z.NodeOf(n)[t := rds];
      assert node == map[] ==> t' !in node;
    }
  }

  lemma {:induction false} RrsetOfAdd(z: ZoneData, n: Name, t: RType, rd: Rdata, ttl: nat, n': Name, t': RType)
    ensures z.Add(n, t, rd, ttl).Rrset(n', t') ==
            if n' == n && t' == t then z.Rrset(n, t) + [rd] else z.Rrset(n', t')
  {
    RrsetOfSet(z, n, t, z.Rrset(n, t) + [rd], n', t');
  }

  lemma {:induction false} SetKeepsWellFormed(z: ZoneData, n: Name, t: RType, rds: seq<Rdata>)
    requires z.WellFormed()
    ensures z.SetRrset(n, t, rds).WellFormed()
  {
  }

  lemma {:induction false} WithSerialRrset(z: ZoneData, serial: nat, n: Name, t: RType)
    requires z.Soa().Some? && z.Soa().value.SoaData?
    ensures z.WithSerial(serial).Rrset(n, t) ==
            if n == z.origin && t == TYPE_SOA
            then [z.Soa().value.(serial := serial)] + z.Rrset(z.origin, TYPE_SOA)[1..]
            else z.Rrset(n, t)
  {
    var rds := [z.Soa().value.(serial := serial)] + z.Rrset(z.origin, TYPE_SOA)[1..];
    assert z.WithSerial(serial) == z.SetRrset(z.origin, TYPE_SOA, rds);
    RrsetOfSet(z, z.origin, TYPE_SOA, rds, n, t);
  }

  /** A store without empty nodes or RRsets is determined by its RRsets. */
  lemma {:induction false} RrsetsDetermineRecords(a: ZoneData, b: ZoneData)
    requires a.WellFormed() && b.WellFormed()
    requires forall n, t :: a.Rrset(n, t) == b.Rrset(n, t)
    ensures a.records == b.records
  {
    forall n | n in a.records
      ensures n in b.records && a.records[n] == b.records[n]
    {
      SameNode(a, b, n);
    }
    forall n | n in b.records
      ensures n in a.records
    {
      SameNode(b, a, n);
    }
  }

  lemma {:induction false} SameNode(a: ZoneData, b: ZoneData, n: Name)
    requires a.WellFormed() && b.WellFormed() && n in a.records
    requires forall n, t :: a.Rrset(n, t) == b.Rrset(n, t)
    ensures n in b.records && a.records[n] == b.records[n]
  {
    var node := a.records[n];
    var some :| some in node;
    assert a.Rrset(n, some) == node[some] != [];
    assert b.Rrset(n, some) != [];
    forall t
      ensures t in node <==> t in b.records[n]
      ensures t in node ==> node[t] == b.records[n][t]
    {
      assert a.Rrset(n, t) == b.Rrset(n, t);
    }
  }
}
