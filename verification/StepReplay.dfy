// A secondary that replays one journal step on its copy of the zone before it: when
// that gives the zone after it, and what is left behind when it does not.

module StepReplay {
  import opened Dns
  import opened Zones
  import opened Updates
  import opened UpdateInvariants
  import opened Xfr
  import opened AxfrRoundTrip
  import opened DeltaReplay

  // ---- Zones that can be replicated ----

  /** An unsigned zone with one SOA. */
  ghost predicate Plain(z: ZoneData) {
    && z.WellFormed() && RecordsTyped(z) && SingleSoa(z)
    && !z.signed && z.rrsigs == map[]
    && z.Serial() < SERIAL_SPACE
  }

  /** The message adds no SOA to this zone. */
  ghost predicate AddsNoSoa(p: ZoneData, rrs: seq<RR>) {
    (forall rr | rr in rrs :: WellTyped(rr)) && NoSoa(Updated(p, rrs).adds)
  }

  predicate NoSoa(rrs: seq<RR>) {
    forall rr | rr in rrs :: rr.rtype != TYPE_SOA
  }

  /** The same zone but for the serial, which a secondary only moves at the end. */
  ghost predicate SameBody(p: ZoneData, s: ZoneData) {
    && s.origin == p.origin && s.WellFormed() && s.rrsigs == map[]
    && (forall n, t :: !(n == p.origin && t == TYPE_SOA) ==> s.Rrset(n, t) == p.Rrset(n, t))
    && SoaLike(p.Rrset(p.origin, TYPE_SOA), s.Rrset(p.origin, TYPE_SOA))
    && (forall n, t :: p.Rrset(n, t) != [] ==> s.TtlOf(n, t) == p.TtlOf(n, t))
  }

  predicate SoaLike(a: seq<Rdata>, b: seq<Rdata>) {
    |a| == |b| == 1 && a[0].SoaData? && b[0].SoaData? && a[0].(serial := 0) == b[0].(serial := 0)
  }

  lemma {:induction false} AgreesIsSameBody(p: ZoneData, s: ZoneData)
    requires Plain(p) && Agrees(p, s)
    ensures SameBody(p, s) && s.Serial() == p.Serial()
  {
    assert forall n, t :: s.Rrset(n, t) == p.Rrset(n, t);
    assert p.Rrset(p.origin, TYPE_SOA)[0] in p.Rrset(p.origin, TYPE_SOA);
  }

  lemma {:induction false} SameBodyAgrees(p: ZoneData, s: ZoneData)
    requires Plain(p) && SameBody(p, s)
    ensures s.Soa().Some? && Agrees(p, s.WithSerial(p.Serial()))
  {
    var s', soa := s.WithSerial(p.Serial()), s.Rrset(p.origin, TYPE_SOA)[0];
    SetKeepsWellFormed(s, s.origin, TYPE_SOA, [soa.(serial := p.Serial())] + s.Rrset(s.origin, TYPE_SOA)[1..]);
    forall n, t
      ensures s'.Rrset(n, t) == p.Rrset(n, t)
    {
      WithSerialRrset(s, p.Serial(), n, t);
    }
    RrsetsDetermineRecords(s', p);
  }

  // ---- One journal step ----

  function AddTtls(ttls: map<Key, nat>, adds: seq<RR>): map<Key, nat>
    decreases |adds|
  {
    if adds == [] then ttls
    else AddTtls(ttls[(adds[0].name, adds[0].rtype) := adds[0].ttl], adds[1..])
  }

  lemma {:induction false} AddTtlsAppend(ttls: map<Key, nat>, adds: seq<RR>, rr: RR)
    ensures AddTtls(ttls, adds + [rr]) == AddTtls(ttls, adds)[(rr.name, rr.rtype) := rr.ttl]
    decreases |adds|
  {
    if adds != [] {
      assert (adds + [rr])[1..] == adds[1..] + [rr];
      AddTtlsAppend(ttls[(adds[0].name, adds[0].rtype) := adds[0].ttl], adds[1..], rr);
    }
  }

  /** A TTL comes from the last addition to the RRset, if there is one. */
  lemma {:induction false} AddTtlsAt(a: map<Key, nat>, b: map<Key, nat>, adds: seq<RR>, n: Name, t: RType)
    requires RdatasAt(adds, n, t) == [] ==>
               (((n, t) in a <==> (n, t) in b) && ((n, t) in a ==> a[(n, t)] == b[(n, t)]))
    ensures var a', b' := AddTtls(a, adds), AddTtls(b, adds);
            ((n, t) in a' <==> (n, t) in b') && ((n, t) in a' ==> a'[(n, t)] == b'[(n, t)])
    decreases |adds|
  {
    if adds != [] {
      var k, ttl := (adds[0].name, adds[0].rtype), adds[0].ttl;
      AddTtlsAt(a[k := ttl], b[k := ttl], adds[1..], n, t);
    }
  }

  lemma {:induction false} AddTtlsUntouched(a: map<Key, nat>, adds: seq<RR>, n: Name, t: RType)
    requires RdatasAt(adds, n, t) == []
    ensures (n, t) in AddTtls(a, adds) <==> (n, t) in a
    ensures (n, t) in a ==> AddTtls(a, adds)[(n, t)] == a[(n, t)]
    decreases |adds|
  {
    if adds != [] {
      AddTtlsUntouched(a[(adds[0].name, adds[0].rtype) := adds[0].ttl], adds[1..], n, t);
    }
  }

  lemma {:induction false} RemoveRunFrame(z: ZoneData, dels: seq<RR>)
    requires NoSoa(dels) && z.WellFormed()
    ensures var r := RemoveRun(z, dels);
            r.origin == z.origin && r.ttls == z.ttls && r.rrsigs == z.rrsigs && r.WellFormed()
    decreases |dels|
  {
    if dels != [] {
      var d := dels[0];
      assert d in dels;
      SetKeepsWellFormed(z, d.name, d.rtype, Without(z.Rrset(d.name, d.rtype), d.rdata));
      RemoveRunFrame(Remove(z, d), dels[1..]);
    }
  }

  lemma {:induction false} RemoveRunRrset(z: ZoneData, dels: seq<RR>, n: Name, t: RType)
    requires NoSoa(dels)
    ensures RemoveRun(z, dels).Rrset(n, t) == Surviving(z.Rrset(n, t), dels, n, t)
    decreases |dels|
  {
    if dels == [] {
      SurvivingAll(z.Rrset(n, t), dels, n, t);
    } else {
      var d, rest := dels[0], dels[1..];
      assert d in dels && [d] + rest == dels;
      RemoveRunRrset(Remove(z, d), rest, n, t);
      RemoveOne(z, d, n, t);
      SurvivingTwice(z.Rrset(n, t), [d], rest, n, t);
    }
  }

  lemma {:induction false} RemoveOne(z: ZoneData, d: RR, n: Name, t: RType)
    ensures Remove(z, d).Rrset(n, t) == Surviving(z.Rrset(n, t), [d], n, t)
  {
    RrsetOfSet(z, d.name, d.rtype, Without(z.Rrset(d.name, d.rtype), d.rdata), n, t);
    if n == d.name && t == d.rtype {
      SurvivingOne(z.Rrset(n, t), d);
    } else {
      SurvivingAll(z.Rrset(n, t), [d], n, t);
    }
  }

  lemma {:induction false} AddRunFrame(z: ZoneData, adds: seq<RR>)
    requires NoSoa(adds) && z.WellFormed()
    ensures var r := AddRun(z, adds);
            r.origin == z.origin && r.ttls == AddTtls(z.ttls, adds) && r.rrsigs == z.rrsigs && r.WellFormed()
    decreases |adds|
  {
    if adds != [] {
      var rr := adds[0];
      assert rr in adds;
      SetKeepsWellFormed(z, rr.name, rr.rtype, z.Rrset(rr.name, rr.rtype) + [rr.rdata]);
      AddRunFrame(AddRR(z, rr), adds[1..]);
    }
  }

  lemma {:induction false} AddOne(z: ZoneData, rr: RR, n: Name, t: RType)
    ensures AddRR(z, rr).Rrset(n, t) == z.Rrset(n, t) + RdatasAt([rr], n, t)
  {
    RrsetOfAdd(z, rr.name, rr.rtype, rr.rdata, rr.ttl, n, t);
    assert RdatasAt([rr][1..], n, t) == [];
  }

  lemma {:induction false} AddRunRrset(z: ZoneData, adds: seq<RR>, n: Name, t: RType)
    requires NoSoa(adds)
    ensures AddRun(z, adds).Rrset(n, t) == z.Rrset(n, t) + RdatasAt(adds, n, t)
    decreases |adds|
  {
    if adds != [] {
      var rr, rest := adds[0], adds[1..];
      assert rr in adds;
      var z' := AddRR(z, rr);
      AddRunRrset(z', rest, n, t);
      AddOne(z, rr, n, t);
      RdatasAtCons(adds, n, t);
      Regroup(z.Rrset(n, t), RdatasAt([rr], n, t), RdatasAt(rest, n, t));
    }
  }

  /** What updates that add no SOA leave alone. */
  ghost predicate SameSpecial(a: ZoneData, b: ZoneData) {
    && a.origin == b.origin && a.rrsigs == b.rrsigs == map[] && a.signed == b.signed
    && forall n :: a.Rrset(n, TYPE_SOA) == b.Rrset(n, TYPE_SOA)
  }

  lemma {:induction false} OneKeepsTyped(c: Change, rr: RR)
    requires RecordsTyped(c.zone) && WellTyped(rr)
    ensures RecordsTyped(ApplyOne(c, rr).zone)
  {
    hide ApplyOne;
    forall n, t, rd | rd in ApplyOne(c, rr).zone.Rrset(n, t)
      ensures (t == TYPE_SOA ==> rd.SoaData?) && (t == TYPE_RRSIG ==> rd.SigData?)
    {
      OneRrset(c, rr, n, t);
      WithoutSpec(c.zone.Rrset(n, t), rr.rdata);
    }
  }

  lemma {:induction false} OnePlain(start: ZoneData, c: Change, rr: RR)
    requires Plain(start) && SameSpecial(start, c.zone)
    requires RecordsTyped(c.zone) && WellTyped(rr)
    requires NoSoa(c.dels) && NoSoa(ApplyOne(c, rr).adds)
    requires c.zone.ttls == AddTtls(start.ttls, c.adds)
    ensures var c' := ApplyOne(c, rr);
            && SameSpecial(start, c'.zone) && NoSoa(c'.dels) && RecordsTyped(c'.zone)
            && c'.zone.ttls == AddTtls(start.ttls, c'.adds)
  {
    hide ApplyOne, RecordsTyped;
    var c' := ApplyOne(c, rr);
    OneFrame(c, rr);
    OneKeepsTyped(c, rr);
    AddTtlsAppend(start.ttls, c.adds, rr);
    OneRest(c, rr);
    OneKeepsSoa(c, rr);
    forall n
      ensures c'.zone.Rrset(n, TYPE_SOA) == c.zone.Rrset(n, TYPE_SOA)
    {
      assert n != start.origin ==> c.zone.Rrset(n, TYPE_SOA) == [];
      OneRrset(c, rr, n, TYPE_SOA);
      NoSoaAdded(c, rr);
    }
    forall d | d in c'.dels
      ensures d.rtype != TYPE_SOA
    {
      if d !in c.dels {
        assert c'.dels == c.dels + NewDels(c, c');
        DeletedWasHeld(c, rr, d);
      }
    }
  }

  lemma {:induction false} NoSoaAdded(c: Change, rr: RR)
    requires NoSoa(ApplyOne(c, rr).adds)
    ensures rr.rclass !in {CLASS_ANY, CLASS_NONE} && rr.rtype == TYPE_SOA ==> rr.rdata in c.zone.Rrset(rr.name, rr.rtype)
  {
    if rr.rclass !in {CLASS_ANY, CLASS_NONE} && rr.rdata !in c.zone.Rrset(rr.name, rr.rtype) {
      assert rr in ApplyOne(c, rr).adds;
    }
  }

  /** The parts of a zone an update record touches only by adding. */
  lemma {:induction false} OneRest(c: Change, rr: RR)
    requires c.zone.rrsigs == map[]
    ensures var c' := ApplyOne(c, rr);
            && c'.zone.rrsigs == map[]
            && (|| (c'.adds == c.adds && c'.zone.ttls == c.zone.ttls)
                || (rr.rclass !in {CLASS_ANY, CLASS_NONE} && c'.adds == c.adds + [rr]
                    && c'.zone.ttls == c.zone.ttls[(rr.name, rr.rtype) := rr.ttl]))
  {
    if rr.rclass == CLASS_ANY {
      DropAllFrame(c, rr.name, SortedTypes(c.zone.NodeOf(rr.name).Keys));
    }
  }

  lemma {:induction false} AllPlain(start: ZoneData, c: Change, rrs: seq<RR>)
    requires Plain(start) && SameSpecial(start, c.zone)
    requires c.zone.WellFormed() && RecordsTyped(c.zone) && forall rr | rr in rrs :: WellTyped(rr)
    requires NoSoa(c.dels) && NoSoa(ApplyAll(c, rrs).adds)
    requires c.zone.ttls == AddTtls(start.ttls, c.adds)
    ensures var c' := ApplyAll(c, rrs);
            && SameSpecial(start, c'.zone) && NoSoa(c'.dels) && RecordsTyped(c'.zone)
            && c'.zone.ttls == AddTtls(start.ttls, c'.adds)
    decreases |rrs|
  {
    hide ApplyOne, Plain, RecordsTyped, SameSpecial, ZoneData.WellFormed, AddTtls;
    if rrs != [] {
      assert rrs[0] in rrs;
      var d := ApplyOne(c, rrs[0]);
      OneKeepsWellFormed(c, rrs[0]);
      AllKeepStore(d, rrs[1..]);
      assert forall rr | rr in d.adds :: rr in ApplyAll(c, rrs).adds;
      OnePlain(start, c, rrs[0]);
      AllPlain(start, d, rrs[1..]);
    }
  }

  /** What a primary is after a message, and the lists it journals. */
  function Updated(p: ZoneData, rrs: seq<RR>): Change {
    ApplyAll(Change(p, [], []), rrs)
  }

  lemma {:induction false} CommitStaysPlain(p: ZoneData, rrs: seq<RR>)
    requires Plain(p) && AddsNoSoa(p, rrs)
    ensures var c := Updated(p, rrs);
            && Plain(Commit(c)) && Commit(c).origin == p.origin
            && c.zone.Serial() == p.Serial() && Commit(c).Serial() == NextSerial(p.Serial())
            && NoSoa(c.dels) && NoSoa(c.adds)
            && SoaLike(p.Rrset(p.origin, TYPE_SOA), Commit(c).Rrset(p.origin, TYPE_SOA))
  {
    var c, o := Updated(p, rrs), p.origin;
    AllPlain(p, Change(p, [], []), rrs);
    AllKeepStore(Change(p, [], []), rrs);
    var soas := c.zone.Rrset(o, TYPE_SOA);
    assert soas == p.Rrset(o, TYPE_SOA) && soas[0] in soas;
    CommitRrsets(c);
    SetKeepsWellFormed(c.zone, o, TYPE_SOA, [soas[0].(serial := NextSerial(p.Serial()))] + soas[1..]);
    assert Commit(c).rrsigs == c.zone.rrsigs && Commit(c).signed == c.zone.signed;
    assert Commit(c).WellFormed();
  }

  /** The secondary's copy after one step of a delta. */
  function Stepped(s: ZoneData, c: Change): ZoneData {
    AddRun(RemoveRun(s, c.dels), c.adds)
  }

  lemma {:induction false} SteppedIsReplayed(s: ZoneData, c: Change)
    requires NoSoa(c.dels) && NoSoa(c.adds) && s.WellFormed()
    ensures var s' := Stepped(s, c);
            && s'.origin == s.origin && s'.WellFormed() && s'.rrsigs == s.rrsigs
            && s'.ttls == AddTtls(s.ttls, c.adds)
            && forall n, t :: s'.Rrset(n, t) == Replayed(s.Rrset(n, t), c.dels, c.adds, n, t)
  {
    RemoveRunFrame(s, c.dels);
    var r := RemoveRun(s, c.dels);
    AddRunFrame(r, c.adds);
    forall n, t
      ensures Stepped(s, c).Rrset(n, t) == Replayed(s.Rrset(n, t), c.dels, c.adds, n, t)
    {
      RemoveRunRrset(s, c.dels, n, t);
      AddRunRrset(r, c.adds, n, t);
    }
  }

  lemma {:induction false} CommitFrame(p: ZoneData, rrs: seq<RR>)
    requires Plain(p) && AddsNoSoa(p, rrs)
    ensures var c := Updated(p, rrs);
            && c.zone.origin == p.origin && Commit(c).ttls == c.zone.ttls == AddTtls(p.ttls, c.adds)
            && forall n, t :: !(n == p.origin && t == TYPE_SOA) ==> Commit(c).Rrset(n, t) == c.zone.Rrset(n, t)
    ensures Updated(p, rrs).zone.Rrset(p.origin, TYPE_SOA) == p.Rrset(p.origin, TYPE_SOA)
  {
    var c, o := Updated(p, rrs), p.origin;
    AllPlain(p, Change(p, [], []), rrs);
    var soas := c.zone.Rrset(o, TYPE_SOA);
    assert soas == p.Rrset(o, TYPE_SOA) && soas[0] in soas;
    CommitRrsets(c);
  }

  type Item = (Name, RType, Rdata)

  ghost function LeftAt(left: iset<Item>, n: Name, t: RType): iset<Rdata> {
    iset rd | (n, t, rd) in left
  }

  /** A secondary's copy with records left behind: it holds each of these more often
    * than the zone, and is otherwise the same zone, as SameBody has it. */
  ghost predicate SameBut(p: ZoneData, s: ZoneData, left: iset<Item>) {
    && s.origin == p.origin && s.WellFormed() && s.rrsigs == map[]
    && SoaLike(p.Rrset(p.origin, TYPE_SOA), s.Rrset(p.origin, TYPE_SOA))
    && (forall n, t :: !(n == p.origin && t == TYPE_SOA) ==> AlikeBut(p, s, left, n, t))
    && (forall n, t :: p.Rrset(n, t) != [] ==> s.TtlOf(n, t) == p.TtlOf(n, t))
    && (forall k :: k in left ==> Surplus(p, s, k))
  }

  ghost predicate AlikeBut(p: ZoneData, s: ZoneData, left: iset<Item>, n: Name, t: RType) {
    Outside(s.Rrset(n, t), LeftAt(left, n, t)) == Outside(p.Rrset(n, t), LeftAt(left, n, t))
  }

  ghost predicate Surplus(p: ZoneData, s: ZoneData, k: Item) {
    k.1 != TYPE_SOA && multiset(s.Rrset(k.0, k.1))[k.2] > multiset(p.Rrset(k.0, k.1))[k.2]
  }

  lemma {:induction false} NothingLeft(p: ZoneData, s: ZoneData, n: Name, t: RType)
    ensures AlikeBut(p, s, iset{}, n, t) <==> s.Rrset(n, t) == p.Rrset(n, t)
  {
    OutsideAll(s.Rrset(n, t), LeftAt(iset{}, n, t));
    OutsideAll(p.Rrset(n, t), LeftAt(iset{}, n, t));
  }

  /** It is the same zone exactly when nothing is left behind. */
  lemma {:induction false} SameButNothing(p: ZoneData, s: ZoneData, left: iset<Item>)
    ensures SameBody(p, s) ==> SameBut(p, s, iset{})
    ensures SameBut(p, s, left) ==> (SameBody(p, s) <==> left == iset{})
  {
    hide AlikeBut, ZoneData.WellFormed;
    forall n, t
      ensures AlikeBut(p, s, iset{}, n, t) <==> s.Rrset(n, t) == p.Rrset(n, t)
    {
      NothingLeft(p, s, n, t);
    }
    if k :| k in left && SameBut(p, s, left) {
      assert Surplus(p, s, k);
      assert s.Rrset(k.0, k.1) != p.Rrset(k.0, k.1);
    }
  }

  /** What a step leaves behind: what it deletes although it adds more copies than
    * there are in the end. */
  ghost predicate Leaves(step: Step, q: ZoneData, k: Item) {
    && Holds(step.dels, k.0, k.1, k.2)
    && multiset(RdatasAt(step.adds, k.0, k.1))[k.2] > multiset(q.Rrset(k.0, k.1))[k.2]
  }

  /** What is left behind after a step: what the step leaves, and what was left
    * before and is not deleted by it. */
  ghost function NextLeft(step: Step, q: ZoneData, left: iset<Item>): iset<Item> {
    iset k: Item | Leaves(step, q, k) || (k in left && !Holds(step.dels, k.0, k.1, k.2))
  }

  /** The journal entry of a message. */
  function StepOf(p: ZoneData, rrs: seq<RR>): Step {
    Step(p.Serial(), NextSerial(p.Serial()), Updated(p, rrs).dels, Updated(p, rrs).adds)
  }

  /** A step leaves exactly the records that its message deletes after adding them. */
  lemma {:induction false} StepLeaves(p: ZoneData, rrs: seq<RR>, k: Item)
    requires Plain(p) && AddsNoSoa(p, rrs)
    ensures Leaves(StepOf(p, rrs), Commit(Updated(p, rrs)), k) <==> DeletesAdded(Change(p, [], []), rrs, k.0, k.1, k.2)
    ensures Leaves(StepOf(p, rrs), Commit(Updated(p, rrs)), k) ==> k.1 != TYPE_SOA
  {
    hide ApplyAll, Plain, DeletesAdded, Commit, Holds;
    var c := Updated(p, rrs);
    CommitFrame(p, rrs);
    LeavesExactly(p, rrs, k.0, k.1, k.2);
    NoSoaCounts(c.adds, k.0);
    assert k.1 == TYPE_SOA ==> RdatasAt(c.adds, k.0, k.1) == [];
  }

  lemma {:induction false} NoSoaCounts(adds: seq<RR>, n: Name)
    requires NoSoa(adds)
    ensures RdatasAt(adds, n, TYPE_SOA) == []
  {
    AddedIsHeld(adds, n, TYPE_SOA);
    var added := RdatasAt(adds, n, TYPE_SOA);
    assert added == [] || Holds(adds, n, TYPE_SOA, added[0]);
  }

  lemma {:induction false} NoSoaSurvives(rds: seq<Rdata>, dels: seq<RR>, n: Name)
    requires NoSoa(dels)
    ensures Surviving(rds, dels, n, TYPE_SOA) == rds
  {
    SurvivingAll(rds, dels, n, TYPE_SOA);
  }

  /** Two RRsets that differ in what is left behind only still do after the deletions,
    * if whatever is not left any more has been deleted. */
  lemma {:induction false} SurvivingAlike(a: seq<Rdata>, b: seq<Rdata>, dels: seq<RR>, n: Name, t: RType,
                                          left: iset<Rdata>, next: iset<Rdata>)
    requires Outside(a, left) == Outside(b, left)
    requires forall rd :: rd in left && rd !in next ==> Holds(dels, n, t, rd)
    ensures Outside(Surviving(a, dels, n, t), next) == Outside(Surviving(b, dels, n, t), next)
  {
    SurvivingOutside(a, dels, n, t, left, next);
    SurvivingOutside(b, dels, n, t, left, next);
  }

  lemma {:induction false} SurvivingOutside(a: seq<Rdata>, dels: seq<RR>, n: Name, t: RType, left: iset<Rdata>, next: iset<Rdata>)
    requires forall rd :: rd in left && rd !in next ==> Holds(dels, n, t, rd)
    ensures Outside(Surviving(a, dels, n, t), next) == Outside(Surviving(Outside(a, left), dels, n, t), next)
  {
    if a != [] {
      var rest, kept := Outside(a[1..], left), Surviving(a[1..], dels, n, t);
      SurvivingOutside(a[1..], dels, n, t, left, next);
      OutsideAppend(if Holds(dels, n, t, a[0]) then [] else [a[0]], kept, next);
      assert ([a[0]] + rest)[1..] == rest && [] + rest == rest;
      if a[0] !in left {
        OutsideAppend(if Holds(dels, n, t, a[0]) then [] else [a[0]], Surviving(rest, dels, n, t), next);
      } else if !Holds(dels, n, t, a[0]) {
        assert Outside([a[0]], next) == [] + Outside([a[0]][1..], next) == [];
      }
    }
  }

  /** Leaving more out keeps two RRsets alike. */
  lemma {:induction false} OutsideMore(a: seq<Rdata>, b: seq<Rdata>, left: iset<Rdata>, next: iset<Rdata>)
    requires Outside(a, left) == Outside(b, left) && left <= next
    ensures Outside(a, next) == Outside(b, next)
  {
    OutsideTwice(a, left, next);
    OutsideTwice(b, left, next);
  }

  lemma {:induction false} OutsideTwice(a: seq<Rdata>, left: iset<Rdata>, next: iset<Rdata>)
    requires left <= next
    ensures Outside(Outside(a, left), next) == Outside(a, next)
  {
    if a != [] {
      OutsideTwice(a[1..], left, next);
      OutsideAppend(if a[0] in left then [] else [a[0]], Outside(a[1..], left), next);
      assert a[0] !in left ==> Outside([a[0]], next) == (if a[0] in next then [] else [a[0]]) + Outside([a[0]][1..], next);
    }
  }

  /** One RRset of the secondary after a step. */
  lemma {:induction false} StepAlike(p: ZoneData, rrs: seq<RR>, s: ZoneData, left: iset<Item>, n: Name, t: RType)
    requires Plain(p) && AddsNoSoa(p, rrs) && AlikeBut(p, s, left, n, t)
    ensures var c := Updated(p, rrs);
            var next := LeftAt(NextLeft(StepOf(p, rrs), Commit(c), left), n, t);
            Outside(Replayed(s.Rrset(n, t), c.dels, c.adds, n, t), next) == Outside(c.zone.Rrset(n, t), next)
  {
    hide ApplyAll, Plain, Commit, Leaves, Outside, Surviving, ZoneData.Rrset;
    var c := Updated(p, rrs);
    var next, added := LeftAt(NextLeft(StepOf(p, rrs), Commit(c), left), n, t), RdatasAt(c.adds, n, t);
    var a, b := Surviving(s.Rrset(n, t), c.dels, n, t), Surviving(p.Rrset(n, t), c.dels, n, t);
    ReplaysOutside(p, rrs, n, t);
    forall rd | rd in LeftBy(p, rrs, n, t)
      ensures rd in next
    {
      StepLeaves(p, rrs, (n, t, rd));
    }
    OutsideMore(c.zone.Rrset(n, t), b + added, LeftBy(p, rrs, n, t), next);
    SurvivingAlike(s.Rrset(n, t), p.Rrset(n, t), c.dels, n, t, LeftAt(left, n, t), next);
    OutsideAppend(a, added, next);
    OutsideAppend(b, added, next);
  }

  lemma {:induction false} StepSurplus(p: ZoneData, rrs: seq<RR>, s: ZoneData, left: iset<Item>, k: Item)
    requires Plain(p) && AddsNoSoa(p, rrs)
    requires k in NextLeft(StepOf(p, rrs), Commit(Updated(p, rrs)), left) && (k in left ==> Surplus(p, s, k))
    ensures var c := Updated(p, rrs);
            k.1 != TYPE_SOA && multiset(Replayed(s.Rrset(k.0, k.1), c.dels, c.adds, k.0, k.1))[k.2] > multiset(c.zone.Rrset(k.0, k.1))[k.2]
  {
    hide ApplyAll, Plain, Outside, Surviving, Commit, Holds, DeletesAdded;
    var c := Updated(p, rrs);
    var n, t, rd, added := k.0, k.1, k.2, RdatasAt(c.adds, k.0, k.1);
    var a, b := Surviving(s.Rrset(n, t), c.dels, n, t), Surviving(p.Rrset(n, t), c.dels, n, t);
    CommitFrame(p, rrs);
    StepLeaves(p, rrs, k);
    assert multiset(a + added)[rd] == multiset(a)[rd] + multiset(added)[rd];
    if !Leaves(StepOf(p, rrs), Commit(c), k) {
      SurvivingCount(s.Rrset(n, t), c.dels, n, t, rd);
      SurvivingCount(p.Rrset(n, t), c.dels, n, t, rd);
      ReplaysOutside(p, rrs, n, t);
      OutsideMembers(c.zone.Rrset(n, t), LeftBy(p, rrs, n, t));
      OutsideMembers(b + added, LeftBy(p, rrs, n, t));
      assert multiset(b + added)[rd] == multiset(b)[rd] + multiset(added)[rd];
    }
  }

  /** The same, of what the secondary serves. */
  lemma {:induction false} SteppedAlike(p: ZoneData, rrs: seq<RR>, s: ZoneData, left: iset<Item>, n: Name, t: RType)
    requires Plain(p) && AddsNoSoa(p, rrs) && SameBut(p, s, left) && !(n == p.origin && t == TYPE_SOA)
    ensures var q := Commit(Updated(p, rrs));
            AlikeBut(q, Stepped(s, Updated(p, rrs)), NextLeft(StepOf(p, rrs), q, left), n, t)
  {
    hide ApplyAll, Plain, Commit, NextLeft, Stepped, Outside, Surviving, ZoneData.Rrset, ZoneData.WellFormed;
    assert AlikeBut(p, s, left, n, t);
    CommitStaysPlain(p, rrs);
    CommitFrame(p, rrs);
    SteppedIsReplayed(s, Updated(p, rrs));
    StepAlike(p, rrs, s, left, n, t);
  }

  lemma {:induction false} SteppedSurplus(p: ZoneData, rrs: seq<RR>, s: ZoneData, left: iset<Item>, k: Item)
    requires Plain(p) && AddsNoSoa(p, rrs) && SameBut(p, s, left)
    requires k in NextLeft(StepOf(p, rrs), Commit(Updated(p, rrs)), left)
    ensures Surplus(Commit(Updated(p, rrs)), Stepped(s, Updated(p, rrs)), k)
  {
    hide ApplyAll, Plain, Commit, NextLeft, Stepped, Outside, Surviving, ZoneData.Rrset, ZoneData.WellFormed, AlikeBut;
    CommitStaysPlain(p, rrs);
    CommitFrame(p, rrs);
    SteppedIsReplayed(s, Updated(p, rrs));
    StepSurplus(p, rrs, s, left, k);
  }

  lemma {:induction false} SteppedTtl(p: ZoneData, rrs: seq<RR>, s: ZoneData, left: iset<Item>, n: Name, t: RType)
    requires Plain(p) && AddsNoSoa(p, rrs) && SameBut(p, s, left) && Commit(Updated(p, rrs)).Rrset(n, t) != []
    ensures Stepped(s, Updated(p, rrs)).TtlOf(n, t) == Commit(Updated(p, rrs)).TtlOf(n, t)
  {
    hide ApplyAll, Plain, Commit, Stepped, AddTtls, AlikeBut, Surplus, ZoneData.Rrset, ZoneData.WellFormed;
    CommitStaysPlain(p, rrs);
    CommitFrame(p, rrs);
    SteppedIsReplayed(s, Updated(p, rrs));
    if n == p.origin && t == TYPE_SOA {
      ApexSoaIsThere(p);
    }
    StepTtl(p, rrs, s, n, t);
  }

  lemma {:induction false} ApexSoaIsThere(p: ZoneData)
    requires Plain(p)
    ensures p.Rrset(p.origin, TYPE_SOA) != []
  {
  }

  lemma {:induction false} SteppedStore(p: ZoneData, rrs: seq<RR>, s: ZoneData, left: iset<Item>)
    requires Plain(p) && AddsNoSoa(p, rrs) && SameBut(p, s, left)
    ensures var q, s' := Commit(Updated(p, rrs)), Stepped(s, Updated(p, rrs));
            && s'.origin == q.origin && s'.WellFormed() && s'.rrsigs == map[]
            && SoaLike(q.Rrset(q.origin, TYPE_SOA), s'.Rrset(q.origin, TYPE_SOA))
  {
    hide ApplyAll, Plain, Commit, Stepped, AlikeBut, Surplus, SoaLike, ZoneData.Rrset, ZoneData.WellFormed, ZoneData.TtlOf;
    var c, o := Updated(p, rrs), p.origin;
    CommitStaysPlain(p, rrs);
    SteppedIsReplayed(s, c);
    NoSoaCounts(c.adds, o);
    NoSoaSurvives(s.Rrset(o, TYPE_SOA), c.dels, o);
    assert s.Rrset(o, TYPE_SOA) + [] == s.Rrset(o, TYPE_SOA);
    SoaLikeTrans(p.Rrset(o, TYPE_SOA), s.Rrset(o, TYPE_SOA), Commit(c).Rrset(o, TYPE_SOA));
  }

  /** A step, replayed on a copy with records left behind. */
  lemma {:induction false} StepKeepsSameBut(p: ZoneData, rrs: seq<RR>, s: ZoneData, left: iset<Item>)
    requires Plain(p) && AddsNoSoa(p, rrs) && SameBut(p, s, left)
    ensures var q := Commit(Updated(p, rrs));
            SameBut(q, Stepped(s, Updated(p, rrs)), NextLeft(StepOf(p, rrs), q, left))
  {
    hide ApplyAll, Plain, Commit, NextLeft, Stepped, AlikeBut, Surplus, SoaLike, ZoneData.Rrset, ZoneData.WellFormed, ZoneData.TtlOf;
    var q, s' := Commit(Updated(p, rrs)), Stepped(s, Updated(p, rrs));
    var next := NextLeft(StepOf(p, rrs), q, left);
    CommitFrame(p, rrs);
    SteppedStore(p, rrs, s, left);
    CommitStaysPlain(p, rrs);
    forall n, t | !(n == p.origin && t == TYPE_SOA)
      ensures AlikeBut(q, s', next, n, t)
    {
      SteppedAlike(p, rrs, s, left, n, t);
    }
    forall n, t | q.Rrset(n, t) != []
      ensures s'.TtlOf(n, t) == q.TtlOf(n, t)
    {
      SteppedTtl(p, rrs, s, left, n, t);
    }
    forall k | k in next
      ensures Surplus(q, s', k)
    {
      SteppedSurplus(p, rrs, s, left, k);
    }
  }

  lemma {:induction false} SoaLikeTrans(a: seq<Rdata>, b: seq<Rdata>, c: seq<Rdata>)
    requires SoaLike(a, b) && SoaLike(a, c)
    ensures SoaLike(c, b)
  {
  }

  lemma {:induction false} StepTtl(p: ZoneData, rrs: seq<RR>, s: ZoneData, n: Name, t: RType)
    requires Plain(p) && AddsNoSoa(p, rrs) && Updated(p, rrs).zone.Rrset(n, t) != []
    requires p.Rrset(n, t) != [] ==> s.TtlOf(n, t) == p.TtlOf(n, t)
    ensures var ttls := AddTtls(s.ttls, Updated(p, rrs).adds);
            (if (n, t) in ttls then ttls[(n, t)] else DEFAULT_TTL) == Updated(p, rrs).zone.TtlOf(n, t)
  {
    hide ApplyAll, Plain, AddTtls, Surviving, Outside;
    var c := Updated(p, rrs);
    CommitFrame(p, rrs);
    if RdatasAt(c.adds, n, t) == [] {
      StillThere(p, rrs, n, t);
      AddTtlsUntouched(p.ttls, c.adds, n, t);
      AddTtlsUntouched(s.ttls, c.adds, n, t);
    } else {
      AddTtlsAt(p.ttls, s.ttls, c.adds, n, t);
    }
  }

  /** An RRset that a message did not add to was there before. */
  lemma {:induction false} StillThere(p: ZoneData, rrs: seq<RR>, n: Name, t: RType)
    requires Updated(p, rrs).zone.Rrset(n, t) != [] && RdatasAt(Updated(p, rrs).adds, n, t) == []
    ensures p.Rrset(n, t) != []
  {
    hide ApplyAll, Surviving, Outside, DeletesAdded;
    var c := Updated(p, rrs);
    var rd := c.zone.Rrset(n, t)[0];
    assert rd in c.zone.Rrset(n, t);
    ReplaysOutside(p, rrs, n, t);
    LeavesExactly(p, rrs, n, t, rd);
    assert rd !in LeftBy(p, rrs, n, t);
    var kept := Surviving(p.Rrset(n, t), c.dels, n, t);
    OutsideMembers(c.zone.Rrset(n, t), LeftBy(p, rrs, n, t));
    OutsideMembers(kept + [], LeftBy(p, rrs, n, t));
    SurvivingMembers(p.Rrset(n, t), c.dels, n, t);
  }

  /** A secondary one version behind: replaying the step gives the new version
    * if and only if the update never deleted a record it had added. */
  lemma {:induction false} StepConvergesExactly(p: ZoneData, rrs: seq<RR>, s: ZoneData)
    requires Plain(p) && AddsNoSoa(p, rrs) && SameBody(p, s)
    ensures SameBody(Commit(Updated(p, rrs)), Stepped(s, Updated(p, rrs))) <==> CleanAll(Change(p, [], []), rrs)
  {
    hide ApplyAll, Plain, Commit, Stepped, SameBut, SameBody, CleanAll, DeletesAdded, Leaves, AddsNoSoa;
    var q, s' := Commit(Updated(p, rrs)), Stepped(s, Updated(p, rrs));
    var next := NextLeft(StepOf(p, rrs), q, iset{});
    SameButNothing(p, s, iset{});
    StepKeepsSameBut(p, rrs, s, iset{});
    SameButNothing(q, s', next);
    if CleanAll(Change(p, [], []), rrs) {
      forall k | k in next
        ensures false
      {
        StepLeaves(p, rrs, k);
        CleanDeletesNoneAdded(Change(p, [], []), rrs, k.0, k.1, k.2);
      }
    } else {
      var n, t, rd := SomeAddedIsDeleted(Change(p, [], []), rrs);
      StepLeaves(p, rrs, (n, t, rd));
      assert (n, t, rd) in next;
    }
  }
}
