// Updates that add an SOA, and why a secondary never gets to hold it.

module SecondSoa {
  import opened Wrappers
  import opened Dns
  import opened Zones
  import opened Updates
  import opened UpdateInvariants
  import opened Xfr
  import opened AxfrRoundTrip
  import opened DeltaReplay
  import opened StepReplay
  import opened Convergence

  ghost predicate JournalTyped(z: ZoneData) {
    forall step, rr :: step in z.journal && (rr in step.dels || rr in step.adds) ==> WellTyped(rr)
  }

  lemma {:induction false} ReceivePart(msgs: seq<Message>, records: seq<RR>)
    requires Receive(msgs, records).Ok?
    ensures var got := Receive(msgs, records).value; got != [] && got <= records + Answers(msgs)
    decreases |msgs|
  {
    if !IxfrComplete(records) {
      ReceivePart(msgs[1..], records + msgs[0].answers);
      assert (records + msgs[0].answers) + Answers(msgs[1..]) == records + Answers(msgs);
    }
  }

  lemma {:induction false} LoadIsSingle(records: seq<RR>, origin: Name)
    requires records != [] && IsSoa(records[0]) && records[0].name == origin
    requires forall rr | rr in records :: WellTyped(rr)
    ensures var z := Load(EmptyZone(origin), false, records); z.origin == origin && SingleSoa(z)
  {
    hide LoadRecord;
    var z1 := EmptyZone(origin).Add(origin, TYPE_SOA, records[0].rdata, records[0].ttl);
    FirstIsLoaded(records, origin);
    LoadRrset(z1, records[1..], origin, TYPE_SOA);
    forall n
      ensures Load(z1, true, records[1..]).Rrset(n, TYPE_SOA) == if n == origin then [records[0].rdata] else []
    {
      LoadRrset(z1, records[1..], n, TYPE_SOA);
      RrsetOfAdd(EmptyZone(origin), origin, TYPE_SOA, records[0].rdata, records[0].ttl, n, TYPE_SOA);
      assert EmptyZone(origin).Rrset(n, TYPE_SOA) == [];
    }
  }

  lemma {:induction false} FirstIsLoaded(records: seq<RR>, origin: Name)
    requires records != [] && IsSoa(records[0]) && records[0].name == origin
    ensures Load(EmptyZone(origin), false, records) ==
            Load(EmptyZone(origin).Add(origin, TYPE_SOA, records[0].rdata, records[0].ttl), true, records[1..])
  {
  }

  lemma {:induction false} SerialKeepsSingle(z: ZoneData, serial: nat)
    requires SingleSoa(z)
    ensures SingleSoa(z.WithSerial(serial)) && z.WithSerial(serial).origin == z.origin
  {
    if z.Soa().Some? && z.Soa().value.SoaData? {
      forall n
        ensures |z.WithSerial(serial).Rrset(n, TYPE_SOA)| == |z.Rrset(n, TYPE_SOA)|
      {
        WithSerialRrset(z, serial, n, TYPE_SOA);
      }
    }
  }

  /** Whatever a pull brings, a secondary with one SOA still has one. */
  lemma {:induction false} ApplyKeepsSingle(s: ZoneData, records: seq<RR>)
    requires SingleSoa(s) && records != [] && records[0].name == s.origin
    requires forall rr | rr in records :: WellTyped(rr)
    ensures var r := ApplyIxfr(Some(s), records, s.origin);
            r.Ok? ==> SingleSoa(r.value) && r.value.origin == s.origin
  {
    hide ApplyDelta;
    if IsSoa(records[0]) {
      LoadIsSingle(records, s.origin);
      var serial := records[0].rdata.serial;
      assert forall rr | rr in records[1..] :: rr in records;
      forall n
        ensures var d := ApplyDelta(s, records[1..], serial);
                d.Ok? ==> d.value.origin == s.origin && d.value.Rrset(n, TYPE_SOA) == s.Rrset(n, TYPE_SOA)
      {
        DeltaKeepsSoa(s, records[1..], serial, n);
      }
      var d := ApplyDelta(s, records[1..], serial);
      if d.Ok? {
        SerialKeepsSingle(d.value, serial);
      }
    }
  }

  lemma {:induction false} DeltaTyped(z: ZoneData, delta: seq<Step>)
    requires HasSoa(z) && forall step, rr | step in delta && (rr in step.dels || rr in step.adds) :: WellTyped(rr)
    ensures forall rr | rr in DeltaStream(z, delta) :: WellTyped(rr)
  {
    DeltaStepsTyped(z, delta);
    assert WellTyped(SoaRR(z));
  }

  lemma {:induction false} DeltaStepsTyped(z: ZoneData, delta: seq<Step>)
    requires HasSoa(z) && forall step, rr | step in delta && (rr in step.dels || rr in step.adds) :: WellTyped(rr)
    ensures forall rr | rr in DeltaSteps(z, delta) :: WellTyped(rr)
  {
    if delta != [] {
      assert delta[0] in delta;
      assert forall step | step in delta[1..] :: step in delta;
      DeltaStepsTyped(z, delta[1..]);
      assert WellTyped(SoaSerialRR(z, delta[0].from)) && WellTyped(SoaSerialRR(z, delta[0].to));
    }
  }

  lemma {:induction false} JournalDeltaIsPart(journal: seq<Step>, client: nat)
    ensures var d := JournalDelta(journal, client); d.Some? ==> forall step | step in d.value :: step in journal
  {
    if journal != [] && JournalDelta(journal, client).Some? && journal[0].from != client {
      JournalDeltaIsPart(journal[1..], client);
    }
  }

  lemma {:induction false} AnswerTyped(p: ZoneData, names: seq<Name>, client: nat)
    requires p.WellFormed() && RecordsTyped(p) && SigsTyped(p) && HasSoa(p) && JournalTyped(p)
    requires Lists(names, p.records.Keys)
    ensures var stream := IxfrStream(p, names, client);
            && stream != [] && stream[0] == SoaRR(p) && forall rr | rr in stream :: WellTyped(rr)
  {
    hide RecordsTyped, SigsTyped, NodeRecords;
    StreamSpeaks(p, names);
    var d := JournalDelta(p.journal, client);
    JournalDeltaIsPart(p.journal, client);
    if d.Some? {
      DeltaTyped(p, d.value);
    }
    assert WellTyped(SoaRR(p));
  }

  /** Only a zone with one SOA can arrive at a secondary whose copy has one,
    * whichever way the answer goes and however it is framed. */
  lemma {:induction false} SecondSoaNeverArrives(p: ZoneData, s: ZoneData, names: seq<Name>, envelopes: seq<Message>)
    requires p.WellFormed() && RecordsTyped(p) && SigsTyped(p) && HasSoa(p) && JournalTyped(p)
    requires Lists(names, p.records.Keys) && SingleSoa(s) && s.origin == p.origin
    requires Answers(envelopes) == IxfrStream(p, names, s.Serial())
    ensures Pull(s, envelopes).Ok? && Agrees(p, Pull(s, envelopes).value) ==> SingleSoa(p)
  {
    hide RecordsTyped, SigsTyped, JournalTyped, IxfrStream, ApplyIxfr;
    AnswerTyped(p, names, s.Serial());
    if Receive(envelopes, []).Ok? {
      var stream, got := IxfrStream(p, names, s.Serial()), Receive(envelopes, []).value;
      ReceivePart(envelopes, []);
      assert [] + Answers(envelopes) == stream;
      assert got[0] == stream[0] && forall rr | rr in got :: rr in stream;
      ApplyKeepsSingle(s, got);
      if ApplyIxfr(Some(s), got, s.origin).Ok? {
        AgreeingIsSingle(p, ApplyIxfr(Some(s), got, s.origin).value);
      }
    }
  }

  lemma {:induction false} AgreeingIsSingle(p: ZoneData, s: ZoneData)
    requires SingleSoa(s)
    ensures Agrees(p, s) ==> SingleSoa(p)
  {
    if Agrees(p, s) {
      assert forall n :: p.Rrset(n, TYPE_SOA) == s.Rrset(n, TYPE_SOA);
    }
  }

  lemma {:induction false} LongerIsMore(rds: seq<Rdata>, rd: Rdata)
    ensures !(multiset(rds + [rd]) <= multiset(rds))
  {
    assert multiset(rds + [rd])[rd] == multiset(rds)[rd] + 1;
  }

  /** The apex SOA set grows with the SOA records added there. */
  lemma {:induction false} ApexSoaCounts(c: Change, rrs: seq<RR>)
    ensures ApplyAll(c, rrs).zone.origin == c.zone.origin
    ensures var o, d := c.zone.origin, ApplyAll(c, rrs);
            |d.zone.Rrset(o, TYPE_SOA)| - |RdatasAt(d.adds, o, TYPE_SOA)| ==
            |c.zone.Rrset(o, TYPE_SOA)| - |RdatasAt(c.adds, o, TYPE_SOA)|
    decreases |rrs|
  {
    hide ApplyOne, ZoneData.Rrset, RdatasAt;
    if rrs != [] {
      var before, after := c.zone.Rrset(c.zone.origin, TYPE_SOA), ApplyOne(c, rrs[0]).zone.Rrset(c.zone.origin, TYPE_SOA);
      OneSoaSet(c, rrs[0]);
      OneAdds(c, rrs[0], c.zone.origin, TYPE_SOA);
      LongerIsMore(before, rrs[0].rdata);
      ApexSoaCounts(ApplyOne(c, rrs[0]), rrs[1..]);
    }
  }

  /** A clean message that adds an SOA leaves the zone with a second one. */
  lemma {:induction false} AddedSoaStays(p: ZoneData, rrs: seq<RR>)
    requires SingleSoa(p) && SoaTyped(p) && CleanAll(Change(p, [], []), rrs) && !NoSoa(Updated(p, rrs).adds)
    requires forall rr | rr in rrs :: WellTyped(rr)
    ensures Commit(Updated(p, rrs)).origin == p.origin && !SingleSoa(Commit(Updated(p, rrs)))
  {
    hide ApplyAll, CleanAll, ZoneData.Rrset;
    var c, o := Updated(p, rrs), p.origin;
    var rr :| rr in c.adds && rr.rtype == TYPE_SOA;
    assert Holds(c.adds, rr.name, TYPE_SOA, rr.rdata);
    AddedIsHeld(c.adds, rr.name, TYPE_SOA);
    assert RdatasAt(c.adds, rr.name, TYPE_SOA) != [];
    ApexSoaCounts(Change(p, [], []), rrs);
    ReplayExact(p, rrs);
    assert c.zone.Rrset(rr.name, TYPE_SOA) == Replayed(p.Rrset(rr.name, TYPE_SOA), c.dels, c.adds, rr.name, TYPE_SOA);
    SoaSurvives(Change(p, [], []), rrs);
    CommitRrsets(c);
  }

  ghost predicate ChangeTyped(c: Change) {
    && RecordsTyped(c.zone) && c.zone.rrsigs == map[]
    && (forall rr | rr in c.dels :: WellTyped(rr)) && (forall rr | rr in c.adds :: WellTyped(rr))
  }

  lemma {:induction false} OneKeepsChangeTyped(c: Change, rr: RR)
    requires ChangeTyped(c) && WellTyped(rr)
    ensures ChangeTyped(ApplyOne(c, rr))
  {
    hide ApplyOne, RecordsTyped;
    var c' := ApplyOne(c, rr);
    OneFrame(c, rr);
    OneRest(c, rr);
    OneKeepsTyped(c, rr);
    forall d | d in c'.dels
      ensures WellTyped(d)
    {
      if d !in c.dels {
        assert c'.dels == c.dels + NewDels(c, c');
        DeletedWasHeld(c, rr, d);
        TypedAt(c.zone, d);
      }
    }
  }

  lemma {:induction false} TypedAt(z: ZoneData, rr: RR)
    requires RecordsTyped(z) && rr.rdata in z.Rrset(rr.name, rr.rtype)
    ensures WellTyped(rr)
  {
  }

  lemma {:induction false} AllKeepChangeTyped(c: Change, rrs: seq<RR>)
    requires ChangeTyped(c) && forall rr | rr in rrs :: WellTyped(rr)
    ensures ChangeTyped(ApplyAll(c, rrs))
    decreases |rrs|
  {
    hide ApplyOne, ChangeTyped;
    if rrs != [] {
      OneKeepsChangeTyped(c, rrs[0]);
      AllKeepChangeTyped(ApplyOne(c, rrs[0]), rrs[1..]);
    }
  }

  /** A clean message that changed a plain zone, whose journal holds nothing else,
    * reaches a secondary one version behind if and only if it added no SOA. */
  lemma {:induction false} OneUpdateReplicatesExactly(p: ZoneData, rrs: seq<RR>, s: ZoneData, names: seq<Name>, envelopes: seq<Message>)
    requires Plain(p) && p.journal == [] && CleanAll(Change(p, [], []), rrs) && Agrees(p, s)
    requires forall rr | rr in rrs :: WellTyped(rr)
    requires HasSoa(Commit(Updated(p, rrs))) && Lists(names, Commit(Updated(p, rrs)).records.Keys)
    requires Answers(envelopes) == IxfrStream(Commit(Updated(p, rrs)), names, s.Serial())
    requires envelopes != [] && |envelopes[0].answers| >= 2 && forall m :: m in envelopes ==> m.answers != []
    ensures var q := Commit(Updated(p, rrs));
            Pull(s, envelopes).Ok? && Agrees(q, Pull(s, envelopes).value) <==> NoSoa(Updated(p, rrs).adds)
  {
    hide CleanAll, Pull, ApplyAll, Agrees, IxfrStream;
    var c, q := Updated(p, rrs), Commit(Updated(p, rrs));
    AllKeepStore(Change(p, [], []), rrs);
    if NoSoa(c.adds) {
      var step := Step(p.Serial(), NextSerial(p.Serial()), c.dels, c.adds);
      CommitStaysPlain(p, rrs);
      assert LinkedBy(p, q, step, rrs);
      assert LinkAt([p, q], [step], 0);
      assert q.journal == [step];
      OneCleanStepLeavesNothing(p, rrs);
      ChainConverges([p, q], [step], 0, s, names, envelopes);
    } else {
      SecondIsCommitted(p, rrs);
      AgreesSingle(p, s);
      SecondSoaNeverArrives(q, s, names, envelopes);
    }
  }

  lemma {:induction false} OneCleanStepLeavesNothing(p: ZoneData, rrs: seq<RR>)
    requires Plain(p) && AddsNoSoa(p, rrs) && CleanAll(Change(p, [], []), rrs)
    ensures var q := Commit(Updated(p, rrs)); HistoryLeft([p, q][0..], [StepOf(p, rrs)][0..], iset{}) == iset{}
  {
    hide NextLeft, Plain, Commit, ApplyAll, LeftOverBy;
    var q, step := Commit(Updated(p, rrs)), StepOf(p, rrs);
    SameLeft(p, rrs, iset{});
    CleanLeftOver(p, rrs);
    assert [p, q][0..] == [p, q] && [step][0..] == [step] && [p, q][1..] == [q] && [step][1..] == [];
    assert HistoryLeft([q], [], NextLeft(step, q, iset{})) == NextLeft(step, q, iset{});
  }

  lemma {:induction false} PlainIsTyped(p: ZoneData)
    requires Plain(p)
    ensures ChangeTyped(Change(p, [], [])) && SingleSoa(p) && SoaTyped(p) && p.Soa().Some? && p.WellFormed()
  {
  }

  lemma {:induction false} AgreesSingle(p: ZoneData, s: ZoneData)
    requires SingleSoa(p) && Agrees(p, s)
    ensures SingleSoa(s) && s.origin == p.origin
  {
    assert forall n :: s.Rrset(n, TYPE_SOA) == p.Rrset(n, TYPE_SOA);
  }

  lemma {:induction false} CommitIsTyped(c: Change)
    requires ChangeTyped(c) && c.zone.journal == [] && c.zone.WellFormed()
    requires c.zone.Soa().Some? && SoaTyped(c.zone)
    ensures Commit(c).WellFormed() && RecordsTyped(Commit(c)) && SigsTyped(Commit(c)) && JournalTyped(Commit(c))
  {
    hide Commit, ZoneData.Rrset, ZoneData.SetRrset, ZoneData.WellFormed;
    CommittedStore(c);
    CommitRrsets(c);
    var o, serial, soas := c.zone.origin, NextSerial(c.zone.Serial()), c.zone.Rrset(c.zone.origin, TYPE_SOA);
    forall n, t, rd | rd in Commit(c).Rrset(n, t)
      ensures (t == TYPE_SOA ==> rd.SoaData?) && (t == TYPE_RRSIG ==> rd.SigData?)
    {
      if n == o && t == TYPE_SOA && rd != soas[0].(serial := serial) {
        assert rd in soas[1..] && rd in soas;
      } else if !(n == o && t == TYPE_SOA) {
        assert rd in c.zone.Rrset(n, t);
      }
    }
  }

  lemma {:induction false} CommittedStore(c: Change)
    requires ChangeTyped(c) && c.zone.journal == [] && c.zone.WellFormed()
    ensures Commit(c).WellFormed() && SigsTyped(Commit(c)) && JournalTyped(Commit(c))
  {
    var soas, serial := c.zone.Rrset(c.zone.origin, TYPE_SOA), NextSerial(c.zone.Serial());
    if soas != [] && soas[0].SoaData? {
      SetKeepsWellFormed(c.zone, c.zone.origin, TYPE_SOA, [soas[0].(serial := serial)] + soas[1..]);
    }
  }

  /** One such message, admitted: it adds a second apex SOA, and no pull by a
    * secondary that held the zone before brings what the primary then serves. */
  lemma {:induction false} SoaAdditionIsLost(sign: ZoneData -> ZoneData) returns (p: ZoneData, msg: UpdateMsg, policy: UpdatePolicy)
    ensures var (q, rc) := ApplyUpdate(p, msg, policy, sign);
            && Plain(p) && p.journal == [] && rc == NoError && HasSoa(q)
            && CleanAll(Change(p, [], []), msg.authority)
            && forall names, envelopes :: Lists(names, q.records.Keys) && Answers(envelopes) == IxfrStream(q, names, p.Serial()) ==>
                 !(Pull(p, envelopes).Ok? && Agrees(q, Pull(p, envelopes).value))
  {
    hide OnlySoa, Plain, ApplyOne, ApplyAll, Commit, Admission, CleanAll, ZoneData.Rrset, Pull, Agrees, IxfrStream;
    var one, nine := SoaData("m", "r", 1, 1, 1, 1, 1), SoaData("m", "r", 9, 1, 1, 1, 1);
    p, msg, policy := OnlySoa(one), SecondSoaMessage(nine), UpdatePolicy(true, None);
    OnlySoaIsPlain(one);
    OnlySoaStore(one);
    PlainIsTyped(p);
    SecondSoaIsAdded(one, nine);
    OneAdditionIsClean(p, msg.authority[0]);
    SecondIsCommitted(p, msg.authority);
    EffectIsCommitted(p, msg, policy, sign);
    var q := Commit(Updated(p, msg.authority));
    forall names, envelopes | Lists(names, q.records.Keys) && Answers(envelopes) == IxfrStream(q, names, p.Serial())
      ensures !(Pull(p, envelopes).Ok? && Agrees(q, Pull(p, envelopes).value))
    {
      SecondSoaNeverArrives(q, p, names, envelopes);
    }
  }

  lemma {:induction false} OneAdditionIsClean(p: ZoneData, rr: RR)
    requires ApplyOne(Change(p, [], []), rr).dels == []
    ensures CleanAll(Change(p, [], []), [rr])
  {
    hide ApplyOne;
    assert [rr][1..] == [];
    assert CleanAll(ApplyOne(Change(p, [], []), rr), [rr][1..]);
    assert NewDels(Change(p, [], []), ApplyOne(Change(p, [], []), rr)) == [];
  }

  /** What SecondSoaNeverArrives asks of a zone after a message that added an SOA. */
  lemma {:induction false} SecondIsCommitted(p: ZoneData, rrs: seq<RR>)
    requires Plain(p) && p.journal == [] && CleanAll(Change(p, [], []), rrs) && !NoSoa(Updated(p, rrs).adds)
    requires forall rr | rr in rrs :: WellTyped(rr)
    ensures var q := Commit(Updated(p, rrs));
            && q.WellFormed() && RecordsTyped(q) && SigsTyped(q) && JournalTyped(q) && HasSoa(q)
            && q.origin == p.origin && SingleSoa(p) && !SingleSoa(q)
  {
    hide CleanAll, ApplyAll, Plain, Commit, ZoneData.Rrset, ZoneData.WellFormed, RecordsTyped, SigsTyped, JournalTyped, SingleSoa;
    var c := Updated(p, rrs);
    PlainIsTyped(p);
    AllKeepStore(Change(p, [], []), rrs);
    AddedSoaStays(p, rrs);
    AllKeepChangeTyped(Change(p, [], []), rrs);
    SoaSurvives(Change(p, [], []), rrs);
    CommitIsTyped(c);
    CommitHasSoa(c);
  }

  lemma {:induction false} CommitHasSoa(c: Change)
    requires c.zone.Soa().Some? && SoaTyped(c.zone)
    ensures HasSoa(Commit(c))
  {
    CommitRrsets(c);
  }

  lemma {:induction false} OnlySoaIsPlain(soa: Rdata)
    requires soa.SoaData? && soa.serial < SERIAL_SPACE
    ensures Plain(OnlySoa(soa))
  {
    hide OnlySoa, ZoneData.Rrset;
    OnlySoaStore(soa);
    OnlySoaRrsets(soa, [], TYPE_SOA);
    forall n, t
      ensures OnlySoa(soa).Rrset(n, t) == if n == [] && t == TYPE_SOA then [soa] else []
    {
      OnlySoaRrsets(soa, n, t);
    }
  }
}
