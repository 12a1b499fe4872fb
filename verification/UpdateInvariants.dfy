// What every run of dynamic updates keeps, whatever the messages say.

module UpdateInvariants {
  import opened Wrappers
  import opened Dns
  import opened Zones
  import opened Updates

  ghost predicate NoDup<T(!new)>(xs: seq<T>) {
    forall i, j :: 0 <= i < j < |xs| ==> xs[i] != xs[j]
  }

  /** Entries chain from serial to next serial and end at the current one. */
  ghost predicate JournalSound(z: ZoneData) {
    && |z.journal| <= MAX_JOURNAL
    && (forall i :: 0 <= i < |z.journal| ==> z.journal[i].to == NextSerial(z.journal[i].from))
    && (forall i :: 0 < i < |z.journal| ==> z.journal[i].from == z.journal[i - 1].to)
    && (z.journal != [] ==> z.journal[|z.journal| - 1].to == z.Serial())
  }

  /** A servable zone: an SOA at the apex, no empty node or RRset, and no record
    * twice. The apex SOA set is left out of the last part, see SoaStaysSingleExactly. */
  ghost predicate Sound(z: ZoneData) {
    && z.WellFormed()
    && z.Soa().Some? && SoaTyped(z) && z.Serial() < SERIAL_SPACE
    && BodyNoDup(z)
    && JournalSound(z)
  }

  ghost predicate BodyNoDup(z: ZoneData) {
    forall n, t :: !(n == z.origin && t == TYPE_SOA) ==> NoDup(z.Rrset(n, t))
  }

  // ---- Filtering an RRset ----

  lemma {:induction false} WithoutSpec(rds: seq<Rdata>, rd: Rdata)
    ensures forall x :: x in Without(rds, rd) <==> x in rds && x != rd
    ensures NoDup(rds) ==> NoDup(Without(rds, rd)) && |Without(rds, rd)| >= |rds| - 1
    ensures |Without(rds, rd)| <= |rds|
    ensures |Without(rds, rd)| == |rds| <==> rd !in rds
    ensures rd !in rds ==> Without(rds, rd) == rds
  {
    if rds != [] {
      WithoutSpec(rds[1..], rd);
      assert rds == [rds[0]] + rds[1..];
      var w := Without(rds[1..], rd);
      if NoDup(rds) {
        assert forall k :: 0 <= k < |w| ==> w[k] in rds[1..];
        if rds[0] == rd {
          assert rd !in rds[1..];
        }
      }
    }
  }

  // ---- One update record ----

  /** How one update record changes one RRset. */
  lemma {:induction false} OneRrset(c: Change, rr: RR, n: Name, t: RType)
    ensures ApplyOne(c, rr).zone.origin == c.zone.origin
    ensures var before, after := c.zone.Rrset(n, t), ApplyOne(c, rr).zone.Rrset(n, t);
            || after == before
            || (after == [] && !(n == c.zone.origin && (t == TYPE_SOA || t == TYPE_NS)))
            || (rr.rclass == CLASS_NONE && n == rr.name && t == rr.rtype && after == Without(before, rr.rdata)
                && !(n == c.zone.origin && t == TYPE_SOA)
                && (n == c.zone.origin && t == TYPE_NS ==> |before| > 1))
            || (rr.rclass !in {CLASS_ANY, CLASS_NONE} && n == rr.name && t == rr.rtype
                && after == before + [rr.rdata] && rr.rdata !in before)
  {
    var z := c.zone;
    if rr.rclass == CLASS_ANY && rr.rtype == TYPE_ANY {
      DropAllRrset(c, rr.name, SortedTypes(z.NodeOf(rr.name).Keys), n, t);
    } else {
      RrsetOfSet(z, rr.name, rr.rtype, [], n, t);
      RrsetOfSet(z, rr.name, rr.rtype, Without(z.Rrset(rr.name, rr.rtype), rr.rdata), n, t);
      RrsetOfSet(z, rr.name, rr.rtype, z.Rrset(rr.name, rr.rtype) + [rr.rdata], n, t);
    }
  }

  lemma {:induction false} DropAllKeepsWellFormed(c: Change, n: Name, types: seq<RType>)
    requires c.zone.WellFormed()
    ensures DropAll(c, n, types).zone.WellFormed()
    decreases |types|
  {
    hide ZoneData.WellFormed, ZoneData.SetRrset, ZoneData.Rrset, Deletions;
    if types != [] {
      SetKeepsWellFormed(c.zone, n, types[0], []);
      if Apex(c.zone.origin, n, types[0]) {
        DropAllKeepsWellFormed(c, n, types[1..]);
      } else {
        DropAllKeepsWellFormed(DropRrset(c, n, types[0]), n, types[1..]);
      }
    }
  }

  lemma {:induction false} DropAllFrame(c: Change, n: Name, types: seq<RType>)
    ensures DropAll(c, n, types).zone.journal == c.zone.journal
    ensures DropAll(c, n, types).zone.signed == c.zone.signed
    ensures DropAll(c, n, types).zone.ttls == c.zone.ttls
    ensures DropAll(c, n, types).zone.rrsigs == c.zone.rrsigs
    ensures DropAll(c, n, types).adds == c.adds
    ensures c.dels <= DropAll(c, n, types).dels
    decreases |types|
  {
    if types != [] {
      DropAllFrame(c, n, types[1..]);
      DropAllFrame(DropRrset(c, n, types[0]), n, types[1..]);
    }
  }

  lemma {:induction false} OneFrame(c: Change, rr: RR)
    ensures ApplyOne(c, rr).zone.journal == c.zone.journal
    ensures ApplyOne(c, rr).zone.signed == c.zone.signed
    ensures c.dels <= ApplyOne(c, rr).dels && c.adds <= ApplyOne(c, rr).adds
  {
    if rr.rclass == CLASS_ANY {
      if rr.rtype == TYPE_ANY {
        DropAllFrame(c, rr.name, SortedTypes(c.zone.NodeOf(rr.name).Keys));
      }
    }
  }

  lemma {:induction false} OneKeepsWellFormed(c: Change, rr: RR)
    requires c.zone.WellFormed()
    ensures ApplyOne(c, rr).zone.WellFormed()
  {
    var z, n, t := c.zone, rr.name, rr.rtype;
    if rr.rclass == CLASS_ANY {
      if t == TYPE_ANY {
        DropAllKeepsWellFormed(c, n, SortedTypes(z.NodeOf(n).Keys));
      } else {
        SetKeepsWellFormed(z, n, t, []);
      }
    } else if rr.rclass == CLASS_NONE {
      SetKeepsWellFormed(z, n, t, Without(z.Rrset(n, t), rr.rdata));
    } else {
      SetKeepsWellFormed(z, n, t, z.Rrset(n, t) + [rr.rdata]);
    }
  }

  lemma {:induction false} OneKeepsNoDup(c: Change, rr: RR, n: Name, t: RType)
    requires NoDup(c.zone.Rrset(n, t))
    ensures NoDup(ApplyOne(c, rr).zone.Rrset(n, t))
  {
    OneRrset(c, rr, n, t);
    WithoutSpec(c.zone.Rrset(n, t), rr.rdata);
  }

  lemma {:induction false} AllKeepStore(c: Change, rrs: seq<RR>)
    requires c.zone.WellFormed()
    ensures ApplyAll(c, rrs).zone.WellFormed()
    ensures ApplyAll(c, rrs).zone.journal == c.zone.journal
    ensures ApplyAll(c, rrs).zone.signed == c.zone.signed
    ensures c.dels <= ApplyAll(c, rrs).dels && c.adds <= ApplyAll(c, rrs).adds
    decreases |rrs|
  {
    if rrs != [] {
      OneFrame(c, rrs[0]);
      OneKeepsWellFormed(c, rrs[0]);
      AllKeepStore(ApplyOne(c, rrs[0]), rrs[1..]);
    }
  }

  lemma {:induction false} AllKeepNoDup(c: Change, rrs: seq<RR>, n: Name, t: RType)
    requires NoDup(c.zone.Rrset(n, t))
    ensures NoDup(ApplyAll(c, rrs).zone.Rrset(n, t))
    decreases |rrs|
  {
    if rrs != [] {
      OneKeepsNoDup(c, rrs[0], n, t);
      AllKeepNoDup(ApplyOne(c, rrs[0]), rrs[1..], n, t);
    }
  }

  /** No update empties the apex NS set (RFC 2136 section 3.4.2.4). */
  lemma {:induction false} ApexNsSurvives(c: Change, rrs: seq<RR>)
    requires NoDup(c.zone.Rrset(c.zone.origin, TYPE_NS))
    requires c.zone.Rrset(c.zone.origin, TYPE_NS) != []
    ensures ApplyAll(c, rrs).zone.origin == c.zone.origin
    ensures ApplyAll(c, rrs).zone.Rrset(c.zone.origin, TYPE_NS) != []
    decreases |rrs|
  {
    if rrs != [] {
      var ns := c.zone.Rrset(c.zone.origin, TYPE_NS);
      OneRrset(c, rrs[0], c.zone.origin, TYPE_NS);
      WithoutSpec(ns, rrs[0].rdata);
      OneKeepsNoDup(c, rrs[0], c.zone.origin, TYPE_NS);
      ApexNsSurvives(ApplyOne(c, rrs[0]), rrs[1..]);
    }
  }

  /** An update record that logs nothing changes nothing. */
  lemma {:induction false} SilentMeansUnchanged(c: Change, rr: RR)
    requires c.zone.WellFormed()
    requires |ApplyOne(c, rr).dels| == |c.dels| && |ApplyOne(c, rr).adds| == |c.adds|
    ensures ApplyOne(c, rr) == c
  {
    var z, n, t := c.zone, rr.name, rr.rtype;
    if rr.rclass == CLASS_ANY && t == TYPE_ANY {
      SilentDropAll(c, n, SortedTypes(z.NodeOf(n).Keys));
    } else if rr.rclass == CLASS_NONE && t in z.NodeOf(n) {
      WithoutSpec(z.Rrset(n, t), rr.rdata);
      assert z.NodeOf(n)[t := z.Rrset(n, t)] == z.NodeOf(n);
    }
  }

  lemma {:induction false} SilentDropAll(c: Change, n: Name, types: seq<RType>)
    requires c.zone.WellFormed()
    requires forall i, j :: 0 <= i < j < |types| ==> types[i] != types[j]
    requires forall t :: t in types ==> t in c.zone.NodeOf(n)
    requires |DropAll(c, n, types).dels| == |c.dels|
    ensures DropAll(c, n, types) == c
    decreases |types|
  {
    if types != [] {
      if Apex(c.zone.origin, n, types[0]) {
        SilentDropAll(c, n, types[1..]);
      } else {
        DropAllFrame(DropRrset(c, n, types[0]), n, types[1..]);
        assert false;
      }
    }
  }

  lemma {:induction false} SilentAll(c: Change, rrs: seq<RR>)
    requires c.zone.WellFormed()
    requires |ApplyAll(c, rrs).dels| == |c.dels| && |ApplyAll(c, rrs).adds| == |c.adds|
    ensures ApplyAll(c, rrs) == c
    decreases |rrs|
  {
    if rrs != [] {
      OneFrame(c, rrs[0]);
      OneKeepsWellFormed(c, rrs[0]);
      AllKeepStore(ApplyOne(c, rrs[0]), rrs[1..]);
      SilentMeansUnchanged(c, rrs[0]);
      SilentAll(c, rrs[1..]);
    }
  }

  // ---- One message ----

  /** The commit touches the apex SOA and nothing else in the store. */
  lemma {:induction false} CommitRrsets(d: Change)
    requires d.zone.Soa().Some? && SoaTyped(d.zone)
    ensures Commit(d).origin == d.zone.origin
    ensures forall n, t :: !(n == d.zone.origin && t == TYPE_SOA) ==> Commit(d).Rrset(n, t) == d.zone.Rrset(n, t)
    ensures var soas := d.zone.Rrset(d.zone.origin, TYPE_SOA);
            Commit(d).Rrset(d.zone.origin, TYPE_SOA) ==
            [soas[0].(serial := NextSerial(d.zone.Serial()))] + soas[1..]
  {
    var w := d.zone.WithSerial(NextSerial(d.zone.Serial()));
    assert Commit(d) == w.(journal := Commit(d).journal);
    forall n, t
      ensures Commit(d).Rrset(n, t) == w.Rrset(n, t)
      ensures !(n == d.zone.origin && t == TYPE_SOA) ==> w.Rrset(n, t) == d.zone.Rrset(n, t)
    {
      WithSerialRrset(d.zone, NextSerial(d.zone.Serial()), n, t);
    }
    WithSerialRrset(d.zone, NextSerial(d.zone.Serial()), d.zone.origin, TYPE_SOA);
  }

  lemma {:induction false} CommitJournal(z: ZoneData, z': ZoneData, step: Step)
    requires JournalSound(z)
    requires step.from == z.Serial() && step.to == NextSerial(z.Serial()) == z'.Serial()
    requires z'.journal == LastSteps(z.journal + [step])
    ensures JournalSound(z')
  {
    assert Contiguous(z.journal);
    ContiguousGrows(z.journal, step);
    ContiguousTail(z.journal + [step]);
    assert z'.journal[|z'.journal| - 1] == step;
  }

  ghost predicate Contiguous(journal: seq<Step>) {
    && (forall i :: 0 <= i < |journal| ==> journal[i].to == NextSerial(journal[i].from))
    && (forall i :: 0 < i < |journal| ==> journal[i].from == journal[i - 1].to)
  }

  lemma {:induction false} ContiguousGrows(journal: seq<Step>, step: Step)
    requires Contiguous(journal) && step.to == NextSerial(step.from)
    requires journal != [] ==> journal[|journal| - 1].to == step.from
    ensures Contiguous(journal + [step])
  {
    hide NextSerial;
  }

  lemma {:induction false} ContiguousTail(journal: seq<Step>)
    requires Contiguous(journal)
    ensures Contiguous(LastSteps(journal)) && |LastSteps(journal)| <= MAX_JOURNAL
    ensures journal != [] ==> LastSteps(journal) != [] && LastSteps(journal)[|LastSteps(journal)| - 1] == journal[|journal| - 1]
  {
    hide NextSerial;
  }

  lemma {:induction false} CommitKeepsSound(d: Change)
    requires Sound(d.zone)
    ensures Sound(Commit(d)) && Commit(d).origin == d.zone.origin
    ensures forall n, t :: !(n == d.zone.origin && t == TYPE_SOA) ==> Commit(d).Rrset(n, t) == d.zone.Rrset(n, t)
  {
    var serial := NextSerial(d.zone.Serial());
    var z', soas := Commit(d), d.zone.Rrset(d.zone.origin, TYPE_SOA);
    CommitRrsets(d);
    SetKeepsWellFormed(d.zone, d.zone.origin, TYPE_SOA, [soas[0].(serial := serial)] + soas[1..]);
    assert z'.Soa() == Some(soas[0].(serial := serial)) && z'.Serial() == serial;
    assert forall rd :: rd in soas[1..] ==> rd in soas;
    CommitJournal(d.zone, z', Step(d.zone.Serial(), serial, d.dels, d.adds));
  }

  lemma {:induction false} AllKeepSound(z: ZoneData, rrs: seq<RR>)
    requires Sound(z)
    requires forall rr | rr in rrs :: WellTyped(rr)
    ensures Sound(ApplyAll(Change(z, [], []), rrs).zone)
    ensures ApplyAll(Change(z, [], []), rrs).zone.origin == z.origin
  {
    hide ApplyAll, ZoneData.WellFormed, BodyNoDup, JournalSound, SoaTyped;
    var c := Change(z, [], []);
    AllKeepStore(c, rrs);
    SoaSurvives(c, rrs);
    AllKeepBodyNoDup(c, rrs);
    SameJournal(z, ApplyAll(c, rrs).zone);
  }

  lemma {:induction false} SameJournal(z: ZoneData, z': ZoneData)
    requires JournalSound(z) && z'.journal == z.journal && z'.Soa() == z.Soa()
    ensures JournalSound(z')
  {
  }

  lemma {:induction false} AllKeepBodyNoDup(c: Change, rrs: seq<RR>)
    requires BodyNoDup(c.zone) && ApplyAll(c, rrs).zone.origin == c.zone.origin
    ensures BodyNoDup(ApplyAll(c, rrs).zone)
  {
    forall n, t | !(n == c.zone.origin && t == TYPE_SOA)
      ensures NoDup(ApplyAll(c, rrs).zone.Rrset(n, t))
    {
      AllKeepNoDup(c, rrs, n, t);
    }
  }

  lemma {:induction false} CommitBumps(d: Change)
    requires d.zone.Soa().Some? && SoaTyped(d.zone) && d.zone.Serial() < SERIAL_SPACE
    ensures Commit(d).Serial() == NextSerial(d.zone.Serial()) != d.zone.Serial()
    ensures Commit(d).journal == LastSteps(d.zone.journal + [Step(d.zone.Serial(), NextSerial(d.zone.Serial()), d.dels, d.adds)])
  {
    CommitRrsets(d);
  }

  /** A refused update, and an accepted one that changes nothing, leave the zone
    * as it was; any other moves the serial by exactly one and appends to the
    * journal the step between the two serials, with both lists of the message. */
  lemma {:induction false} EffectBumpsSerial(z: ZoneData, msg: UpdateMsg, policy: UpdatePolicy, sign: ZoneData -> ZoneData)
    requires Sound(z) && !z.signed
    requires forall rr | rr in msg.authority :: WellTyped(rr)
    ensures var (z', rc) := ApplyUpdate(z, msg, policy, sign);
            && (rc != NoError ==> z' == z)
            && (z' == z <==> z'.Serial() == z.Serial())
            && (z' != z ==>
                  && rc == NoError && z'.Serial() == NextSerial(z.Serial())
                  && var c := ApplyAll(Change(z, [], []), msg.authority);
                     z'.journal == LastSteps(z.journal + [Step(z.Serial(), NextSerial(z.Serial()), c.dels, c.adds)]))
  {
    if Admission(z, msg, policy) == NoError {
      var c := Change(z, [], []);
      var d := ApplyAll(c, msg.authority);
      if d.dels == [] && d.adds == [] {
        SilentAll(c, msg.authority);
      } else {
        AllKeepStore(c, msg.authority);
        SoaSurvives(c, msg.authority);
        CommitBumps(d);
      }
    }
  }

  /** One message keeps every invariant of the zone. */
  lemma {:induction false} UpdateKeepsSound(z: ZoneData, msg: UpdateMsg, policy: UpdatePolicy, sign: ZoneData -> ZoneData)
    requires Sound(z) && !z.signed
    requires forall rr | rr in msg.authority :: WellTyped(rr)
    ensures var z' := ApplyUpdate(z, msg, policy, sign).0;
            && Sound(z') && !z'.signed && z'.origin == z.origin
            && (z.Rrset(z.origin, TYPE_NS) != [] ==> z'.Rrset(z.origin, TYPE_NS) != [])
  {
    if Admission(z, msg, policy) == NoError {
      var c := Change(z, [], []);
      AllKeepStore(c, msg.authority);
      AllKeepSound(z, msg.authority);
      CommitKeepsSound(ApplyAll(c, msg.authority));
      if z.Rrset(z.origin, TYPE_NS) != [] {
        ApexNsSurvives(c, msg.authority);
      }
    }
  }

  // ---- Every run ----

  /** The zone after a run of messages, each judged under its own policy. */
  function Run(z: ZoneData, msgs: seq<(UpdateMsg, UpdatePolicy)>, sign: ZoneData -> ZoneData): ZoneData
    decreases |msgs|
  {
    if msgs == [] then z
    else Run(ApplyUpdate(z, msgs[0].0, msgs[0].1, sign).0, msgs[1..], sign)
  }

  lemma {:induction false} RunKeepsSound(z: ZoneData, msgs: seq<(UpdateMsg, UpdatePolicy)>, sign: ZoneData -> ZoneData)
    requires Sound(z) && !z.signed
    requires forall m, rr | m in msgs && rr in m.0.authority :: WellTyped(rr)
    ensures var z' := Run(z, msgs, sign);
            && Sound(z') && z'.origin == z.origin
            && (z.Rrset(z.origin, TYPE_NS) != [] ==> z'.Rrset(z.origin, TYPE_NS) != [])
    decreases |msgs|
  {
    if msgs != [] {
      assert msgs[0] in msgs;
      UpdateKeepsSound(z, msgs[0].0, msgs[0].1, sign);
      RunKeepsSound(ApplyUpdate(z, msgs[0].0, msgs[0].1, sign).0, msgs[1..], sign);
    }
  }

  // ---- The apex SOA set ----

  /** The record asks for an SOA to be added at the apex. */
  predicate AddsSoa(origin: Name, rr: RR) {
    rr.rclass !in {CLASS_ANY, CLASS_NONE} && rr.name == origin && rr.rtype == TYPE_SOA
  }

  lemma {:induction false} OneSoaSet(c: Change, rr: RR)
    ensures ApplyOne(c, rr).zone.origin == c.zone.origin
    ensures var before := c.zone.Rrset(c.zone.origin, TYPE_SOA);
            ApplyOne(c, rr).zone.Rrset(c.zone.origin, TYPE_SOA) ==
            if AddsSoa(c.zone.origin, rr) && rr.rdata !in before then before + [rr.rdata] else before
  {
    var z, o := c.zone, c.zone.origin;
    if rr.rclass == CLASS_ANY && rr.rtype == TYPE_ANY {
      DropAllRrset(c, rr.name, SortedTypes(z.NodeOf(rr.name).Keys), o, TYPE_SOA);
    } else {
      RrsetOfSet(z, rr.name, rr.rtype, [], o, TYPE_SOA);
      RrsetOfSet(z, rr.name, rr.rtype, Without(z.Rrset(rr.name, rr.rtype), rr.rdata), o, TYPE_SOA);
      RrsetOfSet(z, rr.name, rr.rtype, z.Rrset(rr.name, rr.rtype) + [rr.rdata], o, TYPE_SOA);
    }
  }

  /** A message appends to the apex SOA set what it asks to add, each once. */
  lemma {:induction false} SoaSetGrows(c: Change, rrs: seq<RR>)
    requires NoDup(c.zone.Rrset(c.zone.origin, TYPE_SOA))
    ensures ApplyAll(c, rrs).zone.origin == c.zone.origin
    ensures var before, after := c.zone.Rrset(c.zone.origin, TYPE_SOA), ApplyAll(c, rrs).zone.Rrset(c.zone.origin, TYPE_SOA);
            && NoDup(after) && before <= after
            && forall rd :: rd in after <==> rd in before || exists rr :: rr in rrs && AddsSoa(c.zone.origin, rr) && rr.rdata == rd
    decreases |rrs|
  {
    hide ApplyOne, ZoneData.Rrset, AddsSoa;
    if rrs != [] {
      OneSoaSet(c, rrs[0]);
      SoaSetGrows(ApplyOne(c, rrs[0]), rrs[1..]);
      assert rrs == [rrs[0]] + rrs[1..];
    }
  }

  /** When one record of a set is replaced by another value. */
  lemma {:induction false} ReplacedFirst(rds: seq<Rdata>, first: Rdata)
    requires rds != [] && NoDup(rds)
    ensures NoDup([first] + rds[1..]) <==> first !in rds[1..]
  {
    var rest := [first] + rds[1..];
    if first in rds[1..] {
      var i :| 0 <= i < |rds[1..]| && rds[1..][i] == first;
      assert rest[0] == rest[i + 1];
    } else {
      forall i, j | 0 <= i < j < |rest|
        ensures rest[i] != rest[j]
      {
        assert rest[j] == rds[j] && rest[j] in rds[1..];
        assert i > 0 ==> rest[i] == rds[i];
      }
    }
  }

  /** The apex SOA with the serial that an update with an effect gives it. */
  function BumpedSoa(z: ZoneData): Rdata
    requires z.Soa().Some? && z.Soa().value.SoaData?
  {
    z.Soa().value.(serial := NextSerial(z.Serial()))
  }

  /** The update records log no deletion and no addition. */
  predicate NoEffect(z: ZoneData, rrs: seq<RR>) {
    var c := ApplyAll(Change(z, [], []), rrs);
    c.dels == [] && c.adds == []
  }

  /** The exact rest of Sound. A message leaves the apex SOA set without duplicates
    * if and only if it is refused or without effect, or the bumped SOA is neither one
    * of the other SOA records of the apex nor one that the message asks to add. */
  lemma {:induction false} SoaStaysSingleExactly(z: ZoneData, msg: UpdateMsg, policy: UpdatePolicy, sign: ZoneData -> ZoneData)
    requires Sound(z) && !z.signed && NoDup(z.Rrset(z.origin, TYPE_SOA)) && z.Soa().value.SoaData?
    requires forall rr | rr in msg.authority :: WellTyped(rr)
    ensures var z' := ApplyUpdate(z, msg, policy, sign).0;
            NoDup(z'.Rrset(z.origin, TYPE_SOA)) <==>
            || Admission(z, msg, policy) != NoError
            || NoEffect(z, msg.authority)
            || (BumpedSoa(z) !in z.Rrset(z.origin, TYPE_SOA)[1..]
                && forall rr :: rr in msg.authority && AddsSoa(z.origin, rr) ==> rr.rdata != BumpedSoa(z))
  {
    hide Sound, Admission, AddsSoa, NoDup, ApplyAll, Commit;
    if Admission(z, msg, policy) == NoError {
      SoundFacts(z);
      AllKeepStore(Change(z, [], []), msg.authority);
      if NoEffect(z, msg.authority) {
        SilentAll(Change(z, [], []), msg.authority);
      } else {
        EffectIsCommitted(z, msg, policy, sign);
        CommittedSoaSet(z, msg.authority);
      }
    }
  }

  lemma {:induction false} EffectIsCommitted(z: ZoneData, msg: UpdateMsg, policy: UpdatePolicy, sign: ZoneData -> ZoneData)
    requires z.WellFormed() && !z.signed && Admission(z, msg, policy) == NoError && !NoEffect(z, msg.authority)
    ensures ApplyUpdate(z, msg, policy, sign) == (Commit(ApplyAll(Change(z, [], []), msg.authority)), NoError)
  {
    hide ApplyAll, Admission;
    AllKeepStore(Change(z, [], []), msg.authority);
  }

  lemma {:induction false} CommittedSoaSet(z: ZoneData, rrs: seq<RR>)
    requires Sound(z) && NoDup(z.Rrset(z.origin, TYPE_SOA)) && z.Soa().value.SoaData?
    requires forall rr | rr in rrs :: WellTyped(rr)
    ensures NoDup(Commit(ApplyAll(Change(z, [], []), rrs)).Rrset(z.origin, TYPE_SOA)) <==>
            && BumpedSoa(z) !in z.Rrset(z.origin, TYPE_SOA)[1..]
            && forall rr :: rr in rrs && AddsSoa(z.origin, rr) ==> rr.rdata != BumpedSoa(z)
  {
    hide Sound, AddsSoa, NoDup, ApplyAll, Commit;
    var c := ApplyAll(Change(z, [], []), rrs);
    var before, after := z.Rrset(z.origin, TYPE_SOA), c.zone.Rrset(z.origin, TYPE_SOA);
    SoundFacts(z);
    SoaSetGrows(Change(z, [], []), rrs);
    SoaSurvives(Change(z, [], []), rrs);
    CommitRrsets(c);
    ReplacedFirst(after, BumpedSoa(z));
    TailMembers(before, after, BumpedSoa(z));
  }

  lemma {:induction false} SoundFacts(z: ZoneData)
    requires Sound(z)
    ensures z.WellFormed() && z.Soa().Some? && SoaTyped(z) && z.Serial() < SERIAL_SPACE
  {
  }

  /** Behind the first element, which `rd` is not, the members are the other ones. */
  lemma {:induction false} TailMembers(before: seq<Rdata>, after: seq<Rdata>, rd: Rdata)
    requires before != [] && before <= after && before[0] != rd
    ensures rd in after[1..] <==> rd in after
    ensures rd in before[1..] <==> rd in before
  {
    assert after == [after[0]] + after[1..] && before == [before[0]] + before[1..];
    assert after[0] == before[0];
  }

  /** A zone with an SOA and nothing else. */
  function OnlySoa(soa: Rdata): ZoneData {
    EmptyZone([]).SetRrset([], TYPE_SOA, [soa])
  }

  lemma {:induction false} OnlySoaRrsets(soa: Rdata, n: Name, t: RType)
    ensures OnlySoa(soa).WellFormed() && OnlySoa(soa).origin == [] && OnlySoa(soa).Soa() == Some(soa)
    ensures OnlySoa(soa).Rrset(n, t) == if n == [] && t == TYPE_SOA then [soa] else []
  {
    SetKeepsWellFormed(EmptyZone([]), [], TYPE_SOA, [soa]);
    RrsetOfSet(EmptyZone([]), [], TYPE_SOA, [soa], [], TYPE_SOA);
    RrsetOfSet(EmptyZone([]), [], TYPE_SOA, [soa], n, t);
  }

  lemma {:induction false} OnlySoaIsSound(soa: Rdata)
    requires soa.SoaData? && soa.serial < SERIAL_SPACE
    ensures Sound(OnlySoa(soa))
  {
    hide OnlySoa, ZoneData.Rrset;
    OnlySoaRrsets(soa, [], TYPE_SOA);
    forall n, t
      ensures OnlySoa(soa).Rrset(n, t) == if n == [] && t == TYPE_SOA then [soa] else []
    {
      OnlySoaRrsets(soa, n, t);
    }
    assert OnlySoa(soa).journal == [] by {
      OnlySoaStore(soa);
    }
  }

  lemma {:induction false} OnlySoaStore(soa: Rdata)
    ensures OnlySoa(soa).journal == [] && !OnlySoa(soa).signed && OnlySoa(soa).rrsigs == map[]
  {
  }

  /** An unconditional message that adds one more SOA to it. */
  function SecondSoaMessage(more: Rdata): UpdateMsg {
    UpdateMsg(Some(([], TYPE_SOA)), [], [RR([], TYPE_SOA, CLASS_IN, 0, more)])
  }

  /** It is admitted, adds that SOA and deletes nothing. */
  lemma {:induction false} SecondSoaIsAdded(soa: Rdata, more: Rdata)
    requires soa != more
    ensures var z, msg := OnlySoa(soa), SecondSoaMessage(more);
            && Admission(z, msg, UpdatePolicy(true, None)) == NoError
            && ApplyAll(Change(z, [], []), msg.authority) == ApplyOne(Change(z, [], []), msg.authority[0])
            && ApplyOne(Change(z, [], []), msg.authority[0]).dels == []
            && ApplyOne(Change(z, [], []), msg.authority[0]).adds == msg.authority
  {
    hide OnlySoa;
    var z, rr, policy := OnlySoa(soa), SecondSoaMessage(more).authority[0], UpdatePolicy(true, None);
    OnlySoaRrsets(soa, [], TYPE_SOA);
    assert [rr][1..] == [];
    assert AuthorizationRcode(z, policy, [rr][1..]) == NoError;
    assert ApplyAll(Change(z, [], []), [rr]) == ApplyAll(ApplyOne(Change(z, [], []), rr), [rr][1..]);
  }

  /** It can happen: an admitted message adds the very SOA that its own serial bump
    * then makes of the first one. */
  lemma {:induction false} SoaAdditionCanDuplicate(sign: ZoneData -> ZoneData) returns (z: ZoneData, msg: UpdateMsg, policy: UpdatePolicy)
    ensures Sound(z) && NoDup(z.Rrset(z.origin, TYPE_SOA)) && forall rr | rr in msg.authority :: WellTyped(rr)
    ensures ApplyUpdate(z, msg, policy, sign).1 == NoError
    ensures !NoDup(ApplyUpdate(z, msg, policy, sign).0.Rrset(z.origin, TYPE_SOA))
  {
    hide OnlySoa, Sound, ApplyOne, ApplyAll, Commit, Admission, ZoneData.Rrset;
    var one, two := SoaData("m", "r", 1, 1, 1, 1, 1), SoaData("m", "r", 2, 1, 1, 1, 1);
    z, msg, policy := OnlySoa(one), SecondSoaMessage(two), UpdatePolicy(true, None);
    OnlySoaIsSound(one);
    OnlySoaStore(one);
    OnlySoaRrsets(one, [], TYPE_SOA);
    SecondSoaIsAdded(one, two);
    SoaStaysSingleExactly(z, msg, policy, sign);
    assert msg.authority[0] in msg.authority && AddsSoa(z.origin, msg.authority[0]) && msg.authority[0].rdata == BumpedSoa(z);
  }
}
