// What the handler makes of an UPDATE, stated RRset by RRset and without the
// store. Where that is what RFC 2136 demands is the subject of UpdateDemand.

module UpdateMeaning {
  import opened Dns
  import opened Zones
  import opened Updates
  import opened UpdateInvariants

  // ---- Prerequisites ----

  /** Some RRset exists at the name. */
  ghost predicate InUse(z: ZoneData, n: Name) {
    exists t :: z.Rrset(n, t) != []
  }

  /** What the handler takes a prerequisite to say: a TTL of zero and, by class,
    * that the name or RRset exists, that it does not, or that it is what all the
    * prerequisites for it together hold. */
  ghost predicate Satisfied(z: ZoneData, all: seq<RR>, rr: RR) {
    && rr.ttl == 0
    && if rr.rclass == CLASS_ANY then (if rr.rtype == TYPE_ANY then InUse(z, rr.name) else z.Rrset(rr.name, rr.rtype) != [])
       else if rr.rclass == CLASS_NONE then (if rr.rtype == TYPE_ANY then !InUse(z, rr.name) else z.Rrset(rr.name, rr.rtype) == [])
       else forall rd :: rd in z.Rrset(rr.name, rr.rtype) <==> AskedFor(all, rr.name, rr.rtype, rd)
  }

  ghost predicate AskedFor(all: seq<RR>, n: Name, t: RType, rd: Rdata) {
    exists rr :: rr in all && rr.name == n && rr.rtype == t && rr.rdata == rd
  }

  lemma {:induction false} NodeIsUse(z: ZoneData, n: Name)
    requires z.WellFormed()
    ensures z.NodeOf(n) != map[] <==> InUse(z, n)
    ensures forall t :: t in z.NodeOf(n) <==> z.Rrset(n, t) != []
  {
    if z.NodeOf(n) != map[] {
      var t :| t in z.NodeOf(n);
      assert z.Rrset(n, t) != [];
    }
  }

  lemma {:induction false} OnePrerequisite(z: ZoneData, all: seq<RR>, rr: RR)
    requires z.WellFormed()
    ensures PrereqRcode(z, all, rr) == NoError <==> Satisfied(z, all, rr)
  {
    NodeIsUse(z, rr.name);
    var want, held := RdataSet(all, rr.name, rr.rtype), z.Rrset(rr.name, rr.rtype);
    forall rd
      ensures rd in want <==> AskedFor(all, rr.name, rr.rtype, rd)
    {
    }
    assert want == (set rd | rd in held) <==> forall rd :: rd in held <==> rd in want;
  }

  /** The prerequisites are accepted if and only if each of them is satisfied. */
  lemma {:induction false} PrerequisitesMean(z: ZoneData, all: seq<RR>, rest: seq<RR>)
    requires z.WellFormed()
    ensures FirstFailure(z, all, rest) == NoError <==> forall rr :: rr in rest ==> Satisfied(z, all, rr)
    decreases |rest|
  {
    hide Satisfied, PrereqRcode;
    if rest != [] {
      OnePrerequisite(z, all, rest[0]);
      PrerequisitesMean(z, all, rest[1..]);
      assert rest == [rest[0]] + rest[1..];
    }
  }

  // ---- Changes ----

  /** One RRset, which holds `before`, after one update record. */
  function Outcome(origin: Name, before: seq<Rdata>, rr: RR, n: Name, t: RType): seq<Rdata> {
    if rr.name != n then before
    else if rr.rclass == CLASS_ANY then
      (if (rr.rtype == TYPE_ANY || rr.rtype == t) && !(n == origin && (t == TYPE_SOA || t == TYPE_NS)) then []
       else before)
    else if rr.rtype != t then before
    else if rr.rclass == CLASS_NONE then
      (if n == origin && (t == TYPE_SOA || (t == TYPE_NS && |before| <= 1)) then before else Without(before, rr.rdata))
    else if rr.rdata in before then before
    else before + [rr.rdata]
  }

  function OutcomeAll(origin: Name, before: seq<Rdata>, rrs: seq<RR>, n: Name, t: RType): seq<Rdata>
    decreases |rrs|
  {
    if rrs == [] then before else OutcomeAll(origin, Outcome(origin, before, rrs[0], n, t), rrs[1..], n, t)
  }

  lemma {:induction false} OneOutcome(c: Change, rr: RR, n: Name, t: RType)
    ensures ApplyOne(c, rr).zone.origin == c.zone.origin
    ensures ApplyOne(c, rr).zone.Rrset(n, t) == Outcome(c.zone.origin, c.zone.Rrset(n, t), rr, n, t)
  {
    var z := c.zone;
    if rr.rclass == CLASS_ANY && rr.rtype == TYPE_ANY {
      DropAllRrset(c, rr.name, SortedTypes(z.NodeOf(rr.name).Keys), n, t);
    } else {
      RrsetOfSet(z, rr.name, rr.rtype, [], n, t);
      RrsetOfSet(z, rr.name, rr.rtype, Without(z.Rrset(rr.name, rr.rtype), rr.rdata), n, t);
      RrsetOfSet(z, rr.name, rr.rtype, z.Rrset(rr.name, rr.rtype) + [rr.rdata], n, t);
    }
  }

  /** A message acts on every RRset by itself: each comes out as its own records,
    * taken through the update records in order. */
  lemma {:induction false} AllOutcomes(c: Change, rrs: seq<RR>, n: Name, t: RType)
    ensures ApplyAll(c, rrs).zone.origin == c.zone.origin
    ensures ApplyAll(c, rrs).zone.Rrset(n, t) == OutcomeAll(c.zone.origin, c.zone.Rrset(n, t), rrs, n, t)
    decreases |rrs|
  {
    if rrs != [] {
      OneOutcome(c, rrs[0], n, t);
      AllOutcomes(ApplyOne(c, rrs[0]), rrs[1..], n, t);
    }
  }

  /** An admitted UPDATE of an unsigned zone takes every RRset but the apex SOA
    * through the update records; a refused one leaves every RRset alone. */
  lemma {:induction false} UpdateOutcome(z: ZoneData, msg: UpdateMsg, policy: UpdatePolicy, sign: ZoneData -> ZoneData,
                                       n: Name, t: RType)
    requires Sound(z) && !z.signed && !(n == z.origin && t == TYPE_SOA)
    requires forall rr | rr in msg.authority :: WellTyped(rr)
    ensures ApplyUpdate(z, msg, policy, sign).0.Rrset(n, t) ==
            if Admission(z, msg, policy) == NoError then OutcomeAll(z.origin, z.Rrset(n, t), msg.authority, n, t)
            else z.Rrset(n, t)
  {
    hide Admission, Sound;
    AllOutcomes(Change(z, [], []), msg.authority, n, t);
    if Admission(z, msg, policy) == NoError {
      AdmittedHasSoa(z, msg, policy);
      SoundIsTyped(z);
      SoaSurvives(Change(z, [], []), msg.authority);
      AllKeepStoreUnsigned(z, msg.authority);
      var c := ApplyAll(Change(z, [], []), msg.authority);
      WithSerialRrset(c.zone, NextSerial(c.zone.Serial()), n, t);
    }
  }

  lemma {:induction false} AdmittedHasSoa(z: ZoneData, msg: UpdateMsg, policy: UpdatePolicy)
    requires Admission(z, msg, policy) == NoError
    ensures z.Soa().Some?
  {
  }

  lemma {:induction false} SoundIsTyped(z: ZoneData)
    requires Sound(z)
    ensures SoaTyped(z) && z.WellFormed()
  {
  }

  lemma {:induction false} AllKeepStoreUnsigned(z: ZoneData, rrs: seq<RR>)
    requires z.WellFormed() && !z.signed
    ensures !ApplyAll(Change(z, [], []), rrs).zone.signed
  {
    AllKeepStore(Change(z, [], []), rrs);
  }
}
