// Which error a refused UPDATE is answered with: the one of the first demand it
// violates, in the order of the handler, and exactly when that is the error of
// RFC 2136, section 3.2.5.

module UpdateRcodes {
  import opened Wrappers
  import opened Dns
  import opened Zones
  import opened Updates
  import opened UpdateInvariants
  import opened UpdateMeaning
  import opened UpdateDemand

  /** The error of a prerequisite that fails (section 3.2): a malformed one, a name
    * or RRset that is not there or not the same, or one that is. */
  predicate Answers(rc: Rcode, rr: RR) {
    if rr.ttl != 0 then rc == FormErr
    else match rc
      case NxDomain => rr.rclass == CLASS_ANY && rr.rtype == TYPE_ANY
      case YxDomain => rr.rclass == CLASS_NONE && rr.rtype == TYPE_ANY
      case YxRrset => rr.rclass == CLASS_NONE && rr.rtype != TYPE_ANY
      case NxRrset => rr.rclass != CLASS_NONE && (rr.rclass == CLASS_ANY ==> rr.rtype != TYPE_ANY)
      case _ => false
  }

  lemma {:induction false} OneAnswers(z: ZoneData, all: seq<RR>, rr: RR)
    requires z.WellFormed() && !Satisfied(z, all, rr)
    ensures Answers(PrereqRcode(z, all, rr), rr)
  {
    hide Satisfied;
    OnePrerequisite(z, all, rr);
  }

  lemma {:induction false} FirstFails(z: ZoneData, all: seq<RR>, rest: seq<RR>, k: nat)
    requires z.WellFormed() && k < |rest| && !Satisfied(z, all, rest[k])
    requires forall j | 0 <= j < k :: Satisfied(z, all, rest[j])
    ensures Answers(FirstFailure(z, all, rest), rest[k]) && FirstFailure(z, all, rest) != NoError
    decreases |rest|
  {
    hide Satisfied, PrereqRcode, Answers;
    OnePrerequisite(z, all, rest[0]);
    if k == 0 {
      OneAnswers(z, all, rest[0]);
    } else {
      assert rest[1..][k - 1] == rest[k];
      forall j | 0 <= j < k - 1
        ensures Satisfied(z, all, rest[1..][j])
      {
        assert rest[1..][j] == rest[j + 1];
      }
      FirstFails(z, all, rest[1..], k - 1);
    }
  }

  /** A refused message is answered with the error of the first prerequisite that
    * fails, and changes nothing. */
  lemma {:induction false} FirstPrerequisiteAnswers(z: ZoneData, msg: UpdateMsg, policy: UpdatePolicy, sign: ZoneData -> ZoneData, k: nat)
    requires z.WellFormed() && msg.question == Some((z.origin, TYPE_SOA))
    requires k < |msg.answers| && !Satisfied(z, msg.answers, msg.answers[k])
    requires forall j | 0 <= j < k :: Satisfied(z, msg.answers, msg.answers[j])
    ensures var (z', rc) := ApplyUpdate(z, msg, policy, sign);
            Answers(rc, msg.answers[k]) && z' == z
  {
    hide Satisfied, Answers, FirstFailure, AuthorizationRcode;
    FirstFails(z, msg.answers, msg.answers, k);
  }

  ghost predicate Within(n: Name, origin: Name) {
    exists labels: Name :: n == labels + origin
  }

  /** Updates are allowed, and of this name of the zone. */
  ghost predicate Covered(policy: UpdatePolicy, origin: Name, n: Name) {
    policy.allow && Within(n, origin) && (policy.names.Some? ==> n in policy.names.value)
  }

  lemma {:induction false} PermitsCovered(policy: UpdatePolicy, origin: Name, n: Name)
    ensures IsSubdomainOf(n, origin) <==> Within(n, origin)
    ensures policy.Permits(origin, n) <==> Covered(policy, origin, n)
  {
    if IsSubdomainOf(n, origin) {
      assert n == n[..|n| - |origin|] + origin;
    }
  }

  lemma {:induction false} FirstUnpermitted(z: ZoneData, policy: UpdatePolicy, rrs: seq<RR>, k: nat)
    requires k < |rrs| && !Covered(policy, z.origin, rrs[k].name)
    requires forall j | 0 <= j < k :: Covered(policy, z.origin, rrs[j].name)
    ensures AuthorizationRcode(z, policy, rrs) == if Within(rrs[k].name, z.origin) then Refused else NotZone
    decreases |rrs|
  {
    hide Covered, Within;
    PermitsCovered(policy, z.origin, rrs[0].name);
    if k > 0 {
      assert Covered(policy, z.origin, rrs[0].name);
      assert IsSubdomainOf(rrs[0].name, z.origin);
      assert forall j | 0 <= j < k :: rrs[1..][j] == rrs[j + 1];
      FirstUnpermitted(z, policy, rrs[1..], k - 1);
    }
  }

  /** What is refused for anything else, in this order: another question than the
    * SOA of the zone, a name outside it or that the policy does not cover, a
    * foreign class, a zone without an SOA. */
  lemma {:induction false} RefusalAnswers(z: ZoneData, msg: UpdateMsg, policy: UpdatePolicy, sign: ZoneData -> ZoneData)
    requires z.WellFormed()
    ensures var rc, rrs := ApplyUpdate(z, msg, policy, sign).1, msg.authority;
            && (msg.question.None? || msg.question.value.1 != TYPE_SOA ==> rc == FormErr)
            && (msg.question.Some? && msg.question.value.1 == TYPE_SOA && msg.question.value.0 != z.origin ==> rc == NotAuth)
            && (msg.question == Some((z.origin, TYPE_SOA)) && (forall rr | rr in msg.answers :: Satisfied(z, msg.answers, rr)) ==>
                  && (forall k | 0 <= k < |rrs| && !Covered(policy, z.origin, rrs[k].name)
                                 && forall j | 0 <= j < k :: Covered(policy, z.origin, rrs[j].name) ::
                        rc == if Within(rrs[k].name, z.origin) then Refused else NotZone)
                  && ((forall rr | rr in rrs :: Covered(policy, z.origin, rr.name)) ==>
                        if exists rr | rr in rrs :: rr.rclass !in {CLASS_IN, CLASS_ANY, CLASS_NONE} then rc == FormErr
                        else rc == if z.Rrset(z.origin, TYPE_SOA) == [] then ServFail else NoError))
  {
    hide Satisfied, FirstFailure, AuthorizationRcode, UpdatePolicy.Permits, ApplyAll, Commit, Covered, Within;
    var rrs := msg.authority;
    PrerequisitesMean(z, msg.answers, msg.answers);
    AuthorizedExactly(z, policy, rrs);
    forall rr | rr in rrs
      ensures policy.Permits(z.origin, rr.name) <==> Covered(policy, z.origin, rr.name)
    {
      PermitsCovered(policy, z.origin, rr.name);
    }
    forall k | 0 <= k < |rrs| && !Covered(policy, z.origin, rrs[k].name)
               && forall j | 0 <= j < k :: Covered(policy, z.origin, rrs[j].name)
      ensures AuthorizationRcode(z, policy, rrs) == if Within(rrs[k].name, z.origin) then Refused else NotZone
    {
      FirstUnpermitted(z, policy, rrs, k);
    }
  }

  // ---- The order of section 3.2.5 ----

  /** Section 3.2.5 goes through the prerequisites of classes ANY and NONE first; the
    * RRsets that the ones of the zone's class spell out are compared after them. */
  ghost predicate RfcAnswers(z: ZoneData, prereqs: seq<RR>, rc: Rcode) {
    || (exists k :: FirstSimple(z, prereqs, k) && Answers(rc, prereqs[k]))
    || (SimpleHold(z, prereqs) && (exists rr :: rr in prereqs && !Holds(z, prereqs, rr)) && rc == NxRrset)
  }

  ghost predicate SimpleHold(z: ZoneData, prereqs: seq<RR>) {
    forall rr | rr in prereqs && rr.rclass != CLASS_IN :: Holds(z, prereqs, rr)
  }

  ghost predicate FirstSimple(z: ZoneData, prereqs: seq<RR>, k: int) {
    && 0 <= k < |prereqs| && prereqs[k].rclass != CLASS_IN && !Holds(z, prereqs, prereqs[k])
    && forall j | 0 <= j < k && prereqs[j].rclass != CLASS_IN :: Holds(z, prereqs, prereqs[j])
  }

  lemma {:induction false} OneAnswer(a: Rcode, b: Rcode, rr: RR)
    requires Answers(a, rr) && Answers(b, rr)
    ensures a == b
  {
  }

  /** The prerequisite at `k` is the first that the handler finds unsatisfied. */
  ghost predicate FailsFirst(z: ZoneData, prereqs: seq<RR>, k: int) {
    && 0 <= k < |prereqs| && !Satisfied(z, prereqs, prereqs[k])
    && forall j | 0 <= j < k :: Satisfied(z, prereqs, prereqs[j])
  }

  /** Of a message with formed prerequisites that fails at `k`: it is answered as the
    * RFC has it if and only if `k` is of class ANY or NONE, or of the zone's class
    * and the first violated one of the others asks for an RRset, or none is violated
    * and the RFC refuses the message too. */
  lemma {:induction false} PrerequisiteOrderExactly(z: ZoneData, msg: UpdateMsg, policy: UpdatePolicy, sign: ZoneData -> ZoneData,
                                                    blank: Rdata -> bool, k: nat)
    requires z.WellFormed() && msg.question == Some((z.origin, TYPE_SOA))
    requires forall rr | rr in msg.answers :: FormedPrerequisite(z.origin, rr, blank)
    requires FailsFirst(z, msg.answers, k)
    ensures RfcAnswers(z, msg.answers, ApplyUpdate(z, msg, policy, sign).1) <==>
            || msg.answers[k].rclass != CLASS_IN
            || (exists m :: FirstSimple(z, msg.answers, m) && msg.answers[m].rclass == CLASS_ANY && msg.answers[m].rtype != TYPE_ANY)
            || (SimpleHold(z, msg.answers) && exists rr :: rr in msg.answers && !Holds(z, msg.answers, rr))
  {
    hide Satisfied, Holds, ApplyUpdate;
    var ps, rc := msg.answers, ApplyUpdate(z, msg, policy, sign).1;
    FirstPrerequisiteAnswers(z, msg, policy, sign, k);
    forall rr | rr in ps && rr.rclass != CLASS_IN
      ensures Satisfied(z, ps, rr) <==> Holds(z, ps, rr)
    {
      assert FormedPrerequisite(z.origin, rr, blank);
      SatisfiedOrHolds(z, ps, rr);
    }
    assert FormedPrerequisite(z.origin, ps[k], blank);
    if ps[k].rclass != CLASS_IN {
      assert FirstSimple(z, ps, k);
    } else {
      assert Answers(NxRrset, ps[k]);
      OneAnswer(rc, NxRrset, ps[k]);
      forall m | FirstSimple(z, ps, m)
        ensures Answers(NxRrset, ps[m]) <==> ps[m].rclass == CLASS_ANY && ps[m].rtype != TYPE_ANY
      {
        assert FormedPrerequisite(z.origin, ps[m], blank);
      }
    }
  }

  /** A CNAME that is not there, spelled out, before an address RRset that is to be
    * absent and is not: NXRRSET, where the RFC answers YXRRSET. */
  lemma {:induction false} OrderMatters(z: ZoneData, policy: UpdatePolicy, sign: ZoneData -> ZoneData, blank: Rdata -> bool,
                                        alias: RR, none: RR)
    requires z.WellFormed() && alias.rclass == CLASS_IN && none.rclass == CLASS_NONE && none.rtype != TYPE_ANY
    requires FormedPrerequisite(z.origin, alias, blank) && FormedPrerequisite(z.origin, none, blank)
    requires z.Rrset(alias.name, alias.rtype) == [] && z.Rrset(none.name, none.rtype) != []
    ensures var msg := UpdateMsg(Some((z.origin, TYPE_SOA)), [alias, none], []);
            && ApplyUpdate(z, msg, policy, sign).1 == NxRrset
            && RfcAnswers(z, msg.answers, YxRrset) && !RfcAnswers(z, msg.answers, NxRrset)
  {
    hide ApplyUpdate;
    var ps := [alias, none];
    var msg := UpdateMsg(Some((z.origin, TYPE_SOA)), ps, []);
    assert AskedFor(ps, alias.name, alias.rtype, alias.rdata) by {
      assert alias in ps;
    }
    assert !Satisfied(z, ps, ps[0]);
    FirstPrerequisiteAnswers(z, msg, policy, sign, 0);
    assert FirstSimple(z, ps, 1);
    assert none in ps && !Holds(z, ps, none);
  }
}
