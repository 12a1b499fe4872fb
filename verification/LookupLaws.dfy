// What a lookup answers, told from the RRsets of the zone alone.

module LookupLaws {
  import opened Wrappers
  import opened Dns
  import opened Zones
  import opened ZoneLookup

  /** Records that are not just the hashed denial of another name. */
  ghost predicate Holds(z: ZoneData, o: Name) {
    exists t :: z.Rrset(o, t) != [] && (t in {TYPE_NSEC3, TYPE_RRSIG} ==> z.Rrset(o, TYPE_NSEC3) == [])
  }

  /** The name, or one below it, holds records. */
  ghost predicate There(z: ZoneData, n: Name) {
    exists labels: Name :: Holds(z, labels + n)
  }

  /** The name `k` labels above `q` is delegated away, below the apex. */
  ghost predicate Delegates(z: ZoneData, q: Name, t: RType, k: int) {
    && 0 <= k && k + |z.origin| < |q|
    && z.Rrset(q[k..], TYPE_NS) != [] && z.Rrset(q[k..], TYPE_SOA) == []
    && (t == TYPE_DS ==> k != 0)
  }

  /** `k` labels above `q` is the first name that is there, the apex at the latest. */
  ghost predicate MeetsZone(z: ZoneData, q: Name, k: int) {
    && 0 <= k <= |q| - |z.origin| && (k == |q| - |z.origin| || There(z, q[k..]))
    && forall j | 0 <= j < k :: !There(z, q[j..])
  }

  /** The RRset at `o` as records of `shown`. */
  ghost predicate Shows(z: ZoneData, rrs: seq<RR>, o: Name, shown: Name, t: RType) {
    && |rrs| == |z.Rrset(o, t)|
    && forall i | 0 <= i < |rrs| :: rrs[i] == RR(shown, t, CLASS_IN, z.TtlOf(o, t), z.Rrset(o, t)[i])
  }

  lemma {:induction false} OwnsIsHolds(z: ZoneData, o: Name)
    requires z.WellFormed()
    ensures Owns(z, o) <==> Holds(z, o)
  {
    if Owns(z, o) {
      var node := z.records[o];
      if TYPE_NSEC3 in node {
        var t :| t in node && t != TYPE_NSEC3 && t != TYPE_RRSIG;
        assert z.Rrset(o, t) != [];
      } else {
        var t :| t in node;
        assert z.Rrset(o, t) != [];
      }
    }
  }

  lemma {:induction false} ExistsIsThere(z: ZoneData, n: Name)
    requires z.WellFormed()
    ensures Exists(z, n) <==> There(z, n)
  {
    hide Holds, Owns;
    if o :| Owns(z, o) && IsSubdomainOf(o, n) {
      OwnsIsHolds(z, o);
      assert o == o[..|o| - |n|] + n;
    }
    if labels: Name :| Holds(z, labels + n) {
      OwnsIsHolds(z, labels + n);
      assert IsSubdomainOf(labels + n, n);
    }
  }

  lemma {:induction false} CutDelegates(z: ZoneData, n: Name, q: Name, t: RType)
    requires z.WellFormed()
    ensures CutsOff(z, n, q, t) <==> |n| <= |q| && n == q[|q| - |n|..] && Delegates(z, q, t, |q| - |n|)
  {
    if t == TYPE_DS && |n| == |q| {
      assert q[0..] == q;
    }
  }

  lemma {:induction false} EncloserMeets(z: ZoneData, q: Name, e: Name)
    requires z.WellFormed() && IsSubdomainOf(q, z.origin) && IsClosestEncloser(z, q, e)
    ensures |e| <= |q| && e == q[|q| - |e|..] && MeetsZone(z, q, |q| - |e|)
  {
    hide Exists, There;
    ExistsIsThere(z, e);
    forall j | 0 <= j < |q| - |e|
      ensures !There(z, q[j..])
    {
      ExistsIsThere(z, q[j..]);
      assert IsSubdomainOf(q, q[j..]);
    }
  }

  lemma {:induction false} MeetsOnce(z: ZoneData, q: Name, j: int, k: int)
    requires MeetsZone(z, q, j) && MeetsZone(z, q, k)
    ensures j == k
  {
  }

  /** Referred away is what lies at or below a delegation, a DS question at one
    * excepted; the lowest delegation is the one that is handed out. */
  lemma {:induction false} ReferredExactly(z: ZoneData, q: Name, t: RType, r: Answer, encloser: Name)
    requires z.WellFormed() && IsLookup(z, q, t, r, encloser)
    ensures !r.aa <==> exists k :: Delegates(z, q, t, k)
    ensures !r.aa ==> exists k :: && Delegates(z, q, t, k) && (forall j | 0 <= j < k :: !Delegates(z, q, t, j))
                                  && ReferredTo(z, r, q[k..])
  {
    hide Delegates, CutsOff, IsClosestEncloser, IsAnswerAt, IsNegative, IsReferral, ReferredTo, ZoneData.WellFormed;
    CutsDelegate(z, q, t);
    if !r.aa {
      var n :| LowestCut(z, n, q, t) && IsReferral(z, n, r);
      ReferralShows(z, n, r);
      LowestDelegates(z, q, t, n);
    }
  }

  lemma {:induction false} LowestDelegates(z: ZoneData, q: Name, t: RType, n: Name)
    requires z.WellFormed() && LowestCut(z, n, q, t)
    ensures |n| <= |q| && n == q[|q| - |n|..] && Delegates(z, q, t, |q| - |n|)
    ensures forall j | 0 <= j < |q| - |n| :: !Delegates(z, q, t, j)
  {
    hide Delegates, CutsOff, ZoneData.WellFormed;
    CutsDelegate(z, q, t);
  }

  lemma {:induction false} CutsDelegate(z: ZoneData, q: Name, t: RType)
    requires z.WellFormed()
    ensures forall n :: CutsOff(z, n, q, t) ==> |n| <= |q| && n == q[|q| - |n|..] && Delegates(z, q, t, |q| - |n|)
    ensures forall k :: Delegates(z, q, t, k) ==> 0 <= k < |q| && CutsOff(z, q[k..], q, t)
  {
    hide Delegates, CutsOff, ZoneData.WellFormed;
    forall n | CutsOff(z, n, q, t)
      ensures |n| <= |q| && n == q[|q| - |n|..] && Delegates(z, q, t, |q| - |n|)
    {
      CutDelegates(z, n, q, t);
    }
    forall k | Delegates(z, q, t, k)
      ensures 0 <= k < |q| && CutsOff(z, q[k..], q, t)
    {
      DelegatesWithin(z, q, t, k);
      CutDelegates(z, q[k..], q, t);
    }
  }

  lemma {:induction false} DelegatesWithin(z: ZoneData, q: Name, t: RType, k: int)
    requires Delegates(z, q, t, k)
    ensures 0 <= k < |q|
  {
  }

  /** The name servers of the delegation, then its DS records. */
  ghost predicate ReferredTo(z: ZoneData, r: Answer, cut: Name) {
    var servers := |z.Rrset(cut, TYPE_NS)|;
    && r.rcode == NoError && r.answers == [] && |r.authority| >= servers
    && Shows(z, r.authority[..servers], cut, cut, TYPE_NS)
    && Shows(z, r.authority[servers..], cut, cut, TYPE_DS)
  }

  lemma {:induction false} ReferralShows(z: ZoneData, n: Name, r: Answer)
    requires IsReferral(z, n, r)
    ensures ReferredTo(z, r, n)
  {
    var servers := |z.Rrset(n, TYPE_NS)|;
    assert r.authority[..servers] == RrsAt(z, n, n, TYPE_NS);
    assert r.authority[servers..] == RrsAt(z, n, n, TYPE_DS);
  }

  /** NXDOMAIN is answered for a name below the apex, not delegated, that is not
    * there and has no wildcard right below the first name above it that is. */
  lemma {:induction false} DeniedExactly(z: ZoneData, q: Name, t: RType, r: Answer, encloser: Name, k: int)
    requires z.WellFormed() && IsSubdomainOf(q, z.origin) && IsLookup(z, q, t, r, encloser) && MeetsZone(z, q, k)
    ensures r.rcode == NxDomain <==> r.aa && 0 < k && forall u :: z.Rrset(["*"] + q[k..], u) == []
  {
    hide IsClosestEncloser, Exists, There, CutsOff, IsAnswerAt, IsReferral;
    EncloserMeets(z, q, encloser);
    MeetsOnce(z, q, k, |q| - |encloser|);
    EncloserOfExisting(z, q, encloser);
    ApexEnclosesItself(z, encloser);
    ExistsIsThere(z, q);
    assert q[0..] == q;
    var star := ["*"] + q[k..];
    assert Star(encloser) == star;
    if star in z.records {
      var u :| u in z.records[star];
      assert z.Rrset(star, u) != [];
    }
  }

  /** An RRset of the name itself, or of that wildcard if the name is not there, is
    * handed out whole, under the name asked for. */
  lemma {:induction false} AnsweredFrom(z: ZoneData, q: Name, t: RType, r: Answer, encloser: Name, k: int)
    requires z.WellFormed() && IsSubdomainOf(q, z.origin) && IsLookup(z, q, t, r, encloser) && MeetsZone(z, q, k) && r.aa
    ensures Holds(z, q) && AnswersItself(z, q, t) ==> Shows(z, r.answers, q, q, t)
    ensures 0 < k && AnswersItself(z, ["*"] + q[k..], t) ==> Shows(z, r.answers, ["*"] + q[k..], q, t)
    ensures k == 0 && !Holds(z, q) ==> r.answers == [] && r.rcode == NoError
  {
    hide IsClosestEncloser, Exists, There, Owns, Holds, CutsOff, IsReferral, ZoneData.WellFormed;
    EncloserMeets(z, q, encloser);
    MeetsOnce(z, q, k, |q| - |encloser|);
    OwnsIsHolds(z, q);
    assert q[0..] == q;
    var star := ["*"] + q[k..];
    assert Star(encloser) == star;
    assert z.Rrset(star, t) != [] ==> star in z.records;
  }

  /** The name has the RRset, and no CNAME that would lead elsewhere. */
  ghost predicate AnswersItself(z: ZoneData, o: Name, t: RType) {
    z.Rrset(o, t) != [] && (t != TYPE_CNAME ==> z.Rrset(o, TYPE_CNAME) == [])
  }
}
