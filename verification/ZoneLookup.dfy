// Answering from an authoritative zone (auth_zone/zone.py): delegation, closest
// encloser, wildcard synthesis and CNAME chains.

module ZoneLookup {
  import opened Wrappers
  import opened Dns
  import opened Zones

  const MAX_CNAME_CHAIN: nat := 16

  datatype Answer = Answer(rcode: Rcode, aa: bool, answers: seq<RR>, authority: seq<RR>, additional: seq<RR>)

  // ---- Names of the zone ----

  /** A hashed NSEC3 owner is kept beside the names of the zone, it is not one. */
  predicate Nsec3Only(node: Node) {
    TYPE_NSEC3 in node && forall t :: t in node ==> t == TYPE_NSEC3 || t == TYPE_RRSIG
  }

  predicate Owns(z: ZoneData, n: Name) {
    n in z.records && !Nsec3Only(z.records[n])
  }

  /** RFC 4592 section 2.2.2: a name exists when it, or a name below it, owns records. */
  ghost predicate Exists(z: ZoneData, n: Name) {
    exists o :: Owns(z, o) && IsSubdomainOf(o, n)
  }

  ghost predicate OwnersUnder(z: ZoneData) {
    forall n :: n in z.records ==> IsSubdomainOf(n, z.origin)
  }

  /** The deepest ancestor-or-self of `q` that exists; the apex exists in any case. */
  ghost predicate IsClosestEncloser(z: ZoneData, q: Name, e: Name) {
    && IsSubdomainOf(q, e) && IsSubdomainOf(e, z.origin)
    && (e == z.origin || Exists(z, e))
    && forall d: Name :: IsSubdomainOf(q, d) && Exists(z, d) ==> |d| <= |e|
  }

  function Suffix(n: Name, k: nat): Name
    requires k <= |n|
  {
    n[|n| - k..]
  }

  /** The scan never compares the labels of the apex: it sees every owner as if
    * it lay under the zone. */
  function Rebased(n: Name, origin: Name): (r: Name)
    ensures IsSubdomainOf(r, origin)
  {
    (if |n| >= |origin| then n[..|n| - |origin|] else []) + origin
  }

  /** The inner loop: how many labels at the end `name`, so seen, shares with `q`. */
  method SharedLabels(name: Name, q: Name, origin: Name) returns (k: nat)
    requires IsSubdomainOf(q, origin)
    ensures var r := Rebased(name, origin);
            |origin| <= k <= |r| && k <= |q| && Suffix(r, k) == Suffix(q, k) && SharesAtMost(r, q, k)
  {
    hide SharesAtMost, Rebased;
    k := |origin|;
    ghost var r := Rebased(name, origin);
    RebasedEnd(name, origin);
    while k < |name| && k < |q| && name[|name| - 1 - k] == q[|q| - 1 - k]
      invariant |origin| <= k <= |r| && k <= |q| && Suffix(r, k) == Suffix(q, k)
    {
      RebasedAt(name, origin, k);
      SuffixGrows(r, k);
      SuffixGrows(q, k);
      k := k + 1;
    }
    if k < |name| {
      RebasedAt(name, origin, k);
    }
    SharesNoMore(r, q, k);
  }

  lemma {:induction false} RebasedEnd(name: Name, origin: Name)
    ensures var r := Rebased(name, origin);
            |r| == (if |name| >= |origin| then |name| else |origin|) && Suffix(r, |origin|) == origin
  {
  }

  lemma {:induction false} RebasedAt(name: Name, origin: Name, k: nat)
    requires |origin| <= k < |name|
    ensures var r := Rebased(name, origin); k < |r| && r[|r| - 1 - k] == name[|name| - 1 - k]
  {
  }

  lemma {:induction false} SharesNoMore(r: Name, q: Name, k: nat)
    requires k <= |r| && k <= |q|
    requires k < |r| && k < |q| ==> r[|r| - 1 - k] != q[|q| - 1 - k]
    ensures SharesAtMost(r, q, k)
  {
    forall m: nat | k < m <= |r| && m <= |q|
      ensures Suffix(r, m) != Suffix(q, m)
    {
      assert Suffix(r, m)[m - 1 - k] != Suffix(q, m)[m - 1 - k];
    }
  }

  lemma {:induction false} SuffixGrows(n: Name, k: nat)
    requires k < |n|
    ensures Suffix(n, k + 1) == [n[|n| - 1 - k]] + Suffix(n, k)
  {
  }

  lemma {:induction false} SuffixOfSuffix(n: Name, m: nat, k: nat)
    requires k <= m <= |n|
    ensures Suffix(Suffix(n, m), k) == Suffix(n, k)
  {
  }

  /** What the scan takes for existing: an ancestor-or-self of an owner as it sees it. */
  ghost predicate SeemsToExist(z: ZoneData, n: Name) {
    exists o :: Owns(z, o) && IsSubdomainOf(Rebased(o, z.origin), n)
  }

  ghost predicate IsScanned(z: ZoneData, q: Name, e: Name) {
    && IsSubdomainOf(q, e) && IsSubdomainOf(e, z.origin)
    && (e == z.origin || SeemsToExist(z, e))
    && forall d: Name :: IsSubdomainOf(q, d) && SeemsToExist(z, d) ==> |d| <= |e|
  }

  /** `_closest_encloser`: one pass over the owners, in any order, with an early end. */
  method ClosestEncloser(z: ZoneData, items: seq<Name>, qname: Name) returns (e: Name)
    requires Lists(items, z.records.Keys) && IsSubdomainOf(qname, z.origin)
    ensures IsScanned(z, qname, e)
  {
    hide SharesAtMost, IsScanned, NoneDeeper, BestOwner;
    var best := |z.origin|;
    ghost var owner: Option<Name> := None;
    var i := 0;
    NoneDeeperAtFirst(z, items, qname, best);
    while i < |items| && best < |qname|
      invariant i <= |items| && |z.origin| <= best <= |qname|
      invariant best > |z.origin| ==> BestOwner(z, qname, best, owner)
      invariant NoneDeeper(z, items, qname, best, i)
    {
      var name := items[i];
      i := i + 1;
      if Nsec3Only(z.records[name]) {
        NoneDeeperSkips(z, items, qname, best, i - 1);
        continue;
      }
      var k := SharedLabels(name, qname, z.origin);
      NoneDeeperGoesOn(z, items, qname, best, i - 1, k);
      if k > best {
        SharedIsBest(z, qname, k, name);
        best := k;
        owner := Some(name);
      }
    }
    e := Suffix(qname, best);
    DeepestSeen(z, items, qname, best, owner, i);
  }

  ghost predicate SharesAtMost(o: Name, q: Name, best: nat) {
    forall m: nat :: m <= |o| && m <= |q| && Suffix(o, m) == Suffix(q, m) ==> m <= best
  }

  ghost predicate BestOwner(z: ZoneData, q: Name, best: nat, w: Option<Name>)
    requires best <= |q|
  {
    w.Some? && Owns(z, w.value)
    && var r := Rebased(w.value, z.origin); best <= |r| && Suffix(r, best) == Suffix(q, best)
  }

  /** None of the first `i` owners shares more than `best` labels with `q`. */
  ghost predicate NoneDeeper(z: ZoneData, items: seq<Name>, q: Name, best: nat, i: nat) {
    forall j :: 0 <= j < i <= |items| && Owns(z, items[j]) ==> SharesAtMost(Rebased(items[j], z.origin), q, best)
  }

  lemma {:induction false} NoneDeeperAtFirst(z: ZoneData, items: seq<Name>, q: Name, best: nat)
    ensures NoneDeeper(z, items, q, best, 0)
  {
  }

  lemma {:induction false} NoneDeeperSkips(z: ZoneData, items: seq<Name>, q: Name, best: nat, i: nat)
    requires i < |items| && NoneDeeper(z, items, q, best, i) && !Owns(z, items[i])
    ensures NoneDeeper(z, items, q, best, i + 1)
  {
  }

  lemma {:induction false} NoneDeeperGoesOn(z: ZoneData, items: seq<Name>, q: Name, best: nat, i: nat, k: nat)
    requires i < |items| && NoneDeeper(z, items, q, best, i) && SharesAtMost(Rebased(items[i], z.origin), q, k)
    ensures NoneDeeper(z, items, q, if k > best then k else best, i + 1)
  {
  }

  lemma {:induction false} SharedIsBest(z: ZoneData, q: Name, k: nat, owner: Name)
    requires Owns(z, owner) && k <= |q| && k <= |Rebased(owner, z.origin)|
    requires Suffix(Rebased(owner, z.origin), k) == Suffix(q, k)
    ensures BestOwner(z, q, k, Some(owner))
  {
  }

  lemma {:induction false} DeepestSeen(z: ZoneData, items: seq<Name>, q: Name, best: nat, w: Option<Name>, i: nat)
    requires Lists(items, z.records.Keys) && IsSubdomainOf(q, z.origin)
    requires i <= |items| && |z.origin| <= best <= |q| && (i == |items| || best == |q|)
    requires best > |z.origin| ==> BestOwner(z, q, best, w)
    requires NoneDeeper(z, items, q, best, i)
    ensures IsScanned(z, q, Suffix(q, best))
  {
    hide Lists, NoneDeeper, BestOwner, SeemsToExist;
    SuffixOfSuffix(q, best, |z.origin|);
    if best > |z.origin| {
      BestSeems(z, q, best, w);
    }
    forall d: Name | IsSubdomainOf(q, d) && SeemsToExist(z, d)
      ensures |d| <= best
    {
      if best < |q| {
        NotDeeper(z, items, q, best, d);
      }
    }
  }

  lemma {:induction false} BestSeems(z: ZoneData, q: Name, best: nat, w: Option<Name>)
    requires best <= |q| && BestOwner(z, q, best, w)
    ensures SeemsToExist(z, Suffix(q, best))
  {
    assert IsSubdomainOf(Rebased(w.value, z.origin), Suffix(q, best));
  }

  lemma {:induction false} NotDeeper(z: ZoneData, items: seq<Name>, q: Name, best: nat, d: Name)
    requires Lists(items, z.records.Keys) && IsSubdomainOf(q, d) && SeemsToExist(z, d)
    requires NoneDeeper(z, items, q, best, |items|)
    ensures |d| <= best
  {
    hide Nsec3Only, Rebased;
    var o :| Owns(z, o) && IsSubdomainOf(Rebased(o, z.origin), d);
    assert o in items;
    assert SharesAtMost(Rebased(o, z.origin), q, best);
    assert Suffix(Rebased(o, z.origin), |d|) == d == Suffix(q, |d|);
  }

  /** Whatever the scan reports, for a name of the zone, is its closest encloser. */
  ghost predicate ScanIsRight(z: ZoneData) {
    forall q, e :: IsSubdomainOf(q, z.origin) && IsScanned(z, q, e) ==> IsClosestEncloser(z, q, e)
  }

  /** Every owner, seen under the apex, is a name of the zone. */
  ghost predicate OwnersSeenRight(z: ZoneData) {
    forall o :: Owns(z, o) ==> SeenRight(z, o)
  }

  ghost predicate SeenRight(z: ZoneData, o: Name) {
    Rebased(o, z.origin) == z.origin || Exists(z, Rebased(o, z.origin))
  }

  /** The scan finds the closest encloser of every name of the zone exactly when
    * every owner, seen under the apex, is a name of the zone. */
  lemma {:induction false} ScanIsExact(z: ZoneData)
    ensures ScanIsRight(z) <==> OwnersSeenRight(z)
  {
    if OwnersSeenRight(z) {
      forall q, e | IsSubdomainOf(q, z.origin) && IsScanned(z, q, e)
        ensures IsClosestEncloser(z, q, e)
      {
        SeenIsThere(z, q, e);
      }
    }
    if ScanIsRight(z) {
      forall o | Owns(z, o)
        ensures SeenRight(z, o)
      {
        ScanSees(z, o);
      }
    }
  }

  lemma {:induction false} ScanSees(z: ZoneData, o: Name)
    requires Owns(z, o)
    ensures IsSubdomainOf(Rebased(o, z.origin), z.origin)
    ensures IsScanned(z, Rebased(o, z.origin), Rebased(o, z.origin))
  {
    var q := Rebased(o, z.origin);
    assert IsSubdomainOf(q, q);
  }

  lemma {:induction false} SeenIsThere(z: ZoneData, q: Name, e: Name)
    requires OwnersSeenRight(z) && IsSubdomainOf(q, z.origin) && IsScanned(z, q, e)
    ensures IsClosestEncloser(z, q, e)
  {
    if e != z.origin {
      var o :| Owns(z, o) && IsSubdomainOf(Rebased(o, z.origin), e);
      assert SeenRight(z, o);
      assert Rebased(o, z.origin) == z.origin ==> |e| <= |z.origin|;
      var o' :| Owns(z, o') && IsSubdomainOf(o', Rebased(o, z.origin));
      SubdomainChain(o', Rebased(o, z.origin), e);
    }
    forall d: Name | IsSubdomainOf(q, d) && Exists(z, d)
      ensures |d| <= |e|
    {
      if |d| > |z.origin| {
        var o :| Owns(z, o) && IsSubdomainOf(o, d);
        UnderIsItself(z, q, d, o);
      }
    }
  }

  /** A name of the zone below which there is an owner: that owner lies under the apex. */
  lemma {:induction false} UnderIsItself(z: ZoneData, q: Name, d: Name, o: Name)
    requires IsSubdomainOf(q, z.origin) && IsSubdomainOf(q, d) && |d| > |z.origin|
    requires Owns(z, o) && IsSubdomainOf(o, d)
    ensures Rebased(o, z.origin) == o && SeemsToExist(z, d)
  {
    SuffixOfSuffix(q, |d|, |z.origin|);
    SuffixOfSuffix(o, |d|, |z.origin|);
    assert Suffix(o, |z.origin|) == z.origin;
    assert o == o[..|o| - |z.origin|] + z.origin;
  }

  lemma {:induction false} SubdomainChain(a: Name, b: Name, c: Name)
    requires IsSubdomainOf(a, b) && IsSubdomainOf(b, c)
    ensures IsSubdomainOf(a, c)
  {
    SuffixOfSuffix(a, |b|, |c|);
  }

  /** It does in particular for a zone whose owners all lie under its apex. */
  lemma {:induction false} ScanFindsEncloser(z: ZoneData, q: Name, e: Name)
    requires OwnersUnder(z) && IsSubdomainOf(q, z.origin) && IsScanned(z, q, e)
    ensures IsClosestEncloser(z, q, e)
  {
    hide IsScanned, IsClosestEncloser, SeenRight;
    forall o | Owns(z, o)
      ensures SeenRight(z, o)
    {
      UnderSeenRight(z, o);
    }
    ScanIsExact(z);
  }

  lemma {:induction false} UnderSeenRight(z: ZoneData, o: Name)
    requires OwnersUnder(z) && Owns(z, o)
    ensures SeenRight(z, o)
  {
    assert IsSubdomainOf(o, z.origin);
    assert o == o[..|o| - |z.origin|] + z.origin;
    assert IsSubdomainOf(o, o);
  }

  /** There is only one closest encloser. */
  lemma {:induction false} EncloserIsUnique(z: ZoneData, q: Name, e: Name, e': Name)
    requires IsClosestEncloser(z, q, e) && IsClosestEncloser(z, q, e')
    ensures e == e'
  {
    assert e == Suffix(q, |e|) && e' == Suffix(q, |e'|);
  }

  lemma {:induction false} ParentSuffixes(q: Name, d: Name)
    requires q != [] && d != q
    ensures IsSubdomainOf(q, d) <==> IsSubdomainOf(Parent(q), d)
  {
    if |d| < |q| {
      assert Parent(q)[|q| - 1 - |d|..] == q[|q| - |d|..];
    } else if |d| == |q| {
      assert q[0..] == q;
    }
  }

  /** And there is one. */
  lemma {:induction false} HasEncloser(z: ZoneData, q: Name) returns (e: Name)
    requires IsSubdomainOf(q, z.origin)
    ensures IsClosestEncloser(z, q, e)
    decreases |q|
  {
    if q == z.origin || Exists(z, q) {
      assert q[0..] == q;
      return q;
    }
    hide Exists, IsSubdomainOf, Parent;
    assert q != [] by {
      OnlyRoot(q, z.origin);
    }
    ParentSuffixes(q, z.origin);
    e := HasEncloser(z, Parent(q));
    forall d: Name | IsSubdomainOf(q, d) && Exists(z, d)
      ensures |d| <= |e|
    {
      ParentSuffixes(q, d);
    }
    EncloserShorter(q, e);
  }

  lemma {:induction false} OnlyRoot(q: Name, d: Name)
    requires IsSubdomainOf(q, d)
    ensures q == [] ==> d == []
  {
  }

  lemma {:induction false} EncloserShorter(q: Name, e: Name)
    requires q != [] && IsSubdomainOf(Parent(q), e)
    ensures IsSubdomainOf(q, e)
  {
    ParentSuffixes(q, e);
  }

  lemma {:induction false} EncloserOfExisting(z: ZoneData, q: Name, e: Name)
    requires IsClosestEncloser(z, q, e)
    ensures Exists(z, q) ==> e == q
    ensures e == q && q != z.origin ==> Exists(z, q)
  {
    assert IsSubdomainOf(q, q);
    assert e == Suffix(q, |e|);
  }

  /** With an owner outside the zone it can go wrong: in the zone `b`, an owner
    * `a.c` makes the scan report `a.b`, which does not exist. */
  lemma {:induction false} StrayOwnerMisleads() returns (z: ZoneData, q: Name)
    ensures IsSubdomainOf(q, z.origin) && IsScanned(z, q, q) && !IsClosestEncloser(z, q, q)
  {
    var o, node: Node := ["a", "c"], map[TYPE_A := [OtherData("192.0.2.1")]];
    z := EmptyZone(["b"]).(records := map[o := node]);
    q := ["a", "b"];
    assert Owns(z, o) && Rebased(o, z.origin) == q;
    assert IsSubdomainOf(q, q);
    assert forall n :: Owns(z, n) ==> n == o;
    assert o[|o| - |q|..] != q;
  }

  // ---- Delegation ----

  /** A zone cut: NS records below the apex, at a name that is no apex itself. */
  predicate IsCut(z: ZoneData, n: Name) {
    n in z.records && TYPE_NS in z.records[n] && TYPE_SOA !in z.records[n]
  }

  /** The cut `n` stands between the apex and the answer to this question; a DS
    * record is the parent's to answer. */
  predicate CutsOff(z: ZoneData, n: Name, q: Name, qtype: RType) {
    IsSubdomainOf(q, n) && |n| > |z.origin| && IsCut(z, n) && !(qtype == TYPE_DS && n == q)
  }

  /** Of several cuts, one inside the other, the one furthest from the apex counts. */
  ghost predicate LowestCut(z: ZoneData, n: Name, q: Name, qtype: RType) {
    CutsOff(z, n, q, qtype) && forall m :: CutsOff(z, m, q, qtype) ==> |m| <= |n|
  }

  /** The NS and DS records at the cut, and addresses for name servers below it. */
  ghost predicate IsReferral(z: ZoneData, n: Name, r: Answer) {
    && r.rcode == NoError && !r.aa && r.answers == []
    && r.authority == RrsAt(z, n, n, TYPE_NS) + RrsAt(z, n, n, TYPE_DS)
    && r.additional == Glue(z, n, z.Rrset(n, TYPE_NS))
  }

  function RrsAt(z: ZoneData, owner: Name, shown: Name, t: RType): (rrs: seq<RR>)
    ensures |rrs| == |z.Rrset(owner, t)|
    ensures forall i :: 0 <= i < |rrs| ==> rrs[i] == RR(shown, t, CLASS_IN, z.TtlOf(owner, t), z.Rrset(owner, t)[i])
  {
    seq(|z.Rrset(owner, t)|, i requires 0 <= i < |z.Rrset(owner, t)| =>
      RR(shown, t, CLASS_IN, z.TtlOf(owner, t), z.Rrset(owner, t)[i]))
  }

  /** The addresses of one name server, if it lies below the cut. */
  function GlueOf(z: ZoneData, cut: Name, server: Rdata): seq<RR> {
    match server
    case NameData(_, target) =>
      if IsSubdomainOf(target, cut) then RrsAt(z, target, target, TYPE_A) + RrsAt(z, target, target, TYPE_AAAA) else []
    case _ => []
  }

  function Glue(z: ZoneData, cut: Name, servers: seq<Rdata>): seq<RR> {
    if servers == [] then [] else GlueOf(z, cut, servers[0]) + Glue(z, cut, servers[1..])
  }

  /** Glue is addresses of in-bailiwick name servers of the cut, as the zone holds them. */
  lemma {:induction false} GlueIsGlue(z: ZoneData, cut: Name, servers: seq<Rdata>)
    ensures forall rr :: rr in Glue(z, cut, servers) <==>
              exists s :: s in servers && s.NameData? && IsSubdomainOf(s.target, cut)
                          && (rr in RrsAt(z, s.target, s.target, TYPE_A) || rr in RrsAt(z, s.target, s.target, TYPE_AAAA))
  {
    if servers != [] {
      GlueIsGlue(z, cut, servers[1..]);
      assert servers == [servers[0]] + servers[1..];
    }
  }

  /** `_delegation`: from the name asked for upwards. */
  method Delegation(z: ZoneData, qname: Name, qtype: RType) returns (r: Option<Answer>, ghost cut: Name)
    requires IsSubdomainOf(qname, z.origin)
    ensures r.Some? <==> exists n :: CutsOff(z, n, qname, qtype)
    ensures r.Some? ==> LowestCut(z, cut, qname, qtype) && IsReferral(z, cut, r.value)
  {
    hide IsReferral, IsCut;
    var n := qname;
    cut := qname;
    while |n| > |z.origin|
      invariant IsSubdomainOf(qname, n) && |n| >= |z.origin|
      invariant forall m :: CutsOff(z, m, qname, qtype) ==> |m| <= |n|
    {
      if !(qtype == TYPE_DS && n == qname) && IsCut(z, n) {
        var referral := Referral(z, n);
        cut := n;
        assert CutsOff(z, cut, qname, qtype);
        return Some(referral), cut;
      }
      assert forall m :: IsSubdomainOf(qname, m) && |m| == |n| ==> m == n;
      n := Parent(n);
    }
    return None, cut;
  }

  method Referral(z: ZoneData, n: Name) returns (r: Answer)
    requires IsCut(z, n)
    ensures IsReferral(z, n, r)
  {
    var extra := GlueRecords(z, n, z.records[n][TYPE_NS]);
    var ns := RrsAt(z, n, n, TYPE_NS);
    if TYPE_DS in z.records[n] && z.records[n][TYPE_DS] != [] {
      ns := ns + RrsAt(z, n, n, TYPE_DS);
    } else {
      assert RrsAt(z, n, n, TYPE_DS) == [];
      assert ns == ns + [];
    }
    return Answer(NoError, false, [], ns, extra);
  }

  method GlueRecords(z: ZoneData, cut: Name, servers: seq<Rdata>) returns (extra: seq<RR>)
    ensures extra == Glue(z, cut, servers)
  {
    extra := [];
    for i := 0 to |servers|
      invariant Glue(z, cut, servers) == extra + Glue(z, cut, servers[i..])
    {
      ghost var was := extra;
      match servers[i] {
        case NameData(_, target) =>
          if IsSubdomainOf(target, cut) {
            extra := extra + (RrsAt(z, target, target, TYPE_A) + RrsAt(z, target, target, TYPE_AAAA));
          }
        case _ =>
      }
      assert extra == was + GlueOf(z, cut, servers[i]);
      hide GlueOf, RrsAt;
      assert servers[i..][1..] == servers[i + 1..];
      GlueStep(z, cut, servers[i..], was);
    }
  }

  lemma {:induction false} GlueStep(z: ZoneData, cut: Name, servers: seq<Rdata>, was: seq<RR>)
    requires servers != []
    ensures was + Glue(z, cut, servers) == (was + GlueOf(z, cut, servers[0])) + Glue(z, cut, servers[1..])
  {
    hide GlueOf;
  }

  // ---- Answers ----

  /** CNAME records hold a name. */
  ghost predicate CnamesTyped(z: ZoneData) {
    forall n: Name, rd :: rd in z.Rrset(n, TYPE_CNAME) ==> rd.NameData?
  }

  predicate IsAlias(z: ZoneData, n: Name) {
    z.Rrset(n, TYPE_CNAME) != [] && z.Rrset(n, TYPE_CNAME)[0].NameData?
  }

  function Target(z: ZoneData, n: Name): Name
    requires IsAlias(z, n)
  {
    z.Rrset(n, TYPE_CNAME)[0].target
  }

  /** `path` follows the aliases from its first name; it stays inside the zone,
    * visits no name twice and meets no record of type `t` on the way. */
  ghost predicate AliasPath(z: ZoneData, path: seq<Name>, t: RType) {
    && path != []
    && (forall i :: 0 <= i < |path| - 1 ==> IsAlias(z, path[i]) && path[i + 1] == Target(z, path[i]))
    && (forall i, j :: 0 <= i < j < |path| ==> path[i] != path[j])
    && (forall i :: 0 < i < |path| ==> IsSubdomainOf(path[i], z.origin))
    && (forall i :: 0 < i < |path| - 1 ==> z.Rrset(path[i], t) == [])
  }

  function AliasRecord(z: ZoneData, n: Name, shown: Name): RR
    requires IsAlias(z, n)
  {
    RR(shown, TYPE_CNAME, CLASS_IN, z.TtlOf(n, TYPE_CNAME), z.Rrset(n, TYPE_CNAME)[0])
  }

  ghost predicate AllAliases(z: ZoneData, path: seq<Name>) {
    forall i :: 0 <= i < |path| ==> IsAlias(z, path[i])
  }

  /** The CNAME records along a path; the first is shown at `shown`. */
  ghost function AliasRecords(z: ZoneData, path: seq<Name>, shown: Name): (rrs: seq<RR>)
    requires AllAliases(z, path)
    ensures |rrs| == |path|
    ensures forall i :: 0 <= i < |path| ==> rrs[i] == AliasRecord(z, path[i], if i == 0 then shown else path[i])
  {
    seq(|path|, i requires 0 <= i < |path| => AliasRecord(z, path[i], if i == 0 then shown else path[i]))
  }

  /** The chain ends after `path`: the next name is a repetition, outside the
    * zone or unknown, or holds neither an alias nor the type; or it is too long. */
  ghost predicate Stuck(z: ZoneData, path: seq<Name>, t: RType)
    requires path != [] && IsAlias(z, path[|path| - 1])
  {
    var next := Target(z, path[|path| - 1]);
    || |path| == MAX_CNAME_CHAIN || next in path || !IsSubdomainOf(next, z.origin)
    || (z.Rrset(next, t) == [] && !IsAlias(z, next))
  }

  /** What a chain owes: the aliases of a maximal path of at most 16, and the
    * RRset of the type asked for if the last of them leads to it. */
  ghost predicate IsChain(z: ZoneData, owner: Name, shown: Name, t: RType, answers: seq<RR>, path: seq<Name>) {
    && AliasPath(z, path, t) && path[0] == owner && |path| <= MAX_CNAME_CHAIN
    && AllAliases(z, path) && (forall i :: 0 < i < |path| ==> z.Rrset(path[i], t) == [])
    && var next := Target(z, path[|path| - 1]);
       if next !in path && IsSubdomainOf(next, z.origin) && z.Rrset(next, t) != [] then
         answers == AliasRecords(z, path, shown) + RrsAt(z, next, next, t)
       else
         answers == AliasRecords(z, path, shown) && Stuck(z, path, t)
  }

  /** `path` has been followed and `cur` is next. */
  ghost predicate ChaseSoFar(z: ZoneData, owner: Name, t: RType, path: seq<Name>, cur: Name) {
    && AllAliases(z, path) && AliasPath(z, path + [cur], t) && (path + [cur])[0] == owner
    && (path != [] ==> z.Rrset(cur, t) == [])
  }

  lemma {:induction false} ChaseGoesOn(z: ZoneData, owner: Name, t: RType, path: seq<Name>, cur: Name)
    requires ChaseSoFar(z, owner, t, path, cur) && IsAlias(z, cur)
    ensures AllAliases(z, path + [cur])
    ensures var next := Target(z, cur);
            next !in path + [cur] && IsSubdomainOf(next, z.origin) && z.Rrset(next, t) == [] ==>
              ChaseSoFar(z, owner, t, path + [cur], next)
  {
  }

  lemma {:induction false} ChaseStops(z: ZoneData, owner: Name, shown: Name, t: RType, path: seq<Name>, cur: Name)
    requires ChaseSoFar(z, owner, t, path, cur) && path != [] && |path| <= MAX_CNAME_CHAIN
    requires |path| == MAX_CNAME_CHAIN || !IsAlias(z, cur)
    ensures IsChain(z, owner, shown, t, AliasRecords(z, path, shown), path)
  {
    var whole := path + [cur];
    assert forall i :: 0 <= i < |path| ==> path[i] == whole[i];
    assert Target(z, path[|path| - 1]) == whole[|path|] == cur;
  }

  lemma {:induction false} ChaseEnds(z: ZoneData, owner: Name, shown: Name, t: RType, path: seq<Name>, cur: Name)
    requires ChaseSoFar(z, owner, t, path, cur) && IsAlias(z, cur) && |path| < MAX_CNAME_CHAIN
    ensures AllAliases(z, path + [cur])
    ensures var next := Target(z, cur);
            var aliases := AliasRecords(z, path + [cur], shown);
            if next in path + [cur] || !IsSubdomainOf(next, z.origin)
            then IsChain(z, owner, shown, t, aliases, path + [cur])
            else z.Rrset(next, t) != [] ==> IsChain(z, owner, shown, t, aliases + RrsAt(z, next, next, t), path + [cur])
  {
    var whole := path + [cur];
    assert whole[|whole| - 1] == cur;
  }

  /** The chase of `_answer_at`. */
  method Chase(z: ZoneData, owner: Name, shown: Name, t: RType) returns (ans: seq<RR>)
    requires z.WellFormed() && CnamesTyped(z) && IsAlias(z, owner)
    ensures exists path :: IsChain(z, owner, shown, t, ans, path)
  {
    hide IsChain, ChaseSoFar, AliasPath;
    var seen: set<Name> := {};
    var cur, curShown := owner, shown;
    ans := [];
    ghost var path := [];
    ChaseStarts(z, owner, t);
    while IsAlias(z, cur) && |ans| < MAX_CNAME_CHAIN
      invariant |path| <= MAX_CNAME_CHAIN && seen == (set n | n in path)
      invariant AllAliases(z, path) && ans == AliasRecords(z, path, shown)
      invariant ChaseSoFar(z, owner, t, path, cur) && (path == [] ==> cur == owner)
      invariant curShown == if path == [] then shown else cur
      decreases MAX_CNAME_CHAIN - |ans|
    {
      NotSeenYet(z, owner, t, path, cur);
      if cur in seen {
        break;
      }
      ChaseEnds(z, owner, shown, t, path, cur);
      ChaseGoesOn(z, owner, t, path, cur);
      var rd := z.records[cur][TYPE_CNAME][0];
      ans := ans + [RR(curShown, TYPE_CNAME, CLASS_IN, z.TtlOf(cur, TYPE_CNAME), rd)];
      seen := seen + {cur};
      path := path + [cur];
      assert ans == AliasRecords(z, path, shown);
      var target := rd.target;
      if target in seen || !IsSubdomainOf(target, z.origin) {
        return;
      }
      if target !in z.records {
        ChaseStops(z, owner, shown, t, path, target);
        return;
      }
      if t in z.records[target] {
        ans := ans + RrsAt(z, target, target, t);
        return;
      }
      cur, curShown := target, target;
    }
    ChaseStops(z, owner, shown, t, path, cur);
  }

  lemma {:induction false} ChaseStarts(z: ZoneData, owner: Name, t: RType)
    ensures ChaseSoFar(z, owner, t, [], owner)
  {
    assert [] + [owner] == [owner];
  }

  lemma {:induction false} NotSeenYet(z: ZoneData, owner: Name, t: RType, path: seq<Name>, cur: Name)
    requires ChaseSoFar(z, owner, t, path, cur)
    ensures cur !in path
  {
    var whole := path + [cur];
    forall i | 0 <= i < |path|
      ensures path[i] != cur
    {
      assert whole[i] != whole[|path|];
    }
  }

  /** The answers of a chain are determined by the zone. */
  lemma {:induction false} ChainIsUnique(z: ZoneData, owner: Name, shown: Name, t: RType,
                                         a: seq<RR>, p: seq<Name>, b: seq<RR>, q: seq<Name>)
    requires IsChain(z, owner, shown, t, a, p) && IsChain(z, owner, shown, t, b, q)
    ensures a == b
  {
    SamePath(z, owner, shown, t, a, p, b, q, 0);
    NotLonger(z, owner, shown, t, a, p, b, q);
    NotLonger(z, owner, shown, t, b, q, a, p);
    assert p == q;
  }

  lemma {:induction false} SamePath(z: ZoneData, owner: Name, shown: Name, t: RType,
                                    a: seq<RR>, p: seq<Name>, b: seq<RR>, q: seq<Name>, k: nat)
    requires IsChain(z, owner, shown, t, a, p) && IsChain(z, owner, shown, t, b, q)
    requires forall i :: 0 <= i <= k && i < |p| && i < |q| ==> p[i] == q[i]
    ensures forall i :: 0 <= i < |p| && i < |q| ==> p[i] == q[i]
    decreases |p| - k
  {
    if k + 1 < |p| && k + 1 < |q| {
      assert p[k + 1] == Target(z, p[k]) && q[k + 1] == Target(z, q[k]);
      SamePath(z, owner, shown, t, a, p, b, q, k + 1);
    }
  }

  lemma {:induction false} NotLonger(z: ZoneData, owner: Name, shown: Name, t: RType,
                                     a: seq<RR>, p: seq<Name>, b: seq<RR>, q: seq<Name>)
    requires IsChain(z, owner, shown, t, a, p) && IsChain(z, owner, shown, t, b, q)
    requires forall i :: 0 <= i < |p| && i < |q| ==> p[i] == q[i]
    ensures |q| <= |p|
  {
    if |p| < |q| {
      PrefixGoesOn(z, owner, shown, t, p, b, q);
    }
  }

  /** A proper prefix of a chain's path is not stuck. */
  lemma {:induction false} PrefixGoesOn(z: ZoneData, owner: Name, shown: Name, t: RType,
                                        p: seq<Name>, b: seq<RR>, q: seq<Name>)
    requires IsChain(z, owner, shown, t, b, q) && 0 < |p| < |q| && p == q[..|p|]
    ensures IsAlias(z, p[|p| - 1]) && !Stuck(z, p, t)
    ensures z.Rrset(Target(z, p[|p| - 1]), t) == []
  {
    var next := q[|p|];
    assert next == Target(z, q[|p| - 1]) == Target(z, p[|p| - 1]);
    assert next !in p;
  }

  /** The SOA of a negative answer; its TTL is capped by the SOA's MINIMUM. */
  function NegativeSoa(z: ZoneData): seq<RR> {
    match z.Soa()
    case None => []
    case Some(soa) =>
      var ttl := z.TtlOf(z.origin, TYPE_SOA);
      [RR(z.origin, TYPE_SOA, CLASS_IN, if soa.SoaData? && soa.minimum < ttl then soa.minimum else ttl, soa)]
  }

  ghost predicate IsNegative(z: ZoneData, rcode: Rcode, r: Answer) {
    r == Answer(rcode, true, [], NegativeSoa(z), [])
  }

  /** The answer from the records at `owner`, shown as owned by `shown`. */
  ghost predicate IsAnswerAt(z: ZoneData, owner: Name, shown: Name, t: RType, r: Answer) {
    && r.rcode == NoError && r.aa && r.additional == []
    && if t != TYPE_CNAME && z.Rrset(owner, TYPE_CNAME) != [] then
         r.authority == [] && exists path :: IsChain(z, owner, shown, t, r.answers, path)
       else if z.Rrset(owner, t) != [] then r.authority == [] && r.answers == RrsAt(z, owner, shown, t)
       else IsNegative(z, NoError, r)
  }

  /** `_answer_at`. */
  method AnswerAt(z: ZoneData, owner: Name, shown: Name, t: RType) returns (r: Answer)
    requires z.WellFormed() && CnamesTyped(z) && owner in z.records
    ensures IsAnswerAt(z, owner, shown, t, r)
  {
    if t != TYPE_CNAME && TYPE_CNAME in z.records[owner] {
      assert z.Rrset(owner, TYPE_CNAME)[0] in z.Rrset(owner, TYPE_CNAME);
      var ans := Chase(z, owner, shown, t);
      return Answer(NoError, true, ans, [], []);
    }
    if t in z.records[owner] {
      return Answer(NoError, true, RrsAt(z, owner, shown, t), [], []);
    }
    return Answer(NoError, true, [], NegativeSoa(z), []);
  }

  function Star(e: Name): Name {
    ["*"] + e
  }

  /** What a lookup owes: a referral exactly when a cut stands before the name asked
    * for, NXDOMAIN exactly when neither it nor a wildcard exists, and otherwise
    * the answer from its own records or from the wildcard's. */
  ghost predicate IsLookup(z: ZoneData, qname: Name, qtype: RType, r: Answer, encloser: Name) {
    && IsClosestEncloser(z, qname, encloser)
    && (!r.aa <==> exists n :: CutsOff(z, n, qname, qtype))
    && (!r.aa ==> exists n :: LowestCut(z, n, qname, qtype) && IsReferral(z, n, r))
    && (r.rcode == NxDomain <==> r.aa && qname != z.origin && !Exists(z, qname) && Star(encloser) !in z.records)
    && (r.aa && Owns(z, qname) ==> IsAnswerAt(z, qname, qname, qtype, r))
    && (r.aa && !Owns(z, qname) && encloser == qname ==> IsNegative(z, NoError, r))
    && (r.aa && encloser != qname && Star(encloser) in z.records ==> IsAnswerAt(z, Star(encloser), qname, qtype, r))
    && (r.rcode == NxDomain ==> IsNegative(z, NxDomain, r))
  }

  lemma {:induction false} ReferralIsLookup(z: ZoneData, q: Name, t: RType, r: Answer, cut: Name)
    requires IsSubdomainOf(q, z.origin) && LowestCut(z, cut, q, t) && IsReferral(z, cut, r)
    ensures exists e :: IsLookup(z, q, t, r, e)
  {
    hide IsClosestEncloser, IsCut, CutsOff;
    var e := HasEncloser(z, q);
    assert IsLookup(z, q, t, r, e);
  }

  lemma {:induction false} OwnIsLookup(z: ZoneData, q: Name, t: RType, r: Answer)
    requires IsSubdomainOf(q, z.origin) && !(exists n :: CutsOff(z, n, q, t))
    requires Owns(z, q) && IsAnswerAt(z, q, q, t, r)
    ensures exists e :: IsLookup(z, q, t, r, e)
  {
    hide IsClosestEncloser, IsCut, CutsOff, Owns;
    var e := HasEncloser(z, q);
    EncloserOfExisting(z, q, e);
    assert IsSubdomainOf(q, q);
    assert Exists(z, q);
    assert IsLookup(z, q, t, r, e);
  }

  lemma {:induction false} EmptyIsLookup(z: ZoneData, q: Name, t: RType, r: Answer)
    requires !(exists n :: CutsOff(z, n, q, t)) && IsClosestEncloser(z, q, q)
    requires !Owns(z, q) && IsNegative(z, NoError, r)
    ensures IsLookup(z, q, t, r, q)
  {
    hide IsClosestEncloser, IsCut, CutsOff, Owns, Exists;
    EncloserOfExisting(z, q, q);
  }

  lemma {:induction false} WildIsLookup(z: ZoneData, q: Name, t: RType, r: Answer, e: Name)
    requires !(exists n :: CutsOff(z, n, q, t)) && IsClosestEncloser(z, q, e) && e != q
    requires !Owns(z, q) && Star(e) in z.records && IsAnswerAt(z, Star(e), q, t, r)
    ensures IsLookup(z, q, t, r, e)
  {
    hide IsClosestEncloser, IsCut, CutsOff, Owns, Exists, IsChain;
  }

  lemma {:induction false} NoneIsLookup(z: ZoneData, q: Name, t: RType, r: Answer, e: Name)
    requires !(exists n :: CutsOff(z, n, q, t)) && IsClosestEncloser(z, q, e) && e != q
    requires !Owns(z, q) && Star(e) !in z.records && IsNegative(z, NxDomain, r)
    ensures IsLookup(z, q, t, r, e)
  {
    hide IsCut, CutsOff, Owns, Exists;
    EncloserOfExisting(z, q, e);
    ApexEnclosesItself(z, e);
  }

  lemma {:induction false} ApexEnclosesItself(z: ZoneData, e: Name)
    ensures IsClosestEncloser(z, z.origin, e) ==> e == z.origin
  {
  }

  /** `lookup`, without DNSSEC. */
  method Lookup(z: ZoneData, items: seq<Name>, qname: Name, qtype: RType) returns (r: Answer)
    requires z.WellFormed() && CnamesTyped(z) && OwnersUnder(z)
    requires Lists(items, z.records.Keys) && IsSubdomainOf(qname, z.origin)
    ensures exists encloser :: IsLookup(z, qname, qtype, r, encloser)
  {
    hide IsLookup, IsAnswerAt, IsReferral, IsScanned, IsClosestEncloser, CutsOff, Exists, CnamesTyped;
    var cut, at := Delegation(z, qname, qtype);
    if cut.Some? {
      ReferralIsLookup(z, qname, qtype, cut.value, at);
      return cut.value;
    }
    if Owns(z, qname) {
      r := AnswerAt(z, qname, qname, qtype);
      OwnIsLookup(z, qname, qtype, r);
      return;
    }
    var encloser := ClosestEncloser(z, items, qname);
    ScanFindsEncloser(z, qname, encloser);
    if encloser == qname {
      r := Answer(NoError, true, [], NegativeSoa(z), []);
      EmptyIsLookup(z, qname, qtype, r);
      return;
    }
    if Star(encloser) in z.records {
      r := AnswerAt(z, Star(encloser), qname, qtype);
      WildIsLookup(z, qname, qtype, r, encloser);
      return;
    }
    r := Answer(NxDomain, true, [], NegativeSoa(z), []);
    NoneIsLookup(z, qname, qtype, r, encloser);
  }

  /** A negative answer holds the zone's SOA, for the lesser of that record's TTL and its
    * MINIMUM field (RFC 2308 section 3). */
  lemma {:induction false} NegativeTtl(z: ZoneData, q: Name, t: RType, r: Answer, encloser: Name, soa: Rdata)
    requires IsLookup(z, q, t, r, encloser) && r.aa && r.answers == []
    requires z.Soa() == Some(soa) && soa.SoaData?
    ensures |r.authority| == 1 && r.additional == [] && (r.rcode == NoError || r.rcode == NxDomain)
    ensures var rr := r.authority[0];
            && rr.name == z.origin && rr.rtype == TYPE_SOA && rr.rclass == CLASS_IN && rr.rdata == soa
            && rr.ttl <= z.TtlOf(z.origin, TYPE_SOA) && rr.ttl <= soa.minimum
            && (rr.ttl == z.TtlOf(z.origin, TYPE_SOA) || rr.ttl == soa.minimum)
  {
    hide IsReferral, CutsOff, Exists;
    LookupAnswers(z, q, t, r, encloser);
    var source := Source(z, q, encloser);
    if source.Some? {
      AnswerIsThere(z, source.value, q, t, r);
    } else {
      EncloserOfExisting(z, q, encloser);
      ApexEnclosesItself(z, encloser);
    }
  }

  // ---- Aliases into a delegated subtree ----

  /** At a zone cut or below one. */
  ghost predicate UnderCut(z: ZoneData, n: Name) {
    exists c: Name :: IsSubdomainOf(n, c) && |c| > |z.origin| && IsCut(z, c)
  }

  /** The names whose records a chase from `cur` hands out, after those in `seen`. */
  function Walk(z: ZoneData, seen: seq<Name>, cur: Name, t: RType): (names: seq<Name>)
    requires IsAlias(z, cur)
    ensures seen + [cur] <= names
    decreases MAX_CNAME_CHAIN - |seen|
  {
    var path, next := seen + [cur], Target(z, cur);
    if next in path || !IsSubdomainOf(next, z.origin) then path
    else if z.Rrset(next, t) != [] then path + [next]
    else if !IsAlias(z, next) || |path| >= MAX_CNAME_CHAIN then path
    else Walk(z, path, next, t)
  }

  /** The names that an answer from `owner` takes records from, after `owner` itself. */
  function LedTo(z: ZoneData, owner: Name, t: RType): seq<Name> {
    if t != TYPE_CNAME && IsAlias(z, owner) then Walk(z, [], owner, t)[1..] else []
  }

  /** The path of a chain and, if it leads to the type asked for, where. */
  ghost function Reached(z: ZoneData, path: seq<Name>, t: RType): seq<Name>
    requires path != [] && IsAlias(z, path[|path| - 1])
  {
    var next := Target(z, path[|path| - 1]);
    if next !in path && IsSubdomainOf(next, z.origin) && z.Rrset(next, t) != [] then path + [next] else path
  }

  lemma {:induction false} WalkEnds(z: ZoneData, owner: Name, shown: Name, t: RType, ans: seq<RR>, path: seq<Name>)
    requires IsChain(z, owner, shown, t, ans, path)
    ensures var last := |path| - 1; Walk(z, path[..last], path[last], t) == Reached(z, path, t)
  {
    hide AliasPath, AliasRecords;
    assert path != [] by {
      PathStarts(z, path, t);
    }
    assert path[..|path| - 1] + [path[|path| - 1]] == path;
  }

  lemma {:induction false} PathStarts(z: ZoneData, path: seq<Name>, t: RType)
    requires AliasPath(z, path, t)
    ensures path != []
  {
  }

  lemma {:induction false} WalkGoesOn(z: ZoneData, owner: Name, shown: Name, t: RType, ans: seq<RR>, path: seq<Name>, k: nat)
    requires IsChain(z, owner, shown, t, ans, path) && k + 1 < |path|
    ensures Walk(z, path[..k], path[k], t) == Walk(z, path[..k + 1], path[k + 1], t)
  {
    hide Stuck, AliasRecords;
    assert path[..k] + [path[k]] == path[..k + 1];
    assert path[k + 1] == Target(z, path[k]);
    assert path[k + 1] !in path[..k + 1];
  }

  lemma {:induction false} WalkFollows(z: ZoneData, owner: Name, shown: Name, t: RType, ans: seq<RR>, path: seq<Name>, k: nat)
    requires IsChain(z, owner, shown, t, ans, path) && k < |path|
    ensures Walk(z, path[..k], path[k], t) == Reached(z, path, t)
    decreases |path| - k
  {
    hide Stuck, AliasRecords, AliasPath, Walk, Reached;
    if k + 1 < |path| {
      WalkGoesOn(z, owner, shown, t, ans, path, k);
      WalkFollows(z, owner, shown, t, ans, path, k + 1);
    } else {
      WalkEnds(z, owner, shown, t, ans, path);
    }
  }

  /** The first record is owned by `shown`, each later one by the name reached next,
    * and the whole last RRset by the last. */
  ghost predicate OwnedInTurn(ans: seq<RR>, names: seq<Name>, shown: Name) {
    && 0 < |names| <= |ans| && (|names| == 1 ==> |ans| == 1)
    && ans[0].name == shown
    && (forall i :: 0 < i < |names| ==> ans[i].name == names[i])
    && (forall i :: |names| <= i < |ans| ==> ans[i].name == names[|names| - 1])
  }

  lemma {:induction false} ChainInTurn(z: ZoneData, owner: Name, shown: Name, t: RType, ans: seq<RR>, path: seq<Name>)
    requires IsChain(z, owner, shown, t, ans, path)
    ensures Reached(z, path, t) != [] && OwnedInTurn(ans, Reached(z, path, t), shown)
  {
    hide Stuck, AliasPath, AliasRecord, Target;
    assert path != [] by {
      PathStarts(z, path, t);
    }
    var aliases := AliasRecords(z, path, shown);
    assert forall i :: 0 <= i < |path| ==> ans[i] == aliases[i];
    assert forall i :: 0 <= i < |path| ==> aliases[i].name == if i == 0 then shown else path[i] by {
      AliasNames(z, path, shown);
    }
  }

  lemma {:induction false} AliasNames(z: ZoneData, path: seq<Name>, shown: Name)
    requires AllAliases(z, path)
    ensures forall i :: 0 <= i < |path| ==> AliasRecords(z, path, shown)[i].name == if i == 0 then shown else path[i]
  {
  }

  lemma {:induction false} TurnOwners(ans: seq<RR>, names: seq<Name>, shown: Name, n: Name)
    requires OwnedInTurn(ans, names, shown)
    ensures (exists rr :: rr in ans && rr.name == n) <==> n == shown || n in names[1..]
  {
    if rr :| rr in ans && rr.name == n {
      var i :| 0 <= i < |ans| && ans[i] == rr;
      if i > 0 {
        assert n == names[1..][if i < |names| then i - 1 else |names| - 2];
      }
    }
    if n == shown {
      assert ans[0] in ans;
    }
    if n in names[1..] {
      var i :| 0 <= i < |names[1..]| && names[1..][i] == n;
      assert ans[i + 1] in ans;
    }
  }

  lemma {:induction false} ChainOwners(z: ZoneData, owner: Name, shown: Name, t: RType, ans: seq<RR>, path: seq<Name>)
    requires IsChain(z, owner, shown, t, ans, path)
    ensures forall n :: (exists rr :: rr in ans && rr.name == n) <==> n == shown || n in Reached(z, path, t)[1..]
  {
    hide OwnedInTurn, Stuck, Reached;
    ChainInTurn(z, owner, shown, t, ans, path);
    forall n
      ensures (exists rr :: rr in ans && rr.name == n) <==> n == shown || n in Reached(z, path, t)[1..]
    {
      TurnOwners(ans, Reached(z, path, t), shown, n);
    }
  }

  /** Every record of an answer is owned by the name asked for or by one that its
    * aliases lead to, and each of these owns one. */
  lemma {:induction false} AnswerOwners(z: ZoneData, owner: Name, shown: Name, t: RType, r: Answer)
    requires CnamesTyped(z) && IsAnswerAt(z, owner, shown, t, r) && r.answers != []
    ensures forall n :: (exists rr :: rr in r.answers && rr.name == n) <==> n == shown || n in LedTo(z, owner, t)
  {
    hide IsChain, Walk;
    if t != TYPE_CNAME && z.Rrset(owner, TYPE_CNAME) != [] {
      assert z.Rrset(owner, TYPE_CNAME)[0] in z.Rrset(owner, TYPE_CNAME);
      var path :| IsChain(z, owner, shown, t, r.answers, path);
      ChainWalks(z, owner, shown, t, r.answers, path);
      ChainOwners(z, owner, shown, t, r.answers, path);
      assert LedTo(z, owner, t) == Reached(z, path, t)[1..];
    } else {
      assert LedTo(z, owner, t) == [];
      assert r.answers == RrsAt(z, owner, shown, t);
      assert r.answers[0] in r.answers;
    }
  }

  lemma {:induction false} ChainWalks(z: ZoneData, owner: Name, shown: Name, t: RType, ans: seq<RR>, path: seq<Name>)
    requires IsChain(z, owner, shown, t, ans, path) && IsAlias(z, owner)
    ensures path != [] && IsAlias(z, path[|path| - 1]) && Walk(z, [], owner, t) == Reached(z, path, t)
  {
    WalkFollows(z, owner, shown, t, ans, path, 0);
    assert path[..0] == [];
  }

  /** The name whose records answer for `qname`: itself, the wildcard below its closest
    * encloser, or none. */
  function Source(z: ZoneData, qname: Name, encloser: Name): Option<Name> {
    if Owns(z, qname) then Some(qname)
    else if encloser != qname && Star(encloser) in z.records then Some(Star(encloser))
    else None
  }

  /** It holds the type asked for, or an alias. */
  predicate HasAnswer(z: ZoneData, source: Option<Name>, t: RType) {
    source.Some? && (z.Rrset(source.value, t) != [] || (t != TYPE_CNAME && z.Rrset(source.value, TYPE_CNAME) != []))
  }

  lemma {:induction false} AnswerIsThere(z: ZoneData, owner: Name, shown: Name, t: RType, r: Answer)
    requires IsAnswerAt(z, owner, shown, t, r)
    ensures r.answers != [] <==> HasAnswer(z, Some(owner), t)
  {
    hide IsChain;
    if t != TYPE_CNAME && z.Rrset(owner, TYPE_CNAME) != [] {
      var path :| IsChain(z, owner, shown, t, r.answers, path);
      ChainStarts(z, owner, shown, t, r.answers, path);
    }
  }

  lemma {:induction false} ChainStarts(z: ZoneData, owner: Name, shown: Name, t: RType, ans: seq<RR>, path: seq<Name>)
    requires IsChain(z, owner, shown, t, ans, path)
    ensures ans != []
  {
  }

  lemma {:induction false} LookupAnswers(z: ZoneData, qname: Name, qtype: RType, r: Answer, encloser: Name)
    requires IsLookup(z, qname, qtype, r, encloser) && r.aa
    ensures var source := Source(z, qname, encloser);
            if source.Some? then IsAnswerAt(z, source.value, qname, qtype, r) else r.answers == []
  {
    hide IsAnswerAt, IsReferral, CutsOff, Owns, Exists;
    EncloserOfExisting(z, qname, encloser);
    ApexEnclosesItself(z, encloser);
  }

  /** An authoritative answer holds a record owned under a cut if and only if there is
    * an answer, and the name asked for is at a cut, which only a DS question can be,
    * or its aliases lead under one. */
  lemma {:induction false} GlueInAnswerExactly(z: ZoneData, qname: Name, qtype: RType, r: Answer, encloser: Name)
    requires CnamesTyped(z) && IsLookup(z, qname, qtype, r, encloser) && r.aa
    ensures var source := Source(z, qname, encloser);
            (exists rr :: rr in r.answers && UnderCut(z, rr.name)) <==>
            HasAnswer(z, source, qtype)
            && (UnderCut(z, qname) || exists n :: n in LedTo(z, source.value, qtype) && UnderCut(z, n))
    ensures UnderCut(z, qname) ==> qtype == TYPE_DS && IsCut(z, qname)
  {
    var source := Source(z, qname, encloser);
    LookupAnswers(z, qname, qtype, r, encloser);
    assert !exists n :: CutsOff(z, n, qname, qtype);
    hide UnderCut, IsAnswerAt, LedTo, CnamesTyped, IsLookup, Source, CutsOff;
    OnlyDsAtCut(z, qname, qtype);
    if source.Some? {
      var led := LedTo(z, source.value, qtype);
      AnswerIsThere(z, source.value, qname, qtype, r);
      if r.answers != [] {
        AnswerOwners(z, source.value, qname, qtype, r);
        if rr :| rr in r.answers && UnderCut(z, rr.name) {
          assert rr.name == qname || rr.name in led;
        }
        assert qname in led || qname !in led;
      }
    }
  }

  lemma {:induction false} OnlyDsAtCut(z: ZoneData, q: Name, t: RType)
    requires !exists n :: CutsOff(z, n, q, t)
    ensures UnderCut(z, q) ==> t == TYPE_DS && IsCut(z, q)
  {
    if UnderCut(z, q) {
      var c: Name :| IsSubdomainOf(q, c) && |c| > |z.origin| && IsCut(z, c);
      assert !CutsOff(z, c, q, t);
    }
  }

  /** Whenever the one alias asked for leads under a cut to records of the type, an
    * authoritative answer hands these out. */
  lemma {:induction false} AliasUnderCut(z: ZoneData, q: Name, t: RType, r: Answer, encloser: Name)
    requires CnamesTyped(z) && IsLookup(z, q, t, r, encloser)
    requires t != TYPE_CNAME && Owns(z, q) && IsAlias(z, q) && !UnderCut(z, q)
    requires var n := Target(z, q); n != q && IsSubdomainOf(n, z.origin) && UnderCut(z, n) && z.Rrset(n, t) != []
    ensures r.aa && exists rr :: rr in r.answers && rr.name == Target(z, q) && UnderCut(z, rr.name)
  {
    hide IsReferral, IsChain, Exists, IsClosestEncloser;
    var n := Target(z, q);
    assert forall c :: CutsOff(z, c, q, t) ==> UnderCut(z, q);
    assert IsAnswerAt(z, q, q, t, r);
    assert r.answers != [] by {
      var path :| IsChain(z, q, q, t, r.answers, path);
      ChainStarts(z, q, q, t, r.answers, path);
    }
    AnswerOwners(z, q, q, t, r);
    assert [] + [q] == [q] && LedTo(z, q, t) == [n];
    assert n in LedTo(z, q, t);
  }

  function Chained(): ZoneData {
    EmptyZone([]).(records := map[["a"] := map[TYPE_CNAME := [NameData("t.c.", ["t", "c"])]],
                                  ["c"] := map[TYPE_NS := [NameData("t.c.", ["t", "c"])]],
                                  ["t", "c"] := map[TYPE_A := [OtherData("192.0.2.1")]]])
  }

  lemma {:induction false} ChainedStore()
    ensures var z := Chained();
            && z.WellFormed() && CnamesTyped(z) && OwnersUnder(z) && z.origin == []
            && Lists([["a"], ["c"], ["t", "c"]], z.records.Keys)
  {
    var z, items := Chained(), [["a"], ["c"], ["t", "c"]];
    assert z.records[["a"]].Keys == {TYPE_CNAME} && z.records[["c"]].Keys == {TYPE_NS} && z.records[["t", "c"]].Keys == {TYPE_A};
    assert forall n | n in z.records :: n == ["a"] || n == ["c"] || n == ["t", "c"];
    assert items[0] == ["a"] && items[1] == ["c"] && items[2] == ["t", "c"];
  }

  lemma {:induction false} ChainedNames()
    ensures var z := Chained();
            && Owns(z, ["a"]) && IsAlias(z, ["a"]) && Target(z, ["a"]) == ["t", "c"]
            && !UnderCut(z, ["a"]) && UnderCut(z, ["t", "c"]) && z.Rrset(["t", "c"], TYPE_A) != []
  {
    var z := Chained();
    assert IsCut(z, ["c"]) && IsSubdomainOf(["t", "c"], ["c"]);
    forall c: Name | IsCut(z, c)
      ensures c == ["c"]
    {
    }
    assert ["a"][0..][0] != ["c"][0];
  }

  /** One such zone: `a` is an alias of `t.c`, whose address is glue at the cut `c`. */
  method GlueIsAnswered() returns (r: Answer)
    ensures r.aa && exists rr :: rr in r.answers && rr.name == ["t", "c"] && UnderCut(Chained(), rr.name)
  {
    hide Chained, IsLookup, UnderCut, CnamesTyped, OwnersUnder, Lists, Owns, IsAlias, ZoneData.WellFormed;
    ChainedStore();
    ChainedNames();
    r := Lookup(Chained(), [["a"], ["c"], ["t", "c"]], ["a"], TYPE_A);
    ghost var e :| IsLookup(Chained(), ["a"], TYPE_A, r, e);
    AliasUnderCut(Chained(), ["a"], TYPE_A, r, e);
  }
}
