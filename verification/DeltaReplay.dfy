// Replaying one journal entry (all deletions, then all additions) on a copy of
// the zone as it was before the update, and when that gives the zone after it.

module DeltaReplay {
  import opened Dns
  import opened Zones
  import opened Updates
  import opened UpdateInvariants
  import opened Xfr
  import opened AxfrRoundTrip

  ghost predicate Holds(records: seq<RR>, n: Name, t: RType, rd: Rdata) {
    exists rr :: rr in records && rr.name == n && rr.rtype == t && rr.rdata == rd
  }

  /** What the deletion list has grown by. */
  function NewDels(before: Change, after: Change): seq<RR> {
    if |before.dels| <= |after.dels| then after.dels[|before.dels|..] else []
  }

  /** The update record deletes nothing that this same message added. */
  ghost predicate Clean(c: Change, rr: RR) {
    forall d :: d in NewDels(c, ApplyOne(c, rr)) ==> !Holds(c.adds, d.name, d.rtype, d.rdata)
  }

  ghost predicate CleanAll(c: Change, rrs: seq<RR>)
    decreases |rrs|
  {
    rrs == [] || (Clean(c, rrs[0]) && CleanAll(ApplyOne(c, rrs[0]), rrs[1..]))
  }

  /** The members of one RRset that a deletion list leaves. */
  ghost function Surviving(rds: seq<Rdata>, dels: seq<RR>, n: Name, t: RType): seq<Rdata> {
    if rds == [] then []
    else (if Holds(dels, n, t, rds[0]) then [] else [rds[0]]) + Surviving(rds[1..], dels, n, t)
  }

  /** What replaying a message's two lists on `rds` gives. */
  ghost function Replayed(rds: seq<Rdata>, dels: seq<RR>, adds: seq<RR>, n: Name, t: RType): seq<Rdata> {
    Surviving(rds, dels, n, t) + RdatasAt(adds, n, t)
  }

  // ---- Filtering ----

  lemma {:induction false} HoldsAppend(a: seq<RR>, b: seq<RR>, n: Name, t: RType, rd: Rdata)
    ensures Holds(a + b, n, t, rd) <==> Holds(a, n, t, rd) || Holds(b, n, t, rd)
  {
    assert forall rr :: rr in a + b <==> rr in a || rr in b;
  }

  lemma {:induction false} SurvivingTwice(rds: seq<Rdata>, dels: seq<RR>, more: seq<RR>, n: Name, t: RType)
    ensures Surviving(rds, dels + more, n, t) == Surviving(Surviving(rds, dels, n, t), more, n, t)
  {
    if rds != [] {
      SurvivingTwice(rds[1..], dels, more, n, t);
      HoldsAppend(dels, more, n, t, rds[0]);
      var tail := Surviving(rds[1..], dels, n, t);
      if !Holds(dels, n, t, rds[0]) {
        var kept := [rds[0]] + tail;
        assert kept[1..] == tail;
        assert Surviving(rds, dels, n, t) == kept;
        assert Surviving(kept, more, n, t) ==
               (if Holds(more, n, t, rds[0]) then [] else [rds[0]]) + Surviving(tail, more, n, t);
      } else {
        assert Surviving(rds, dels, n, t) == tail;
      }
    }
  }

  lemma {:induction false} SurvivingAll(rds: seq<Rdata>, dels: seq<RR>, n: Name, t: RType)
    requires forall rd :: rd in rds ==> !Holds(dels, n, t, rd)
    ensures Surviving(rds, dels, n, t) == rds
  {
    if rds != [] {
      SurvivingAll(rds[1..], dels, n, t);
    }
  }

  lemma {:induction false} SurvivingNone(rds: seq<Rdata>, dels: seq<RR>, n: Name, t: RType)
    requires forall rd :: rd in rds ==> Holds(dels, n, t, rd)
    ensures Surviving(rds, dels, n, t) == []
  {
    if rds != [] {
      SurvivingNone(rds[1..], dels, n, t);
    }
  }

  lemma {:induction false} SurvivingOne(rds: seq<Rdata>, rr: RR)
    ensures Surviving(rds, [rr], rr.name, rr.rtype) == Without(rds, rr.rdata)
  {
    if rds != [] {
      SurvivingOne(rds[1..], rr);
      assert rr in [rr];
    }
  }

  lemma SurvivingMembers(rds: seq<Rdata>, dels: seq<RR>, n: Name, t: RType)
    ensures forall rd :: rd in Surviving(rds, dels, n, t) ==> rd in rds && !Holds(dels, n, t, rd)
  {
  }

  lemma {:induction false} DeletionsHold(n: Name, t: RType, rds: seq<Rdata>)
    ensures forall d :: d in Deletions(n, t, rds) ==> d.name == n && d.rtype == t && d.rdata in rds
    ensures forall rd :: rd in rds ==> Holds(Deletions(n, t, rds), n, t, rd)
  {
    if rds != [] {
      DeletionsHold(n, t, rds[1..]);
      var head, tail := RR(n, t, CLASS_IN, 0, rds[0]), Deletions(n, t, rds[1..]);
      forall rd | rd in rds
        ensures Holds(Deletions(n, t, rds), n, t, rd)
      {
        if rd == rds[0] {
          assert head in [head] + tail;
        } else {
          assert rd in rds[1..] && Holds(tail, n, t, rd);
          var rr :| rr in tail && rr.name == n && rr.rtype == t && rr.rdata == rd;
          assert rr in [head] + tail;
        }
      }
    }
  }

  lemma {:induction false} AddedIsHeld(adds: seq<RR>, n: Name, t: RType)
    ensures forall rd :: rd in RdatasAt(adds, n, t) <==> Holds(adds, n, t, rd)
  {
    if adds != [] {
      AddedIsHeld(adds[1..], n, t);
      forall rd
        ensures rd in RdatasAt(adds, n, t) <==> Holds(adds, n, t, rd)
      {
        assert Holds(adds, n, t, rd) <==>
               (adds[0].name == n && adds[0].rtype == t && adds[0].rdata == rd) || Holds(adds[1..], n, t, rd) by {
          assert adds == [adds[0]] + adds[1..];
        }
      }
    }
  }

  // ---- What replaying the lists gives, record by record ----

  /** Every RRset is what replaying the lists so far on `start` gives. */
  ghost predicate Tracks(start: ZoneData, c: Change) {
    forall n, t :: c.zone.Rrset(n, t) == Replayed(start.Rrset(n, t), c.dels, c.adds, n, t)
  }

  /** The members of an RRset that are not among `left`. */
  ghost function Outside(rds: seq<Rdata>, left: iset<Rdata>): seq<Rdata> {
    if rds == [] then [] else (if rds[0] in left then [] else [rds[0]]) + Outside(rds[1..], left)
  }

  lemma {:induction false} OutsideAppend(a: seq<Rdata>, b: seq<Rdata>, left: iset<Rdata>)
    ensures Outside(a + b, left) == Outside(a, left) + Outside(b, left)
  {
    if a == [] {
      assert a + b == b;
    } else {
      assert (a + b)[1..] == a[1..] + b;
      OutsideAppend(a[1..], b, left);
    }
  }

  lemma {:induction false} OutsideAll(rds: seq<Rdata>, left: iset<Rdata>)
    requires forall rd :: rd in rds ==> rd !in left
    ensures Outside(rds, left) == rds
  {
    if rds != [] {
      OutsideAll(rds[1..], left);
    }
  }

  lemma {:induction false} OutsideMembers(rds: seq<Rdata>, left: iset<Rdata>)
    ensures forall rd :: rd in Outside(rds, left) <==> rd in rds && rd !in left
    ensures forall rd :: rd !in left ==> multiset(Outside(rds, left))[rd] == multiset(rds)[rd]
  {
    if rds != [] {
      OutsideMembers(rds[1..], left);
      assert rds == [rds[0]] + rds[1..];
    }
  }

  lemma {:induction false} OutsideSurviving(rds: seq<Rdata>, dels: seq<RR>, n: Name, t: RType, left: iset<Rdata>)
    ensures Outside(Surviving(rds, dels, n, t), left) == Surviving(Outside(rds, left), dels, n, t)
  {
    if rds != [] {
      var rest, kept := Outside(rds[1..], left), Surviving(rds[1..], dels, n, t);
      OutsideSurviving(rds[1..], dels, n, t, left);
      assert ([rds[0]] + rest)[1..] == rest && ([rds[0]] + kept)[1..] == kept;
      assert [] + rest == rest && [] + kept == kept;
      if Holds(dels, n, t, rds[0]) {
        assert Surviving(rds, dels, n, t) == kept;
        assert rds[0] !in left ==> Surviving([rds[0]] + rest, dels, n, t) == [] + Surviving(rest, dels, n, t);
      } else {
        assert Surviving(rds, dels, n, t) == [rds[0]] + kept;
        assert Outside([rds[0]] + kept, left) == (if rds[0] in left then [] else [rds[0]]) + Outside(kept, left);
      }
    }
  }

  lemma {:induction false} SurvivingCount(rds: seq<Rdata>, dels: seq<RR>, n: Name, t: RType, rd: Rdata)
    ensures multiset(Surviving(rds, dels, n, t))[rd] == if Holds(dels, n, t, rd) then 0 else multiset(rds)[rd]
  {
    if rds != [] {
      SurvivingCount(rds[1..], dels, n, t, rd);
      assert rds == [rds[0]] + rds[1..];
    }
  }

  /** What the addition list has grown by. */
  function NewAdds(before: Change, after: Change): seq<RR> {
    if |before.adds| <= |after.adds| then after.adds[|before.adds|..] else []
  }

  /** Taking all RRsets of a node out logs what the unprotected ones held. */
  lemma {:induction false} DropAllLogs(c: Change, n: Name, types: seq<RType>, n': Name, t': RType, rd: Rdata)
    ensures Holds(NewDels(c, DropAll(c, n, types)), n', t', rd) <==>
            n' == n && t' in types && !Apex(c.zone.origin, n, t') && rd in c.zone.Rrset(n, t')
    decreases |types|
  {
    hide ZoneData.Rrset;
    if types != [] {
      if Apex(c.zone.origin, n, types[0]) {
        DropAllLogs(c, n, types[1..], n', t', rd);
      } else {
        var d, gone := DropRrset(c, n, types[0]), Deletions(n, types[0], c.zone.Rrset(n, types[0]));
        var rest := NewDels(d, DropAll(d, n, types[1..]));
        DropAllLogs(d, n, types[1..], n', t', rd);
        RrsetOfSet(c.zone, n, types[0], [], n, t');
        DeletionsHold(n, types[0], c.zone.Rrset(n, types[0]));
        DropAllFrame(d, n, types[1..]);
        assert NewDels(c, DropAll(c, n, types)) == gone + rest;
        HoldsAppend(gone, rest, n', t', rd);
      }
    }
  }

  /** The new entries of the two lists, replayed, are what an update record does. */
  ghost predicate StepReplays(c: Change, c': Change, n: Name, t: RType) {
    && c'.dels == c.dels + NewDels(c, c') && c'.adds == c.adds + NewAdds(c, c')
    && c'.zone.Rrset(n, t) == Replayed(c.zone.Rrset(n, t), NewDels(c, c'), NewAdds(c, c'), n, t)
  }

  lemma {:induction false} OneReplays(c: Change, rr: RR, n: Name, t: RType)
    ensures StepReplays(c, ApplyOne(c, rr), n, t)
  {
    hide ApplyOne;
    OneFrame(c, rr);
    OneLists(c, rr);
    if rr.rclass == CLASS_ANY {
      AnyReplays(c, rr, n, t);
    } else if rr.rclass == CLASS_NONE {
      NoneReplays(c, rr, n, t);
    } else {
      AddReplays(c, rr, n, t);
    }
  }

  lemma {:induction false} AddReplays(c: Change, rr: RR, n: Name, t: RType)
    requires rr.rclass !in {CLASS_ANY, CLASS_NONE}
    ensures var c' := ApplyOne(c, rr);
            c'.zone.Rrset(n, t) == Replayed(c.zone.Rrset(n, t), [], NewAdds(c, c'), n, t)
  {
    hide ZoneData.SetRrset, ZoneData.Rrset;
    RrsetOfAdd(c.zone, rr.name, rr.rtype, rr.rdata, rr.ttl, n, t);
    SurvivingAll(c.zone.Rrset(n, t), [], n, t);
    assert RdatasAt([rr][1..], n, t) == [];
  }

  lemma {:induction false} OneLists(c: Change, rr: RR)
    ensures rr.rclass in {CLASS_ANY, CLASS_NONE} ==> ApplyOne(c, rr).adds == c.adds
    ensures rr.rclass !in {CLASS_ANY, CLASS_NONE} ==> ApplyOne(c, rr).dels == c.dels
  {
    hide ZoneData.SetRrset, ZoneData.Add, Without, Deletions, SortedTypes, DropAll;
    if rr.rclass == CLASS_ANY && rr.rtype == TYPE_ANY {
      DropAllFrame(c, rr.name, SortedTypes(c.zone.NodeOf(rr.name).Keys));
    }
  }

  lemma {:induction false} AnyReplays(c: Change, rr: RR, n: Name, t: RType)
    requires rr.rclass == CLASS_ANY
    ensures var c' := ApplyOne(c, rr); c'.zone.Rrset(n, t) == Surviving(c.zone.Rrset(n, t), NewDels(c, c'), n, t)
  {
    var c', before := ApplyOne(c, rr), c.zone.Rrset(n, t);
    if rr.rtype == TYPE_ANY {
      var types := SortedTypes(c.zone.NodeOf(rr.name).Keys);
      forall rd
        ensures Holds(NewDels(c, c'), n, t, rd) <==>
                n == rr.name && t in types && !Apex(c.zone.origin, n, t) && rd in before
      {
        DropAllLogs(c, rr.name, types, n, t, rd);
      }
      DropAllRrset(c, rr.name, types, n, t);
    } else if !Apex(c.zone.origin, rr.name, rr.rtype) && rr.rtype in c.zone.NodeOf(rr.name) {
      assert NewDels(c, c') == Deletions(rr.name, rr.rtype, c.zone.Rrset(rr.name, rr.rtype));
      DeletionsHold(rr.name, rr.rtype, c.zone.Rrset(rr.name, rr.rtype));
      RrsetOfSet(c.zone, rr.name, rr.rtype, [], n, t);
    } else {
      assert NewDels(c, c') == [];
    }
    AllOrNone(before, NewDels(c, c'), n, t, c'.zone.Rrset(n, t));
  }

  lemma {:induction false} AllOrNone(before: seq<Rdata>, dels: seq<RR>, n: Name, t: RType, after: seq<Rdata>)
    requires || ((forall rd :: rd in before ==> Holds(dels, n, t, rd)) && after == [])
             || ((forall rd :: rd in before ==> !Holds(dels, n, t, rd)) && after == before)
    ensures after == Surviving(before, dels, n, t)
  {
    if forall rd :: rd in before ==> !Holds(dels, n, t, rd) {
      SurvivingAll(before, dels, n, t);
      assert after != before ==> before == [] by {
        assert before != [] ==> before[0] in before;
      }
    } else {
      SurvivingNone(before, dels, n, t);
    }
  }

  lemma {:induction false} NoneReplays(c: Change, rr: RR, n: Name, t: RType)
    requires rr.rclass == CLASS_NONE
    ensures var c' := ApplyOne(c, rr); c'.zone.Rrset(n, t) == Surviving(c.zone.Rrset(n, t), NewDels(c, c'), n, t)
  {
    var c', before, gone := ApplyOne(c, rr), c.zone.Rrset(n, t), RR(rr.name, rr.rtype, CLASS_IN, 0, rr.rdata);
    var held := c.zone.Rrset(rr.name, rr.rtype);
    WithoutSpec(held, rr.rdata);
    RrsetOfSet(c.zone, rr.name, rr.rtype, Without(held, rr.rdata), n, t);
    assert NewDels(c, c') in {[], [gone]} && gone in [gone];
    if NewDels(c, c') == [gone] && n == rr.name && t == rr.rtype {
      SurvivingOne(before, gone);
    } else {
      SurvivingAll(before, NewDels(c, c'), n, t);
    }
  }

  /** An RRset is what replaying the lists so far gives, the records of `left` apart. */
  ghost predicate TracksOutside(start: ZoneData, c: Change, n: Name, t: RType, left: iset<Rdata>) {
    Outside(c.zone.Rrset(n, t), left) == Outside(Replayed(start.Rrset(n, t), c.dels, c.adds, n, t), left)
  }

  lemma {:induction false} TrackOne(start: ZoneData, c: Change, c': Change, n: Name, t: RType, left: iset<Rdata>)
    requires TracksOutside(start, c, n, t, left) && StepReplays(c, c', n, t)
    requires forall rd :: rd !in left && Holds(NewDels(c, c'), n, t, rd) ==> !Holds(c.adds, n, t, rd)
    ensures TracksOutside(start, c', n, t, left)
  {
    hide Surviving, Outside, RdatasAt, Holds, NewDels, NewAdds, ZoneData.Rrset;
    var more, now, added := NewDels(c, c'), RdatasAt(NewAdds(c, c'), n, t), RdatasAt(c.adds, n, t);
    var before, kept := c.zone.Rrset(n, t), Surviving(start.Rrset(n, t), c.dels, n, t);
    OutsideSurviving(before, more, n, t, left);
    OutsideAppend(kept, added, left);
    SurvivingAppend(Outside(kept, left), Outside(added, left), more, n, t);
    OutsideSurviving(kept, more, n, t, left);
    SurvivingTwice(start.Rrset(n, t), c.dels, more, n, t);
    AddedIsHeld(c.adds, n, t);
    OutsideMembers(added, left);
    SurvivingAll(Outside(added, left), more, n, t);
    RdatasAtAppend(c.adds, NewAdds(c, c'), n, t);
    OutsideAppend(Surviving(before, more, n, t), now, left);
    OutsideAppend(Surviving(kept, more, n, t), added + now, left);
    OutsideAppend(added, now, left);
  }

  lemma {:induction false} SurvivingAppend(a: seq<Rdata>, b: seq<Rdata>, dels: seq<RR>, n: Name, t: RType)
    ensures Surviving(a + b, dels, n, t) == Surviving(a, dels, n, t) + Surviving(b, dels, n, t)
  {
    if a == [] {
      assert a + b == b;
    } else {
      assert (a + b)[1..] == a[1..] + b;
      SurvivingAppend(a[1..], b, dels, n, t);
    }
  }

  /** Some update record deletes this record after the same message has added it. */
  ghost predicate DeletesAdded(c: Change, rrs: seq<RR>, n: Name, t: RType, rd: Rdata)
    decreases |rrs|
  {
    rrs != [] && (|| (Holds(NewDels(c, ApplyOne(c, rrs[0])), n, t, rd) && Holds(c.adds, n, t, rd))
                  || DeletesAdded(ApplyOne(c, rrs[0]), rrs[1..], n, t, rd))
  }

  lemma {:induction false} TrackAll(start: ZoneData, c: Change, rrs: seq<RR>, n: Name, t: RType, left: iset<Rdata>)
    requires TracksOutside(start, c, n, t, left)
    requires forall rd :: rd !in left ==> !DeletesAdded(c, rrs, n, t, rd)
    ensures TracksOutside(start, ApplyAll(c, rrs), n, t, left)
    decreases |rrs|
  {
    hide TracksOutside, ApplyOne, NewDels, Holds, StepReplays;
    if rrs != [] {
      OneReplays(c, rrs[0], n, t);
      assert forall rd :: rd !in left ==> !DeletesAdded(c, rrs, n, t, rd);
      TrackOne(start, c, ApplyOne(c, rrs[0]), n, t, left);
      TrackAll(start, ApplyOne(c, rrs[0]), rrs[1..], n, t, left);
    }
  }

  /** What a message, replayed, leaves behind in an RRset. */
  ghost function LeftBy(z: ZoneData, rrs: seq<RR>, n: Name, t: RType): iset<Rdata> {
    iset rd | DeletesAdded(Change(z, [], []), rrs, n, t, rd)
  }

  /** But for the records that a message deletes after adding them, its lists replay
    * to the updated RRset, in order. */
  lemma {:induction false} ReplaysOutside(z: ZoneData, rrs: seq<RR>, n: Name, t: RType)
    ensures TracksOutside(z, ApplyAll(Change(z, [], []), rrs), n, t, LeftBy(z, rrs, n, t))
  {
    var c := Change(z, [], []);
    SurvivingAll(z.Rrset(n, t), [], n, t);
    assert Replayed(z.Rrset(n, t), [], [], n, t) == z.Rrset(n, t);
    TrackAll(z, c, rrs, n, t, LeftBy(z, rrs, n, t));
  }

  lemma {:induction false} CleanDeletesNoneAdded(c: Change, rrs: seq<RR>, n: Name, t: RType, rd: Rdata)
    requires CleanAll(c, rrs)
    ensures !DeletesAdded(c, rrs, n, t, rd)
    decreases |rrs|
  {
    if rrs != [] {
      CleanDeletesNoneAdded(ApplyOne(c, rrs[0]), rrs[1..], n, t, rd);
    }
  }

  lemma {:induction false} SomeAddedIsDeleted(c: Change, rrs: seq<RR>) returns (n: Name, t: RType, rd: Rdata)
    requires !CleanAll(c, rrs)
    ensures DeletesAdded(c, rrs, n, t, rd)
    decreases |rrs|
  {
    hide ApplyOne, NewDels;
    if Clean(c, rrs[0]) {
      n, t, rd := SomeAddedIsDeleted(ApplyOne(c, rrs[0]), rrs[1..]);
    } else {
      var d :| d in NewDels(c, ApplyOne(c, rrs[0])) && Holds(c.adds, d.name, d.rtype, d.rdata);
      return d.name, d.rtype, d.rdata;
    }
  }

  // ---- Updates that are not clean: the lists replay to something else ----

  /** `rd` was added and then deleted: replay leaves one copy more than the zone has. */
  ghost predicate Tainted(c: Change, n: Name, t: RType, rd: Rdata) {
    && Holds(c.dels, n, t, rd)
    && multiset(c.zone.Rrset(n, t))[rd] <= 1
    && multiset(RdatasAt(c.adds, n, t))[rd] > multiset(c.zone.Rrset(n, t))[rd]
  }

  /** What an update record deletes is gone once it has been applied. */
  lemma {:induction false} DeletedIsGone(c: Change, rr: RR, d: RR)
    requires d in NewDels(c, ApplyOne(c, rr))
    ensures d.rdata !in ApplyOne(c, rr).zone.Rrset(d.name, d.rtype)
  {
    var z, n, t := c.zone, rr.name, rr.rtype;
    if rr.rclass == CLASS_ANY {
      if t == TYPE_ANY {
        var types := SortedTypes(z.NodeOf(n).Keys);
        DropAllDeletes(c, n, types, d);
        DropAllRrset(c, n, types, d.name, d.rtype);
      } else {
        DeletionsHold(n, t, z.Rrset(n, t));
        RrsetOfSet(z, n, t, [], n, t);
      }
    } else {
      WithoutSpec(z.Rrset(n, t), rr.rdata);
      RrsetOfSet(z, n, t, Without(z.Rrset(n, t), rr.rdata), n, t);
    }
  }

  lemma {:induction false} DropAllDeletes(c: Change, n: Name, types: seq<RType>, d: RR)
    requires d in NewDels(c, DropAll(c, n, types))
    ensures d.name == n && d.rtype in types && !Apex(c.zone.origin, n, d.rtype)
    ensures d.rdata in c.zone.Rrset(n, d.rtype)
    decreases |types|
  {
    if types != [] {
      if Apex(c.zone.origin, n, types[0]) {
        DropAllDeletes(c, n, types[1..], d);
      } else {
        var c', final := DropRrset(c, n, types[0]), DropAll(c, n, types).dels;
        DropAllFrame(c', n, types[1..]);
        DeletionsHold(n, types[0], c.zone.Rrset(n, types[0]));
        var i :| |c.dels| <= i < |final| && final[i] == d;
        if i < |c'.dels| {
          assert final[i] == c'.dels[i];
        } else {
          DropAllDeletes(c', n, types[1..], d);
          RrsetOfSet(c.zone, n, types[0], [], n, d.rtype);
        }
      }
    }
  }

  /** Only records of the zone are logged as deleted, and never the apex SOA. */
  lemma {:induction false} DeletedWasHeld(c: Change, rr: RR, d: RR)
    requires d in NewDels(c, ApplyOne(c, rr))
    ensures d.rdata in c.zone.Rrset(d.name, d.rtype) && !(d.name == c.zone.origin && d.rtype == TYPE_SOA)
  {
    var z, n, t := c.zone, rr.name, rr.rtype;
    if rr.rclass == CLASS_ANY {
      if t == TYPE_ANY {
        DropAllDeletes(c, n, SortedTypes(z.NodeOf(n).Keys), d);
      } else {
        DeletionsHold(n, t, z.Rrset(n, t));
      }
    } else {
      WithoutSpec(z.Rrset(n, t), rr.rdata);
    }
  }

  lemma {:induction false} DirtyTaints(c: Change, rr: RR, n: Name, t: RType, rd: Rdata)
    requires Holds(NewDels(c, ApplyOne(c, rr)), n, t, rd) && Holds(c.adds, n, t, rd)
    ensures Tainted(ApplyOne(c, rr), n, t, rd)
  {
    var c' := ApplyOne(c, rr);
    var d :| d in NewDels(c, c') && d.name == n && d.rtype == t && d.rdata == rd;
    DeletedIsGone(c, rr, d);
    AddedIsHeld(c.adds, n, t);
    assert d in c'.dels;
    OneLists(c, rr);
    hide ApplyOne;
    assert c'.adds == c.adds;
  }

  lemma {:induction false} OneKeepsTaint(c: Change, rr: RR, n: Name, t: RType, rd: Rdata)
    requires Tainted(c, n, t, rd)
    ensures Tainted(ApplyOne(c, rr), n, t, rd)
  {
    var c', cur := ApplyOne(c, rr), c.zone.Rrset(n, t);
    OneRrset(c, rr, n, t);
    OneFrame(c, rr);
    WithoutKeepsCount(cur, rr.rdata, rd);
    var held :| held in c.dels && held.name == n && held.rtype == t && held.rdata == rd;
    assert held in c'.dels;
    OneAdds(c, rr, n, t);
  }

  lemma {:induction false} WithoutKeepsCount(rds: seq<Rdata>, x: Rdata, rd: Rdata)
    ensures multiset(Without(rds, x))[rd] <= multiset(rds)[rd]
  {
    if rds != [] {
      WithoutKeepsCount(rds[1..], x, rd);
      assert rds == [rds[0]] + rds[1..];
    }
  }

  /** An RRset grows by the record that the addition list grows by. */
  lemma {:induction false} OneAdds(c: Change, rr: RR, n: Name, t: RType)
    ensures var before, after := c.zone.Rrset(n, t), ApplyOne(c, rr).zone.Rrset(n, t);
            var grown := RdatasAt(ApplyOne(c, rr).adds, n, t);
            || (grown == RdatasAt(c.adds, n, t) && multiset(after) <= multiset(before))
            || (grown == RdatasAt(c.adds, n, t) + [rr.rdata] && after == before + [rr.rdata] && rr.rdata !in before)
  {
    var z := c.zone;
    if rr.rclass in {CLASS_ANY, CLASS_NONE} {
      OneShrinks(c, rr, n, t);
    } else {
      RrsetOfAdd(z, rr.name, rr.rtype, rr.rdata, rr.ttl, n, t);
      RdatasAtAppend(c.adds, [rr], n, t);
      assert RdatasAt([rr][1..], n, t) == [];
    }
  }

  lemma {:induction false} OneShrinks(c: Change, rr: RR, n: Name, t: RType)
    requires rr.rclass in {CLASS_ANY, CLASS_NONE}
    ensures ApplyOne(c, rr).adds == c.adds
    ensures multiset(ApplyOne(c, rr).zone.Rrset(n, t)) <= multiset(c.zone.Rrset(n, t))
  {
    var z := c.zone;
    OneRrset(c, rr, n, t);
    forall rd
      ensures multiset(Without(z.Rrset(n, t), rr.rdata))[rd] <= multiset(z.Rrset(n, t))[rd]
    {
      WithoutKeepsCount(z.Rrset(n, t), rr.rdata, rd);
    }
    if rr.rclass == CLASS_ANY {
      DropAllFrame(c, rr.name, SortedTypes(z.NodeOf(rr.name).Keys));
    }
  }

  lemma {:induction false} AllKeepTaint(c: Change, rrs: seq<RR>, n: Name, t: RType, rd: Rdata)
    requires Tainted(c, n, t, rd)
    ensures Tainted(ApplyAll(c, rrs), n, t, rd)
    decreases |rrs|
  {
    if rrs != [] {
      OneKeepsTaint(c, rrs[0], n, t, rd);
      AllKeepTaint(ApplyOne(c, rrs[0]), rrs[1..], n, t, rd);
    }
  }

  lemma {:induction false} DirtyAllTaints(c: Change, rrs: seq<RR>, n: Name, t: RType, rd: Rdata)
    requires DeletesAdded(c, rrs, n, t, rd)
    ensures Tainted(ApplyAll(c, rrs), n, t, rd)
    decreases |rrs|
  {
    hide ApplyOne, Tainted, NewDels;
    if DeletesAdded(ApplyOne(c, rrs[0]), rrs[1..], n, t, rd) {
      DirtyAllTaints(ApplyOne(c, rrs[0]), rrs[1..], n, t, rd);
    } else {
      DirtyTaints(c, rrs[0], n, t, rd);
      AllKeepTaint(ApplyOne(c, rrs[0]), rrs[1..], n, t, rd);
    }
  }

  lemma {:induction false} TaintedDiffers(start: ZoneData, c: Change, n: Name, t: RType, rd: Rdata)
    requires multiset(RdatasAt(c.adds, n, t))[rd] > multiset(c.zone.Rrset(n, t))[rd]
    ensures c.zone.Rrset(n, t) != Replayed(start.Rrset(n, t), c.dels, c.adds, n, t)
  {
    var s := Surviving(start.Rrset(n, t), c.dels, n, t);
    assert multiset(s + RdatasAt(c.adds, n, t)) == multiset(s) + multiset(RdatasAt(c.adds, n, t));
  }

  /** The two lists and the updated RRset tell which records the message leaves behind. */
  lemma {:induction false} LeavesExactly(z: ZoneData, rrs: seq<RR>, n: Name, t: RType, rd: Rdata)
    ensures var c := ApplyAll(Change(z, [], []), rrs);
            DeletesAdded(Change(z, [], []), rrs, n, t, rd) <==>
            Holds(c.dels, n, t, rd) && multiset(RdatasAt(c.adds, n, t))[rd] > multiset(c.zone.Rrset(n, t))[rd]
  {
    hide ApplyAll, DeletesAdded, Outside, Surviving, Holds, RdatasAt;
    var c := ApplyAll(Change(z, [], []), rrs);
    if DeletesAdded(Change(z, [], []), rrs, n, t, rd) {
      DirtyAllTaints(Change(z, [], []), rrs, n, t, rd);
    } else {
      var left, added := LeftBy(z, rrs, n, t), RdatasAt(c.adds, n, t);
      var kept := Surviving(z.Rrset(n, t), c.dels, n, t);
      ReplaysOutside(z, rrs, n, t);
      OutsideMembers(c.zone.Rrset(n, t), left);
      OutsideMembers(kept + added, left);
      assert multiset(kept + added)[rd] == multiset(kept)[rd] + multiset(added)[rd];
    }
  }

  lemma {:induction false} CleanLeavesNothing(z: ZoneData, rrs: seq<RR>, n: Name, t: RType)
    requires CleanAll(Change(z, [], []), rrs)
    ensures forall rd :: rd !in LeftBy(z, rrs, n, t)
  {
    forall rd
      ensures rd !in LeftBy(z, rrs, n, t)
    {
      CleanDeletesNoneAdded(Change(z, [], []), rrs, n, t, rd);
    }
  }

  /** The lists of a message replay to the updated zone, RRset by RRset and in
    * order, if and only if the message never deletes a record it has added. */
  lemma {:induction false} ReplayExact(z: ZoneData, rrs: seq<RR>)
    ensures Tracks(z, ApplyAll(Change(z, [], []), rrs)) <==> CleanAll(Change(z, [], []), rrs)
  {
    hide ApplyAll, DeletesAdded, CleanAll, Outside, RdatasAt;
    var c, d := Change(z, [], []), ApplyAll(Change(z, [], []), rrs);
    if CleanAll(c, rrs) {
      forall n, t
        ensures d.zone.Rrset(n, t) == Replayed(z.Rrset(n, t), d.dels, d.adds, n, t)
      {
        ReplaysOutside(z, rrs, n, t);
        CleanLeavesNothing(z, rrs, n, t);
        OutsideAll(d.zone.Rrset(n, t), LeftBy(z, rrs, n, t));
        OutsideAll(Replayed(z.Rrset(n, t), d.dels, d.adds, n, t), LeftBy(z, rrs, n, t));
      }
    } else {
      var n, t, rd := SomeAddedIsDeleted(c, rrs);
      LeavesExactly(z, rrs, n, t, rd);
      TaintedDiffers(z, d, n, t, rd);
    }
  }
}
