// What an operation on the cache memory comes to when its process is let run to
// its end, from any reachable state and whatever the other processes hold.

module SharedCacheProgress {
  import opened Wrappers
  import opened Bytes
  import opened ShmLock
  import opened SharedMemory
  import opened SharedCacheRuns

  /** Process `p` takes `n` steps. */
  function Steps(l: Layout, s: State, p: nat, n: nat, now: real, read: Stamp -> real): State
    requires Shaped(l, s)
    decreases n
  {
    hide Do;
    if n == 0 then s
    else
      DoShape(l, s, Advance(p, now), read);
      Steps(l, Do(l, s, Advance(p, now), read).0, p, n - 1, now, read)
  }

  lemma {:induction false} DoShape(l: Layout, s: State, a: Action, read: Stamp -> real)
    requires Shaped(l, s)
    ensures Shaped(l, Do(l, s, a, read).0)
  {
    hide Unpack, Pack, Layout.Slot, Store;
  }

  /** The process can start an operation on this stripe. */
  ghost predicate Ready(s: State, p: nat, stripe: nat) {
    p < |s.procs| && s.procs[p].Idle? && stripe < |s.holder| && s.holder[stripe].None?
  }

  /** Everything but the memory is as in `s`, with this table and these puts. */
  ghost predicate Done(s: State, s': State, table: seq<Option<Record>>, puts: set<Record>) {
    s'.procs == s.procs && s'.holder == s.holder && s'.table == table && s'.puts == puts
  }

  lemma {:induction false} PutRuns(l: Layout, s: State, p: nat, stripe: nat, r: Record, pos: nat, now: real, read: Stamp -> real)
    requires Inv(l, s) && p < |s.procs| && s.procs[p] == Busy(stripe, PutAt(r, pos)) && pos <= |r.Image()|
    ensures stripe < |s.holder|
    ensures var s' := Steps(l, s, p, |r.Image()| - pos + 1, now, read);
            Done(s.(holder := s.holder[stripe := None], procs := s.procs[p := Idle]), s',
                 s.table[l.Bucket(r.key) := Some(r)], s.puts + {r}) && Inv(l, s')
    decreases |r.Image()| - pos
  {
    hide Inv;
    PutFacts(l, s, p, stripe, r, pos);
    DoKeepsInv(l, s, Advance(p, now), read);
    var s1 := Do(l, s, Advance(p, now), read).0;
    if pos < |r.Image()| {
      PutRuns(l, s1, p, stripe, r, pos + 1, now, read);
      assert s1.procs[p := Idle] == s.procs[p := Idle];
    }
  }

  lemma {:induction false} PutFacts(l: Layout, s: State, p: nat, stripe: nat, r: Record, pos: nat)
    requires Inv(l, s) && p < |s.procs| && s.procs[p] == Busy(stripe, PutAt(r, pos))
    ensures Shaped(l, s) && stripe < STRIPES && |r.Image()| <= l.SlotSize()
  {
    assert ProcOk(l, s, p);
  }

  /** A put that is let finish stores its record: the slot of its key holds it,
    * every other entry is as before, and the stripe is free again. */
  lemma {:induction false} PutCompletes(l: Layout, s: State, p: nat, r: Record, now: real, read: Stamp -> real)
    requires Inv(l, s) && r.Storable(l) && Ready(s, p, StripeFor(l, Op.Put(r)))
    ensures Shaped(l, Do(l, s, Begin(p, Op.Put(r)), read).0)
    ensures var s' := Steps(l, Do(l, s, Begin(p, Op.Put(r)), read).0, p, |r.Image()| + 1, now, read);
            Done(s, s', s.table[l.Bucket(r.key) := Some(r)], s.puts + {r}) && Inv(l, s')
  {
    var stripe, s1 := StripeFor(l, Op.Put(r)), Do(l, s, Begin(p, Op.Put(r)), read).0;
    hide Inv, Steps;
    DoKeepsInv(l, s, Begin(p, Op.Put(r)), read);
    InvShape(l, s1);
    PutRuns(l, s1, p, stripe, r, 0, now, read);
    assert s1.holder[stripe := None] == s.holder && s1.procs[p := Idle] == s.procs;
  }

  lemma {:induction false} InvShape(l: Layout, s: State)
    requires Inv(l, s)
    ensures Shaped(l, s)
  {
  }

  /** A get that is let run answers out of its slot exactly when the slot holds the
    * key and its lifetime lasts, and leaves everything as it was. */
  lemma {:induction false} GetAnswers(l: Layout, s: State, p: nat, k: nat, now: real, later: real, read: Stamp -> real)
    requires Inv(l, s) && Ready(s, p, StripeFor(l, Op.Get(k)))
    ensures Shaped(l, Do(l, s, Begin(p, Op.Get(k)), read).0)
    ensures var s1 := Do(l, s, Begin(p, Op.Get(k)), read).0;
            var s2 := Do(l, s1, Advance(p, now), read).0;
            var (s3, e) := Do(l, s2, Advance(p, later), read);
            && s3 == s
            && e == match Answer(s.table[l.Bucket(k)], k, now, read)
                    case None => Quiet
                    case Some((wire, remaining)) => Hit(k, wire, remaining)
  {
    var b, stripe := l.Bucket(k), StripeFor(l, Op.Get(k));
    var s1 := Do(l, s, Begin(p, Op.Get(k)), read).0;
    var s2 := Do(l, s1, Advance(p, now), read).0;
    FreeSlotShows(l, s, b);
    if s.table[b].Some? {
      ShownHeader(l.Slot(s.mem, b), s.table[b].value);
      ShownFits(l.Slot(s.mem, b), s.table[b].value);
    }
    Restored(s, s1, p, stripe);
    assert s1.mem == s.mem && s1.table == s.table;
    if s2.procs[p].Busy? {
      Restored(s, s2, p, stripe);
    }
  }

  lemma {:induction false} FreeSlotShows(l: Layout, s: State, b: nat)
    requires Inv(l, s) && b < l.slots && s.holder[StripeOf(b)].None?
    ensures Shows(l.Slot(s.mem, b), s.table[b])
  {
    assert SlotOk(l, s, b);
  }

  lemma {:induction false} ShownFits(slot: seq<byte>, r: Record)
    requires Shows(slot, Some(r))
    ensures HDR_LEN + |r.wire| <= |slot| && |r.wire| > 0
  {
  }

  lemma {:induction false} Restored(s: State, t: State, p: nat, stripe: nat)
    requires Ready(s, p, stripe) && |t.procs| == |s.procs| && |t.holder| == |s.holder|
    requires forall q :: 0 <= q < |s.procs| && q != p ==> t.procs[q] == s.procs[q]
    requires forall i :: 0 <= i < |s.holder| && i != stripe ==> t.holder[i] == s.holder[i]
    ensures t.procs[p := Idle] == s.procs && t.holder[stripe := None] == s.holder
  {
  }

  // ---- Delete ----

  lemma {:induction false} IdleSteps(l: Layout, s: State, p: nat, n: nat, now: real, read: Stamp -> real)
    requires Shaped(l, s) && p < |s.procs| && s.procs[p].Idle?
    ensures Steps(l, s, p, n, now, read) == s
    decreases n
  {
    if n > 0 {
      IdleSteps(l, s, p, n - 1, now, read);
    }
  }

  lemma {:induction false} BlankRuns(l: Layout, s: State, p: nat, stripe: nat, b: nat, pos: nat, now: real, read: Stamp -> real)
    requires Inv(l, s) && p < |s.procs| && s.procs[p] == Busy(stripe, BlankAt(b, pos)) && pos <= HDR_LEN
    ensures stripe < |s.holder| && b < |s.table|
    ensures var s' := Steps(l, s, p, HDR_LEN - pos + 1, now, read);
            Done(s.(holder := s.holder[stripe := None], procs := s.procs[p := Idle]), s', s.table[b := None], s.puts)
            && Inv(l, s')
    decreases HDR_LEN - pos
  {
    hide Inv, Do;
    BlankFacts(l, s, p, stripe, b, pos);
    DoKeepsInv(l, s, Advance(p, now), read);
    BlankStep(l, s, p, stripe, b, pos, now, read);
    OneStepThen(l, s, p, HDR_LEN - pos, now, read);
    var s1 := Do(l, s, Advance(p, now), read).0;
    if pos < HDR_LEN {
      BlankRuns(l, s1, p, stripe, b, pos + 1, now, read);
      assert s1.procs[p := Idle] == s.procs[p := Idle];
    }
  }

  lemma {:induction false} BlankStep(l: Layout, s: State, p: nat, stripe: nat, b: nat, pos: nat, now: real, read: Stamp -> real)
    requires Shaped(l, s) && p < |s.procs| && stripe < STRIPES && b < l.slots
    requires s.procs[p] == Busy(stripe, BlankAt(b, pos)) && pos <= HDR_LEN
    ensures var s1 := Do(l, s, Advance(p, now), read).0;
            && s1.puts == s.puts
            && if pos < HDR_LEN then
                 s1.holder == s.holder && s1.procs == s.procs[p := Busy(stripe, BlankAt(b, pos + 1))] && s1.table == s.table
               else s1 == Release(s.(table := s.table[b := None]), p, stripe)
  {
    hide Unpack, Store, Layout.Slot;
  }

  lemma {:induction false} BlankFacts(l: Layout, s: State, p: nat, stripe: nat, b: nat, pos: nat)
    requires Inv(l, s) && p < |s.procs| && s.procs[p] == Busy(stripe, BlankAt(b, pos))
    ensures Shaped(l, s) && stripe < STRIPES && b < l.slots
  {
    assert ProcOk(l, s, p);
  }

  /** A delete that is let finish takes out the entry of its key, if its slot holds
    * that key, and nothing else. */
  lemma {:induction false} DeleteCompletes(l: Layout, s: State, p: nat, k: nat, now: real, read: Stamp -> real)
    requires Inv(l, s) && Ready(s, p, StripeFor(l, Op.Delete(k)))
    ensures Shaped(l, Do(l, s, Begin(p, Op.Delete(k)), read).0)
    ensures var b := l.Bucket(k);
            var s' := Steps(l, Do(l, s, Begin(p, Op.Delete(k)), read).0, p, HDR_LEN + 2, now, read);
            Done(s, s', if s.table[b].Some? && s.table[b].value.key == k then s.table[b := None] else s.table, s.puts)
  {
    hide Inv, Steps, Do, Shows, Done, Layout.Slot, Unpack;
    InvShape(l, s);
    var s1 := Do(l, s, Begin(p, Op.Delete(k)), read).0;
    DoKeepsInv(l, s, Begin(p, Op.Delete(k)), read);
    InvShape(l, s1);
    DoKeepsInv(l, s1, Advance(p, now), read);
    DeleteSteps(l, s, p, k, now, read);
    OneStepThen(l, s1, p, HDR_LEN + 1, now, read);
    DeleteEnds(l, s, Do(l, s1, Advance(p, now), read).0, p, k, now, read);
  }

  /** What the second step leaves: the slot to be blanked, or nothing to do. */
  ghost predicate AtSlot(l: Layout, s: State, s2: State, p: nat, k: nat)
    requires Shaped(l, s)
  {
    var b, stripe := l.Bucket(k), StripeFor(l, Op.Delete(k));
    && s2.table == s.table && s2.puts == s.puts && p < |s2.procs|
    && if Unpack(l.Slot(s.mem, b)).key == k then
         && s2.procs[p] == Busy(stripe, BlankAt(b, 0)) && stripe < |s2.holder|
         && s2.procs[p := Idle] == s.procs && s2.holder[stripe := None] == s.holder
       else s2.procs[p].Idle? && s2.procs == s.procs && s2.holder == s.holder
  }

  lemma {:induction false} DeleteEnds(l: Layout, s: State, s2: State, p: nat, k: nat, now: real, read: Stamp -> real)
    requires Inv(l, s) && Shaped(l, s) && Ready(s, p, StripeFor(l, Op.Delete(k))) && Inv(l, s2) && AtSlot(l, s, s2, p, k)
    ensures Shaped(l, s2)
    ensures var b := l.Bucket(k);
            Done(s, Steps(l, s2, p, HDR_LEN + 1, now, read),
                 if s.table[b].Some? && s.table[b].value.key == k then s.table[b := None] else s.table, s.puts)
  {
    var b, stripe := l.Bucket(k), StripeFor(l, Op.Delete(k));
    InvShape(l, s2);
    FreeSlotShows(l, s, b);
    if s.table[b].Some? {
      ShownHeader(l.Slot(s.mem, b), s.table[b].value);
    }
    hide Inv, Steps, Unpack, Layout.Slot, Shows;
    if Unpack(l.Slot(s.mem, b)).key == k {
      BlankRuns(l, s2, p, stripe, b, 0, now, read);
      assert s.table[b].None? ==> s.table[b := None] == s.table;
    } else {
      IdleSteps(l, s2, p, HDR_LEN + 1, now, read);
    }
  }

  /** Its first two steps: it takes the stripe, and reads whose slot it is. */
  lemma {:induction false} DeleteSteps(l: Layout, s: State, p: nat, k: nat, now: real, read: Stamp -> real)
    requires Shaped(l, s) && Ready(s, p, StripeFor(l, Op.Delete(k)))
    ensures Shaped(l, Do(l, s, Begin(p, Op.Delete(k)), read).0)
    ensures AtSlot(l, s, Do(l, Do(l, s, Begin(p, Op.Delete(k)), read).0, Advance(p, now), read).0, p, k)
  {
    hide Unpack, Store, Layout.Slot;
    DoShape(l, s, Begin(p, Op.Delete(k)), read);
    var s1 := Do(l, s, Begin(p, Op.Delete(k)), read).0;
    var s2 := Do(l, s1, Advance(p, now), read).0;
    assert s1.mem == s.mem;
    assert s2.procs[p := Idle] == s.procs && s2.holder[StripeFor(l, Op.Delete(k)) := None] == s.holder;
    assert s2.procs[p].Idle? ==> s2.procs == s2.procs[p := Idle] && s2.holder == s.holder;
  }

  lemma {:induction false} OneStepThen(l: Layout, s: State, p: nat, n: nat, now: real, read: Stamp -> real)
    requires Shaped(l, s)
    ensures Shaped(l, Do(l, s, Advance(p, now), read).0)
    ensures Steps(l, s, p, n + 1, now, read) == Steps(l, Do(l, s, Advance(p, now), read).0, p, n, now, read)
  {
    DoShape(l, s, Advance(p, now), read);
  }

  // ---- Clear ----

  /** The table with the slots of a stripe blank, from slot `b` on. */
  function BlankFrom(table: seq<Option<Record>>, stripe: nat, b: nat): (t: seq<Option<Record>>)
    ensures |t| == |table|
    ensures forall j :: 0 <= j < |table| ==> t[j] == if StripeOf(j) == stripe && b <= j then None else table[j]
  {
    seq(|table|, j requires 0 <= j < |table| => if StripeOf(j) == stripe && b <= j then None else table[j])
  }

  /** The steps it takes to blank the slots of a stripe from `b` on and let go of it. */
  function ClearSteps(slots: nat, b: nat): (n: nat)
    ensures n >= 1 && (b < slots ==> n > HDR_LEN)
    decreases if b < slots then slots - b else 0
  {
    if b >= slots then 1 else HDR_LEN + 1 + ClearSteps(slots, b + STRIPES)
  }

  lemma {:induction false} BlankOneMore(table: seq<Option<Record>>, stripe: nat, b: nat)
    requires b < |table| && StripeOf(b) == stripe
    ensures BlankFrom(table[b := None], stripe, b + STRIPES) == BlankFrom(table, stripe, b)
  {
  }

  lemma {:induction false} BlankNone(table: seq<Option<Record>>, stripe: nat, b: nat)
    requires b >= |table|
    ensures BlankFrom(table, stripe, b) == table
  {
  }

  lemma {:induction false} ClearFacts(l: Layout, s: State, p: nat, stripe: nat, b: nat, pos: nat)
    requires Inv(l, s) && p < |s.procs| && s.procs[p] == Busy(stripe, ClearAt(b, pos))
    ensures Shaped(l, s) && stripe < STRIPES && StripeOf(b) == stripe
  {
    assert ProcOk(l, s, p);
  }

  /** One step of a clear. */
  lemma {:induction false} ClearStep(l: Layout, s: State, p: nat, stripe: nat, b: nat, pos: nat, now: real, read: Stamp -> real)
    requires Shaped(l, s) && p < |s.procs| && stripe < STRIPES && s.procs[p] == Busy(stripe, ClearAt(b, pos)) && pos <= HDR_LEN
    ensures var s1 := Do(l, s, Advance(p, now), read).0;
            && s1.puts == s.puts
            && if b >= l.slots then s1 == Release(s, p, stripe)
               else && s1.holder == s.holder
                    && s1.procs == s.procs[p := Busy(stripe, if pos < HDR_LEN then ClearAt(b, pos + 1) else ClearAt(b + STRIPES, 0))]
                    && s1.table == if pos < HDR_LEN then s.table else s.table[b := None]
  {
    hide Unpack, Store, Layout.Slot;
  }

  lemma {:induction false} ClearRuns(l: Layout, s: State, p: nat, stripe: nat, b: nat, pos: nat, now: real, read: Stamp -> real)
    requires Inv(l, s) && p < |s.procs| && s.procs[p] == Busy(stripe, ClearAt(b, pos)) && pos <= (if b < l.slots then HDR_LEN else 0)
    ensures stripe < |s.holder|
    ensures var s' := Steps(l, s, p, ClearSteps(l.slots, b) - pos, now, read);
            Done(s.(holder := s.holder[stripe := None], procs := s.procs[p := Idle]), s', BlankFrom(s.table, stripe, b), s.puts)
            && Inv(l, s')
    decreases if b < l.slots then l.slots - b else 0, HDR_LEN - pos
  {
    hide Inv, Do, BlankFrom;
    ClearFacts(l, s, p, stripe, b, pos);
    DoKeepsInv(l, s, Advance(p, now), read);
    ClearStep(l, s, p, stripe, b, pos, now, read);
    OneStepThen(l, s, p, ClearSteps(l.slots, b) - pos - 1, now, read);
    var s1 := Do(l, s, Advance(p, now), read).0;
    if b >= l.slots {
      BlankNone(s.table, stripe, b);
    } else if pos < HDR_LEN {
      ClearRuns(l, s1, p, stripe, b, pos + 1, now, read);
      assert s1.procs[p := Idle] == s.procs[p := Idle];
    } else {
      ClearRuns(l, s1, p, stripe, b + STRIPES, 0, now, read);
      BlankOneMore(s.table, stripe, b);
      assert s1.procs[p := Idle] == s.procs[p := Idle];
    }
  }

  /** A process sets out to clear one stripe and is let finish. */
  function ClearOne(l: Layout, s: State, p: nat, stripe: nat, now: real, read: Stamp -> real): (s': State)
    requires Shaped(l, s)
    ensures Shaped(l, s')
  {
    hide Do;
    DoShape(l, s, Begin(p, ClearStripe(stripe)), read);
    StepsShape(l, Do(l, s, Begin(p, ClearStripe(stripe)), read).0, p, ClearSteps(l.slots, stripe), now, read);
    Steps(l, Do(l, s, Begin(p, ClearStripe(stripe)), read).0, p, ClearSteps(l.slots, stripe), now, read)
  }

  lemma {:induction false} StepsShape(l: Layout, s: State, p: nat, n: nat, now: real, read: Stamp -> real)
    requires Shaped(l, s)
    ensures Shaped(l, Steps(l, s, p, n, now, read))
    decreases n
  {
    hide Do;
    if n > 0 {
      OneStepThen(l, s, p, n - 1, now, read);
      StepsShape(l, Do(l, s, Advance(p, now), read).0, p, n - 1, now, read);
    }
  }

  /** A stripe that is free is blanked; one that is held stays as it is. */
  lemma {:induction false} ClearOneCompletes(l: Layout, s: State, p: nat, stripe: nat, now: real, read: Stamp -> real)
    requires Inv(l, s) && p < |s.procs| && s.procs[p].Idle? && stripe < STRIPES
    ensures Shaped(l, s) && Inv(l, ClearOne(l, s, p, stripe, now, read))
    ensures Done(s, ClearOne(l, s, p, stripe, now, read),
                 if s.holder[stripe].None? then BlankFrom(s.table, stripe, 0) else s.table, s.puts)
  {
    hide Inv, Steps, BlankFrom;
    InvShape(l, s);
    DoKeepsInv(l, s, Begin(p, ClearStripe(stripe)), read);
    var s1 := Do(l, s, Begin(p, ClearStripe(stripe)), read).0;
    InvShape(l, s1);
    BlankAllFrom(s.table, stripe);
    if s.holder[stripe].None? && stripe < l.slots {
      ClearRuns(l, s1, p, stripe, stripe, 0, now, read);
      assert s1.holder[stripe := None] == s.holder && s1.procs[p := Idle] == s.procs;
    } else {
      IdleSteps(l, s, p, ClearSteps(l.slots, stripe), now, read);
    }
  }

  lemma {:induction false} BlankAllFrom(table: seq<Option<Record>>, stripe: nat)
    requires stripe < STRIPES
    ensures BlankFrom(table, stripe, stripe) == BlankFrom(table, stripe, 0)
    ensures stripe >= |table| ==> BlankFrom(table, stripe, 0) == table
  {
  }

  /** `clear`: the stripes one after the other. */
  function ClearFrom(l: Layout, s: State, p: nat, stripe: nat, now: real, read: Stamp -> real): State
    requires Shaped(l, s) && stripe <= STRIPES
    decreases STRIPES - stripe
  {
    if stripe == STRIPES then s else ClearFrom(l, ClearOne(l, s, p, stripe, now, read), p, stripe + 1, now, read)
  }

  lemma {:induction false} ClearFromCompletes(l: Layout, s: State, p: nat, stripe: nat, now: real, read: Stamp -> real)
    requires Inv(l, s) && p < |s.procs| && s.procs[p].Idle? && stripe <= STRIPES
    ensures Shaped(l, s)
    ensures var s' := ClearFrom(l, s, p, stripe, now, read);
            && Inv(l, s') && s'.procs == s.procs && s'.holder == s.holder && s'.puts == s.puts && |s'.table| == |s.table|
            && forall b :: 0 <= b < |s.table| ==>
                 s'.table[b] == if stripe <= StripeOf(b) && s.holder[StripeOf(b)].None? then None else s.table[b]
    decreases STRIPES - stripe
  {
    hide Inv, ClearOne;
    InvShape(l, s);
    if stripe < STRIPES {
      ClearOneCompletes(l, s, p, stripe, now, read);
      ClearFromCompletes(l, ClearOne(l, s, p, stripe, now, read), p, stripe + 1, now, read);
    }
  }

  /** A clear that is let finish blanks every slot of the stripes that are free, and
    * nothing else. */
  lemma {:induction false} ClearCompletes(l: Layout, s: State, p: nat, now: real, read: Stamp -> real)
    requires Inv(l, s) && p < |s.procs| && s.procs[p].Idle?
    ensures Shaped(l, s)
    ensures var s' := ClearFrom(l, s, p, 0, now, read);
            && Done(s, s', s'.table, s.puts) && Inv(l, s') && |s'.table| == |s.table|
            && forall b :: 0 <= b < |s.table| ==>
                 s'.table[b] == if s.holder[StripeOf(b)].None? then None else s.table[b]
  {
    hide Inv, ClearFrom;
    ClearFromCompletes(l, s, p, 0, now, read);
  }
}
