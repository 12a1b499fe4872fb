// What the slot table is worth: which keys displace each other, said of gets and puts
// alone.

module SharedCacheLaws {
  import opened Wrappers
  import opened Bytes
  import opened ShmLock
  import opened SharedMemory
  import opened SharedCacheRuns
  import opened SharedCacheProgress

  /** No stripe is held, and process `p` is idle. */
  ghost predicate Quiescent(l: Layout, s: State, p: nat) {
    && Inv(l, s) && p < |s.procs| && s.procs[p].Idle?
    && forall i :: 0 <= i < |s.holder| ==> s.holder[i].None?
  }

  /** What process `p` gets to hear when it asks for `k` at `now`. */
  function Asked(l: Layout, s: State, p: nat, k: nat, now: real, read: Stamp -> real): Event
    requires Shaped(l, s)
  {
    hide Do;
    DoShape(l, s, Begin(p, Op.Get(k)), read);
    var s1 := Do(l, s, Begin(p, Op.Get(k)), read).0;
    DoShape(l, s1, Advance(p, now), read);
    Do(l, Do(l, s1, Advance(p, now), read).0, Advance(p, now), read).1
  }

  /** The state once process `p` has put a record. */
  function Having(l: Layout, s: State, p: nat, r: Record, now: real, read: Stamp -> real): (s': State)
    requires Shaped(l, s)
    ensures Shaped(l, s')
  {
    hide Do;
    DoShape(l, s, Begin(p, Op.Put(r)), read);
    StepsShape(l, Do(l, s, Begin(p, Op.Put(r)), read).0, p, |r.Image()| + 1, now, read);
    Steps(l, Do(l, s, Begin(p, Op.Put(r)), read).0, p, |r.Image()| + 1, now, read)
  }

  lemma {:induction false} QuiescentIsReady(l: Layout, s: State, p: nat, op: Op)
    requires Quiescent(l, s, p) && Admissible(l, op)
    ensures Shaped(l, s) && Ready(s, p, StripeFor(l, op))
  {
  }

  lemma {:induction false} AskedIsAnswer(l: Layout, s: State, p: nat, k: nat, now: real, read: Stamp -> real)
    requires Quiescent(l, s, p)
    ensures Shaped(l, s)
    ensures Asked(l, s, p, k, now, read) ==
            match Answer(s.table[l.Bucket(k)], k, now, read)
            case None => Quiet
            case Some((wire, remaining)) => Hit(k, wire, remaining)
  {
    hide Do, Inv;
    QuiescentIsReady(l, s, p, Op.Get(k));
    GetAnswers(l, s, p, k, now, now, read);
  }

  lemma {:induction false} HavingIsTable(l: Layout, s: State, p: nat, r: Record, now: real, read: Stamp -> real)
    requires Quiescent(l, s, p) && r.Storable(l)
    ensures Shaped(l, s) && Quiescent(l, Having(l, s, p, r, now, read), p)
    ensures Having(l, s, p, r, now, read).table == s.table[l.Bucket(r.key) := Some(r)]
  {
    hide Do, Inv, Steps;
    QuiescentIsReady(l, s, p, Op.Put(r));
    PutCompletes(l, s, p, r, now, read);
  }

  /** What a put does to the answers: a key with another remainder is answered as before;
    * the key that was put is answered with what was put, as long as it lives; and the
    * other keys of that remainder are not answered any more. */
  lemma {:induction false} PutDisplacesItsRemainder(l: Layout, s: State, p: nat, r: Record, now: real, read: Stamp -> real,
                                                    k: nat, later: real)
    requires Quiescent(l, s, p) && r.Storable(l)
    ensures Shaped(l, s)
    ensures var s' := Having(l, s, p, r, now, read);
            && Quiescent(l, s', p)
            && Asked(l, s', p, k, later, read) ==
               if k % l.slots != r.key % l.slots then Asked(l, s, p, k, later, read)
               else if k == r.key && later < read(r.stamp) + r.ttl as real
               then Hit(k, r.wire, read(r.stamp) + r.ttl as real - later)
               else Quiet
  {
    HavingIsTable(l, s, p, r, now, read);
    AskedIsAnswer(l, s, p, k, later, read);
    var s' := Having(l, s, p, r, now, read);
    AskedIsAnswer(l, s', p, k, later, read);
    hide Inv, Quiescent, Having, Asked;
    assert r.wire != [];
  }

  /** The state once all of these have been put, in order. */
  function HavingAll(l: Layout, s: State, p: nat, rs: seq<Record>, now: real, read: Stamp -> real): (s': State)
    requires Shaped(l, s)
    ensures Shaped(l, s')
    decreases |rs|
  {
    if rs == [] then s
    else Having(l, HavingAll(l, s, p, rs[..|rs| - 1], now, read), p, rs[|rs| - 1], now, read)
  }

  /** As many keys as there are slots, one for each, are all kept: put the keys 0, 1, 2
    * and so on up to the last slot, and each of them is answered with its own record. */
  lemma {:induction false} EverySlotServes(l: Layout, s: State, p: nat, rs: seq<Record>, now: real, read: Stamp -> real,
                                           k: nat, later: real)
    requires Quiescent(l, s, p) && |rs| <= l.slots && k < |rs|
    requires forall i :: 0 <= i < |rs| ==> rs[i].key == i && rs[i].Storable(l)
    requires later < read(rs[k].stamp) + rs[k].ttl as real
    ensures Shaped(l, s) && Quiescent(l, HavingAll(l, s, p, rs, now, read), p)
    ensures Asked(l, HavingAll(l, s, p, rs, now, read), p, k, later, read) ==
            Hit(k, rs[k].wire, read(rs[k].stamp) + rs[k].ttl as real - later)
    decreases |rs|
  {
    hide Inv, Having, Asked, Record.Storable;
    QuiescentShape(l, s, p);
    var last, rest := |rs| - 1, rs[..|rs| - 1];
    HavingAllIsQuiescent(l, s, p, rest, now, read);
    var t := HavingAll(l, s, p, rest, now, read);
    PutDisplacesItsRemainder(l, t, p, rs[last], now, read, k, later);
    SmallRemainders(l.slots, k, last);
    if k < last {
      EverySlotServes(l, s, p, rest, now, read, k, later);
    }
  }

  lemma {:induction false} SmallRemainders(n: nat, a: nat, b: nat)
    requires a < n && b < n
    ensures a % n == a && b % n == b
  {
  }

  lemma {:induction false} QuiescentShape(l: Layout, s: State, p: nat)
    requires Quiescent(l, s, p)
    ensures Shaped(l, s)
  {
  }

  lemma {:induction false} HavingAllIsQuiescent(l: Layout, s: State, p: nat, rs: seq<Record>, now: real, read: Stamp -> real)
    requires Quiescent(l, s, p) && forall i :: 0 <= i < |rs| ==> rs[i].Storable(l)
    ensures Shaped(l, s) && Quiescent(l, HavingAll(l, s, p, rs, now, read), p)
    decreases |rs|
  {
    hide Inv, Having, Record.Storable;
    QuiescentShape(l, s, p);
    if rs != [] {
      HavingAllIsQuiescent(l, s, p, rs[..|rs| - 1], now, read);
      HavingIsTable(l, HavingAll(l, s, p, rs[..|rs| - 1], now, read), p, rs[|rs| - 1], now, read);
    }
  }

  /** Stripes are independent: while one process is in the middle of a put, another one
    * is answered about every key whose slot, counted modulo the stripes, is not that
    * of the put, as if nobody were writing. */
  lemma {:induction false} OtherStripesGoOn(l: Layout, s: State, p: nat, q: nat, r: Record, k: nat, n: nat, now: real, read: Stamp -> real)
    requires Quiescent(l, s, p) && q < |s.procs| && q != p && s.procs[q].Idle? && r.Storable(l)
    requires (k % l.slots) % 64 != (r.key % l.slots) % 64 && n <= |r.Image()|
    ensures Shaped(l, s) && Shaped(l, Do(l, s, Begin(p, Op.Put(r)), read).0)
    ensures var mid := Steps(l, Do(l, s, Begin(p, Op.Put(r)), read).0, p, n, now, read);
            Shaped(l, mid) && Asked(l, mid, q, k, now, read) == Asked(l, s, q, k, now, read)
  {
    QuiescentIsReady(l, s, p, Op.Put(r));
    QuiescentIsReady(l, s, p, Op.Get(k));
    PutIsUnderWay(l, s, p, r, n, now, read);
    var mid := Steps(l, Do(l, s, Begin(p, Op.Put(r)), read).0, p, n, now, read);
    assert Ready(s, q, StripeFor(l, Op.Get(k))) && Ready(mid, q, StripeFor(l, Op.Get(k)));
    InvShape(l, mid);
    hide Do, Inv, Steps;
    GetAnswers(l, s, q, k, now, now, read);
    GetAnswers(l, mid, q, k, now, now, read);
  }

  /** A put begun and not finished: it holds its stripe, and nothing else is changed. */
  lemma {:induction false} PutIsUnderWay(l: Layout, s: State, p: nat, r: Record, n: nat, now: real, read: Stamp -> real)
    requires Inv(l, s) && r.Storable(l) && Ready(s, p, StripeFor(l, Op.Put(r))) && n <= |r.Image()|
    ensures Shaped(l, s) && Shaped(l, Do(l, s, Begin(p, Op.Put(r)), read).0)
    ensures var stripe := StripeFor(l, Op.Put(r));
            var mid := Steps(l, Do(l, s, Begin(p, Op.Put(r)), read).0, p, n, now, read);
            && Inv(l, mid) && mid.table == s.table && mid.holder == s.holder[stripe := Some(p)]
            && mid.procs == s.procs[p := Busy(stripe, PutAt(r, n))]
  {
    var s1 := Do(l, s, Begin(p, Op.Put(r)), read).0;
    hide Inv, Steps;
    DoKeepsInv(l, s, Begin(p, Op.Put(r)), read);
    InvShape(l, s);
    InvShape(l, s1);
    PutGoesOn(l, s1, p, StripeFor(l, Op.Put(r)), r, 0, n, now, read);
  }

  lemma {:induction false} PutGoesOn(l: Layout, s: State, p: nat, stripe: nat, r: Record, pos: nat, n: nat, now: real, read: Stamp -> real)
    requires Inv(l, s) && p < |s.procs| && s.procs[p] == Busy(stripe, PutAt(r, pos)) && pos + n <= |r.Image()|
    ensures Shaped(l, s)
    ensures var mid := Steps(l, s, p, n, now, read);
            && Inv(l, mid) && mid.table == s.table && mid.holder == s.holder
            && mid.procs == s.procs[p := Busy(stripe, PutAt(r, pos + n))]
    decreases n
  {
    hide Inv;
    PutFacts(l, s, p, stripe, r, pos);
    if n > 0 {
      DoKeepsInv(l, s, Advance(p, now), read);
      OneStepThen(l, s, p, n - 1, now, read);
      var s1 := Do(l, s, Advance(p, now), read).0;
      PutGoesOn(l, s1, p, stripe, r, pos + 1, n - 1, now, read);
      assert s1.procs[p := Busy(stripe, PutAt(r, pos + n))] == s.procs[p := Busy(stripe, PutAt(r, pos + n))];
    } else {
      assert s.procs[p := Busy(stripe, PutAt(r, pos))] == s.procs;
    }
  }

  // ---- The class ----

  /** The same of the class, on octets: ask for one key, put another, and ask again. */
  method PutAndAsk(c: SharedCache, k: nat, wire: seq<byte>, ttl: int, stamp: Stamp, asked: nat, now: real, read: Stamp -> real,
                   ghost table: seq<Option<Record>>)
    returns (before: Option<(seq<byte>, real)>, after: Option<(seq<byte>, real)>)
    requires c.Valid() && Pictures(c.layout, c.mm[..], table) && AllFree(c.guard)
    requires k < Pow256(8) && ttl < Pow256(4)
    modifies c.guard, c.guard.taken, c.mm
    ensures asked % c.layout.slots != k % c.layout.slots ==> after == before
    ensures wire != [] && |wire| <= c.layout.payload && ttl > 0 && asked % c.layout.slots == k % c.layout.slots ==>
              after == if asked == k && now < read(stamp) + ttl as real then Some((wire, read(stamp) + ttl as real - now)) else None
  {
    hide Pictures;
    PicturesSize(c.layout, c.mm[..], table);
    before := c.Get(asked, now, now, read, table);
    ghost var table' := c.Put(k, wire, ttl, stamp, now, now, table);
    after := c.Get(asked, now, now, read, table');
  }
}
