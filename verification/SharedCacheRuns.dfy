// Any number of processes over one cache memory, interleaved octet by octet.
// Each may be killed at any point, also in the middle of a write, and then
// never releases the stripe lock it holds.

module SharedCacheRuns {
  import opened Wrappers
  import opened Bytes
  import opened ShmLock
  import opened SharedMemory

  /** What a process that holds a stripe lock is about to do. */
  datatype Task =
    | GetHead(key: nat)
    | GetBody(key: nat, head: Header, at: real)     // `at`: when the header was read
    | PutAt(record: Record, pos: nat)
    | DeleteHead(key: nat)
    | BlankAt(slot: nat, pos: nat)
    | ClearAt(slot: nat, pos: nat)

  datatype Proc = Idle | Busy(stripe: nat, task: Task) | Dead

  /** The memory, who holds which stripe, and where each process is. `table` is
    * what the completed operations amount to: the entry of each slot. `puts`
    * are the puts that ran to completion. */
  datatype State = State(
    mem: seq<byte>,
    holder: seq<Option<nat>>,
    procs: seq<Proc>,
    table: seq<Option<Record>>,
    puts: set<Record>)

  datatype Op = Get(key: nat) | Put(record: Record) | Delete(key: nat) | ClearStripe(stripe: nat)

  datatype Action = Begin(p: nat, op: Op) | Advance(p: nat, now: real) | Kill(p: nat)

  datatype Event = Quiet | Hit(key: nat, wire: seq<byte>, remaining: real)

  function Initial(l: Layout, procs: nat): State {
    State(seq(l.Size(), _ => 0), seq(STRIPES, _ => None), seq(procs, _ => Idle), seq(l.slots, _ => None), {})
  }

  // ---- Steps ----

  predicate Admissible(l: Layout, op: Op)
    requires l.Valid()
  {
    match op
    case Get(_) => true
    case Put(r) => r.Storable(l)
    case Delete(_) => true
    case ClearStripe(i) => i < STRIPES && i < l.slots
  }

  function StripeFor(l: Layout, op: Op): nat
    requires l.Valid()
  {
    match op
    case Get(k) => StripeOf(l.Bucket(k))
    case Put(r) => StripeOf(l.Bucket(r.key))
    case Delete(k) => StripeOf(l.Bucket(k))
    case ClearStripe(i) => i
  }

  function FirstTask(op: Op): Task {
    match op
    case Get(k) => GetHead(k)
    case Put(r) => PutAt(r, 0)
    case Delete(k) => DeleteHead(k)
    case ClearStripe(i) => ClearAt(i, 0)
  }

  predicate Shaped(l: Layout, s: State) {
    l.Valid() && |s.mem| == l.Size() && |s.holder| == STRIPES && |s.table| == l.slots
  }

  function Release(s: State, p: nat, stripe: nat): State
    requires p < |s.procs| && stripe < |s.holder|
  {
    s.(holder := s.holder[stripe := None], procs := s.procs[p := Idle])
  }

  function Goto(s: State, p: nat, stripe: nat, task: Task): State
    requires p < |s.procs|
  {
    s.(procs := s.procs[p := Busy(stripe, task)])
  }

  function Store(l: Layout, mem: seq<byte>, b: nat, i: nat, v: byte): (mem': seq<byte>)
    requires |mem| == l.Size() && b < l.slots && i < l.SlotSize()
    ensures |mem'| == |mem|
  {
    SlotsAreDisjoint(l, mem, b, i, v, b);
    mem[l.Offset(b) + i := v]
  }

  /** One micro-step of the task of a process that holds its stripe. `read`
    * turns a stored stamp into seconds. */
  function Work(l: Layout, s: State, p: nat, stripe: nat, task: Task, now: real, read: Stamp -> real): (State, Event)
    requires Shaped(l, s) && p < |s.procs| && stripe < STRIPES
  {
    match task
    case GetHead(k) =>
      var h := Unpack(l.Slot(s.mem, l.Bucket(k)));
      if h.key != k || h.length == 0 || h.ttl as real - (now - read(h.stamp)) <= 0.0 then (Release(s, p, stripe), Quiet)
      else (Goto(s, p, stripe, GetBody(k, h, now)), Quiet)
    case GetBody(k, h, at) =>
      var slot := l.Slot(s.mem, l.Bucket(k));
      var end := if HDR_LEN + h.length <= |slot| then HDR_LEN + h.length else |slot|;
      (Release(s, p, stripe), Hit(k, slot[HDR_LEN..end], h.ttl as real - (at - read(h.stamp))))
    case PutAt(r, pos) =>
      var b := l.Bucket(r.key);
      if pos < |r.Image()| && pos < l.SlotSize() then
        (Goto(s.(mem := Store(l, s.mem, b, pos, r.Image()[pos])), p, stripe, PutAt(r, pos + 1)), Quiet)
      else (Release(s.(table := s.table[b := Some(r)], puts := s.puts + {r}), p, stripe), Quiet)
    case DeleteHead(k) =>
      if Unpack(l.Slot(s.mem, l.Bucket(k))).key == k then
        (Goto(s, p, stripe, BlankAt(l.Bucket(k), 0)), Quiet)
      else (Release(s, p, stripe), Quiet)
    case BlankAt(b, pos) =>
      if b >= l.slots then (Release(s, p, stripe), Quiet)
      else if pos < HDR_LEN then
        (Goto(s.(mem := Store(l, s.mem, b, pos, Pack(BLANK)[pos])), p, stripe, BlankAt(b, pos + 1)), Quiet)
      else (Release(s.(table := s.table[b := None]), p, stripe), Quiet)
    case ClearAt(b, pos) =>
      if b >= l.slots then (Release(s, p, stripe), Quiet)
      else if pos < HDR_LEN then
        (Goto(s.(mem := Store(l, s.mem, b, pos, Pack(BLANK)[pos])), p, stripe, ClearAt(b, pos + 1)), Quiet)
      else (Goto(s.(table := s.table[b := None]), p, stripe, ClearAt(b + STRIPES, 0)), Quiet)
  }

  /** One action. An action that is not possible changes nothing. */
  function Do(l: Layout, s: State, a: Action, read: Stamp -> real): (State, Event)
    requires Shaped(l, s)
  {
    match a
    case Begin(p, op) =>
      if p < |s.procs| && s.procs[p].Idle? && Admissible(l, op) && s.holder[StripeFor(l, op)].None? then
        var i := StripeFor(l, op);
        (Goto(s.(holder := s.holder[i := Some(p)]), p, i, FirstTask(op)), Quiet)
      else (s, Quiet)
    case Advance(p, now) =>
      if p < |s.procs| && s.procs[p].Busy? && s.procs[p].stripe < STRIPES then
        Work(l, s, p, s.procs[p].stripe, s.procs[p].task, now, read)
      else (s, Quiet)
    case Kill(p) =>
      if p < |s.procs| then (s.(procs := s.procs[p := Dead]), Quiet) else (s, Quiet)
  }

  // ---- The invariant ----

  predicate Writes(l: Layout, task: Task, b: nat)
    requires l.Valid()
  {
    match task
    case PutAt(r, _) => b == l.Bucket(r.key)
    case BlankAt(b', _) => b == b'
    case ClearAt(b', _) => b == b'
    case _ => false
  }

  /** Nobody, dead or alive, can have left slot `b` half written. */
  predicate Settled(l: Layout, s: State, b: nat)
    requires Shaped(l, s) && b < l.slots
  {
    match s.holder[StripeOf(b)]
    case None => true
    case Some(p) => p < |s.procs| && s.procs[p].Busy? && !Writes(l, s.procs[p].task, b)
  }

  /** The process is where its task says it is. */
  ghost predicate OnTask(l: Layout, mem: seq<byte>, stripe: nat, task: Task)
    requires l.Valid() && |mem| == l.Size()
  {
    match task
    case GetHead(k) => StripeOf(l.Bucket(k)) == stripe
    case GetBody(k, h, _) =>
      StripeOf(l.Bucket(k)) == stripe && Unpack(l.Slot(mem, l.Bucket(k))) == h && h.key == k && h.length != 0
    case PutAt(r, pos) =>
      && StripeOf(l.Bucket(r.key)) == stripe && r.Storable(l) && pos <= |r.Image()|
      && l.Slot(mem, l.Bucket(r.key))[..pos] == r.Image()[..pos]
    case DeleteHead(k) => StripeOf(l.Bucket(k)) == stripe
    case BlankAt(b, pos) =>
      b < l.slots && StripeOf(b) == stripe && pos <= HDR_LEN && l.Slot(mem, b)[..pos] == Pack(BLANK)[..pos]
    case ClearAt(b, pos) =>
      StripeOf(b) == stripe && (b < l.slots ==> pos <= HDR_LEN && l.Slot(mem, b)[..pos] == Pack(BLANK)[..pos])
  }

  ghost predicate ProcOk(l: Layout, s: State, p: nat)
    requires Shaped(l, s) && p < |s.procs|
  {
    s.procs[p].Busy? ==>
      var Busy(stripe, task) := s.procs[p];
      stripe < STRIPES && s.holder[stripe] == Some(p) && OnTask(l, s.mem, stripe, task)
  }

  ghost predicate HolderOk(s: State, i: nat)
    requires i < |s.holder|
  {
    match s.holder[i]
    case None => true
    case Some(p) => p < |s.procs| && (s.procs[p].Dead? || (s.procs[p].Busy? && s.procs[p].stripe == i))
  }

  ghost predicate SlotOk(l: Layout, s: State, b: nat)
    requires Shaped(l, s) && b < l.slots
  {
    && (Settled(l, s, b) ==> Shows(l.Slot(s.mem, b), s.table[b]))
    && (s.table[b].Some? ==> s.table[b].value in s.puts && l.Bucket(s.table[b].value.key) == b)
  }

  ghost predicate Inv(l: Layout, s: State) {
    && Shaped(l, s)
    && (forall p :: 0 <= p < |s.procs| ==> ProcOk(l, s, p))
    && (forall i :: 0 <= i < STRIPES ==> HolderOk(s, i))
    && (forall b :: 0 <= b < l.slots ==> SlotOk(l, s, b))
  }

  lemma {:induction false} InitialInv(l: Layout, procs: nat)
    requires l.Valid()
    ensures Inv(l, Initial(l, procs))
  {
    var s := Initial(l, procs);
    forall b | 0 <= b < l.slots
      ensures SlotOk(l, s, b)
    {
      InitialSlot(l, s.mem, b);
    }
    assert forall p :: 0 <= p < |s.procs| ==> s.procs[p].Idle?;
    assert forall i :: 0 <= i < STRIPES ==> s.holder[i].None?;
  }

  lemma {:induction false} InitialSlot(l: Layout, mem: seq<byte>, b: nat)
    requires l.Valid() && |mem| == l.Size() && b < l.slots
    requires forall i :: 0 <= i < |mem| ==> mem[i] == 0
    ensures Shows(l.Slot(mem, b), None)
  {
    SlotInside(l, b);
    ZerosAreBlank(l.Slot(mem, b));
  }

  lemma {:induction false} ZerosAreBlank(slot: seq<byte>)
    requires |slot| >= HDR_LEN && forall i :: 0 <= i < |slot| ==> slot[i] == 0
    ensures Shows(slot, None)
  {
    BlankIsZeros();
    assert forall i :: 0 <= i < HDR_LEN ==> slot[i] == Pack(BLANK)[i];
    BlankShowsNothing(slot);
  }

  lemma {:induction false} ZeroEncoding(n: nat)
    ensures forall i :: 0 <= i < n ==> LittleEndian(0, n)[i] == 0
  {
    if n > 0 {
      ZeroEncoding(n - 1);
    }
  }

  lemma {:induction false} BlankIsZeros()
    ensures forall i :: 0 <= i < HDR_LEN ==> Pack(BLANK)[i] == 0
  {
    ZeroEncoding(8);
    ZeroEncoding(4);
    ZeroEncoding(2);
  }

  // ---- Every action keeps the invariant ----

  /** Another process's view of its own stripe does not change with a write elsewhere. */
  lemma {:induction false} OthersUndisturbed(l: Layout, s: State, s': State, p: nat, stripe: nat, q: nat)
    requires Inv(l, s) && Shaped(l, s')
    requires p < |s.procs| == |s'.procs| && q < |s.procs| && q != p && stripe < STRIPES
    requires s'.procs[q] == s.procs[q]
    requires s.holder[stripe] == Some(p)
    requires forall i :: 0 <= i < STRIPES && i != stripe ==> s'.holder[i] == s.holder[i]
    requires forall b :: 0 <= b < l.slots && StripeOf(b) != stripe ==> l.Slot(s'.mem, b) == l.Slot(s.mem, b)
    ensures ProcOk(l, s', q)
  {
    assert ProcOk(l, s, q);
  }

  /** What a step by the holder of a stripe must show for the invariant to stay. */
  lemma {:induction false} StepKeepsInv(l: Layout, s: State, s': State, p: nat, stripe: nat)
    requires Inv(l, s) && Shaped(l, s')
    requires p < |s.procs| == |s'.procs| && stripe < STRIPES
    requires s.procs[p].Busy? && s.procs[p].stripe == stripe
    requires forall q :: 0 <= q < |s.procs| && q != p ==> s'.procs[q] == s.procs[q]
    requires forall i :: 0 <= i < STRIPES && i != stripe ==> s'.holder[i] == s.holder[i]
    requires forall b :: 0 <= b < l.slots && StripeOf(b) != stripe ==>
               l.Slot(s'.mem, b) == l.Slot(s.mem, b) && s'.table[b] == s.table[b]
    requires s.puts <= s'.puts
    requires ProcOk(l, s', p) && HolderOk(s', stripe)
    requires forall b :: 0 <= b < l.slots && StripeOf(b) == stripe ==> SlotOk(l, s', b)
    ensures Inv(l, s')
  {
    assert ProcOk(l, s, p);
    forall q | 0 <= q < |s'.procs|
      ensures ProcOk(l, s', q)
    {
      if q != p {
        OthersUndisturbed(l, s, s', p, stripe, q);
      }
    }
    forall i | 0 <= i < STRIPES
      ensures HolderOk(s', i)
    {
      assert HolderOk(s, i);
    }
    forall b | 0 <= b < l.slots
      ensures SlotOk(l, s', b)
    {
      assert SlotOk(l, s, b) && HolderOk(s, StripeOf(b));
    }
  }

  /** A process that gives its stripe back leaves every slot of it settled. */
  lemma {:induction false} ReleaseKeepsInv(l: Layout, s: State, s1: State, p: nat, stripe: nat)
    requires Inv(l, s) && Shaped(l, s1)
    requires p < |s.procs| && s.procs[p].Busy? && s.procs[p].stripe == stripe && stripe < STRIPES
    requires s1.mem == s.mem && s1.holder == s.holder && s1.procs == s.procs && s.puts <= s1.puts
    requires forall b :: 0 <= b < l.slots && StripeOf(b) != stripe ==> s1.table[b] == s.table[b]
    requires forall b :: 0 <= b < l.slots && StripeOf(b) == stripe ==>
               && Shows(l.Slot(s.mem, b), s1.table[b])
               && (s1.table[b].Some? ==> s1.table[b].value in s1.puts && l.Bucket(s1.table[b].value.key) == b)
    ensures Inv(l, Release(s1, p, stripe))
  {
    var s' := Release(s1, p, stripe);
    forall b | 0 <= b < l.slots && StripeOf(b) == stripe
      ensures SlotOk(l, s', b)
    {
    }
    StepKeepsInv(l, s, s', p, stripe);
  }

  /** A write of one octet into the slot the task is about. */
  lemma {:induction false} WriteKeepsInv(l: Layout, s: State, p: nat, stripe: nat, b: nat, pos: nat, v: byte, task': Task)
    requires Inv(l, s) && p < |s.procs| && s.procs[p].Busy? && s.procs[p].stripe == stripe && stripe < STRIPES
    requires b < l.slots && StripeOf(b) == stripe && pos < l.SlotSize()
    requires Writes(l, s.procs[p].task, b) && Writes(l, task', b)
    requires OnTask(l, Store(l, s.mem, b, pos, v), stripe, task')
    ensures Inv(l, Goto(s.(mem := Store(l, s.mem, b, pos, v)), p, stripe, task'))
  {
    var s' := Goto(s.(mem := Store(l, s.mem, b, pos, v)), p, stripe, task');
    assert ProcOk(l, s, p);
    forall c | 0 <= c < l.slots && c != b
      ensures l.Slot(s'.mem, c) == l.Slot(s.mem, c)
    {
      SlotsAreDisjoint(l, s.mem, b, pos, v, c);
    }
    forall c | 0 <= c < l.slots && StripeOf(c) == stripe
      ensures SlotOk(l, s', c)
    {
      assert SlotOk(l, s, c);
      if c != b {
        OneTarget(l, s.procs[p].task, b, c);
      }
    }
    StepKeepsInv(l, s, s', p, stripe);
  }

  lemma {:induction false} OneTarget(l: Layout, task: Task, b: nat, c: nat)
    requires l.Valid() && Writes(l, task, b) && c != b
    ensures !Writes(l, task, c)
  {
  }

  /** Extending a written prefix by one octet. */
  lemma {:induction false} PrefixGrows(l: Layout, mem: seq<byte>, b: nat, pos: nat, image: seq<byte>)
    requires |mem| == l.Size() && b < l.slots && pos < |image| <= l.SlotSize()
    requires l.Slot(mem, b)[..pos] == image[..pos]
    ensures l.Slot(Store(l, mem, b, pos, image[pos]), b)[..pos + 1] == image[..pos + 1]
  {
    SlotsAreDisjoint(l, mem, b, pos, image[pos], b);
    var slot := l.Slot(mem, b);
    assert slot[pos := image[pos]][..pos + 1] == slot[..pos] + [image[pos]];
    assert image[..pos + 1] == image[..pos] + [image[pos]];
  }

  /** The slots of a held stripe that the holder is not writing are settled. */
  lemma {:induction false} HeldSlotShows(l: Layout, s: State, p: nat, b: nat)
    requires Inv(l, s) && p < |s.procs| && s.procs[p].Busy? && b < l.slots && StripeOf(b) == s.procs[p].stripe
    requires !Writes(l, s.procs[p].task, b)
    ensures Shows(l.Slot(s.mem, b), s.table[b])
    ensures s.table[b].Some? ==> s.table[b].value in s.puts && l.Bucket(s.table[b].value.key) == b
  {
    assert ProcOk(l, s, p) && SlotOk(l, s, b);
  }

  lemma {:induction false} ReadersKeepInv(l: Layout, s: State, p: nat, task': Task)
    requires Inv(l, s) && p < |s.procs| && s.procs[p].Busy?
    requires var task := s.procs[p].task; task.GetHead? || task.GetBody? || task.DeleteHead?
    ensures s.procs[p].stripe < STRIPES && Inv(l, Release(s, p, s.procs[p].stripe))
    ensures OnTask(l, s.mem, s.procs[p].stripe, task') ==> Inv(l, Goto(s, p, s.procs[p].stripe, task'))
  {
    var stripe, task := s.procs[p].stripe, s.procs[p].task;
    assert ProcOk(l, s, p);
    forall b | 0 <= b < l.slots && StripeOf(b) == stripe
      ensures Shows(l.Slot(s.mem, b), s.table[b])
      ensures s.table[b].Some? ==> s.table[b].value in s.puts && l.Bucket(s.table[b].value.key) == b
    {
      HeldSlotShows(l, s, p, b);
    }
    ReleaseKeepsInv(l, s, s, p, stripe);
    if OnTask(l, s.mem, stripe, task') {
      var s' := Goto(s, p, stripe, task');
      forall b | 0 <= b < l.slots && StripeOf(b) == stripe
        ensures SlotOk(l, s', b)
      {
      }
      StepKeepsInv(l, s, s', p, stripe);
    }
  }

  lemma {:induction false} PutKeepsInv(l: Layout, s: State, p: nat, now: real, read: Stamp -> real)
    requires Inv(l, s) && p < |s.procs| && s.procs[p].Busy? && s.procs[p].task.PutAt?
    ensures s.procs[p].stripe < STRIPES && Inv(l, Work(l, s, p, s.procs[p].stripe, s.procs[p].task, now, read).0)
  {
    var Busy(stripe, PutAt(r, pos)) := s.procs[p];
    assert ProcOk(l, s, p);
    var b := l.Bucket(r.key);
    if pos < |r.Image()| {
      PrefixGrows(l, s.mem, b, pos, r.Image());
      WriteKeepsInv(l, s, p, stripe, b, pos, r.Image()[pos], PutAt(r, pos + 1));
    } else {
      var s1 := s.(table := s.table[b := Some(r)], puts := s.puts + {r});
      assert r.Image()[..pos] == r.Image();
      ImageShows(l, l.Slot(s.mem, b), r);
      forall c | 0 <= c < l.slots && StripeOf(c) == stripe && c != b
        ensures Shows(l.Slot(s.mem, c), s1.table[c])
        ensures s1.table[c].Some? ==> s1.table[c].value in s1.puts && l.Bucket(s1.table[c].value.key) == c
      {
        OneTarget(l, s.procs[p].task, b, c);
        HeldSlotShows(l, s, p, c);
      }
      ReleaseKeepsInv(l, s, s1, p, stripe);
    }
  }

  lemma {:induction false} BlankKeepsInv(l: Layout, s: State, p: nat, now: real, read: Stamp -> real)
    requires Inv(l, s) && p < |s.procs| && s.procs[p].Busy? && s.procs[p].task.BlankAt?
    ensures s.procs[p].stripe < STRIPES && Inv(l, Work(l, s, p, s.procs[p].stripe, s.procs[p].task, now, read).0)
  {
    var Busy(stripe, BlankAt(b, pos)) := s.procs[p];
    assert ProcOk(l, s, p);
    if pos < HDR_LEN {
      PrefixGrows(l, s.mem, b, pos, Pack(BLANK));
      WriteKeepsInv(l, s, p, stripe, b, pos, Pack(BLANK)[pos], BlankAt(b, pos + 1));
    } else {
      var s1 := s.(table := s.table[b := None]);
      BlankedShows(l, s.mem, b);
      forall c | 0 <= c < l.slots && StripeOf(c) == stripe && c != b
        ensures Shows(l.Slot(s.mem, c), s1.table[c])
        ensures s1.table[c].Some? ==> s1.table[c].value in s1.puts && l.Bucket(s1.table[c].value.key) == c
      {
        HeldSlotShows(l, s, p, c);
      }
      ReleaseKeepsInv(l, s, s1, p, stripe);
    }
  }

  lemma {:induction false} BlankedShows(l: Layout, mem: seq<byte>, b: nat)
    requires l.Valid() && |mem| == l.Size() && b < l.slots
    requires l.Slot(mem, b)[..HDR_LEN] == Pack(BLANK)[..HDR_LEN]
    ensures Shows(l.Slot(mem, b), None)
  {
    assert Pack(BLANK)[..HDR_LEN] == Pack(BLANK);
    BlankShowsNothing(l.Slot(mem, b));
  }

  lemma {:induction false} ClearKeepsInv(l: Layout, s: State, p: nat, now: real, read: Stamp -> real)
    requires Inv(l, s) && p < |s.procs| && s.procs[p].Busy? && s.procs[p].task.ClearAt?
    ensures s.procs[p].stripe < STRIPES && Inv(l, Work(l, s, p, s.procs[p].stripe, s.procs[p].task, now, read).0)
  {
    var Busy(stripe, ClearAt(b, pos)) := s.procs[p];
    assert ProcOk(l, s, p);
    if b >= l.slots {
      ClearEnds(l, s, p, stripe);
    } else if pos < HDR_LEN {
      PrefixGrows(l, s.mem, b, pos, Pack(BLANK));
      WriteKeepsInv(l, s, p, stripe, b, pos, Pack(BLANK)[pos], ClearAt(b, pos + 1));
    } else {
      ClearMovesOn(l, s, p, stripe, b, pos);
    }
  }

  /** Past the last slot of the stripe. */
  lemma {:induction false} ClearEnds(l: Layout, s: State, p: nat, stripe: nat)
    requires Inv(l, s) && p < |s.procs| && s.procs[p].Busy? && s.procs[p].task.ClearAt?
    requires s.procs[p].stripe == stripe && s.procs[p].task.slot >= l.slots
    ensures stripe < |s.holder| && Inv(l, Release(s, p, stripe))
  {
    hide Shows, Unpack, Pack;
    assert ProcOk(l, s, p);
    forall c | 0 <= c < l.slots && StripeOf(c) == stripe
      ensures Shows(l.Slot(s.mem, c), s.table[c])
      ensures s.table[c].Some? ==> s.table[c].value in s.puts && l.Bucket(s.table[c].value.key) == c
    {
      HeldSlotShows(l, s, p, c);
    }
    ReleaseKeepsInv(l, s, s, p, stripe);
  }

  /** One slot is blank, on to the next of the stripe. */
  lemma {:induction false} ClearMovesOn(l: Layout, s: State, p: nat, stripe: nat, b: nat, pos: nat)
    requires Inv(l, s) && p < |s.procs| && s.procs[p] == Busy(stripe, ClearAt(b, pos)) && b < l.slots && pos >= HDR_LEN
    ensures Inv(l, Goto(s.(table := s.table[b := None]), p, stripe, ClearAt(b + STRIPES, 0)))
  {
    hide Shows, OnTask, ProcOk, HolderOk, Settled, Writes;
    var s' := Goto(s.(table := s.table[b := None]), p, stripe, ClearAt(b + STRIPES, 0));
    BlankedSlot(l, s, p, stripe, b, pos);
    NextOfStripe(l, s, p, stripe, b, pos);
    forall c | 0 <= c < l.slots && StripeOf(c) == stripe
      ensures SlotOk(l, s', c)
    {
      if c != b {
        OtherSlotOfClear(l, s, p, stripe, b, pos, c);
      }
    }
    StepKeepsInv(l, s, s', p, stripe);
  }

  lemma {:induction false} BlankedSlot(l: Layout, s: State, p: nat, stripe: nat, b: nat, pos: nat)
    requires Inv(l, s) && p < |s.procs| && s.procs[p] == Busy(stripe, ClearAt(b, pos)) && b < l.slots && pos >= HDR_LEN
    ensures stripe < STRIPES && StripeOf(b) == stripe && Shows(l.Slot(s.mem, b), None)
  {
    hide Shows, Unpack;
    assert ProcOk(l, s, p);
    BlankedShows(l, s.mem, b);
  }

  lemma {:induction false} NextOfStripe(l: Layout, s: State, p: nat, stripe: nat, b: nat, pos: nat)
    requires Inv(l, s) && p < |s.procs| && s.procs[p] == Busy(stripe, ClearAt(b, pos)) && b < l.slots
    ensures var s' := Goto(s.(table := s.table[b := None]), p, stripe, ClearAt(b + STRIPES, 0));
            ProcOk(l, s', p) && stripe < STRIPES && HolderOk(s', stripe)
  {
    hide Shows, Unpack, Pack;
    assert ProcOk(l, s, p);
    assert StripeOf(b + STRIPES) == StripeOf(b);
  }

  lemma {:induction false} OtherSlotOfClear(l: Layout, s: State, p: nat, stripe: nat, b: nat, pos: nat, c: nat)
    requires Inv(l, s) && p < |s.procs| && s.procs[p] == Busy(stripe, ClearAt(b, pos)) && b < l.slots
    requires c < l.slots && c != b && StripeOf(c) == stripe
    ensures SlotOk(l, Goto(s.(table := s.table[b := None]), p, stripe, ClearAt(b + STRIPES, 0)), c)
  {
    hide Shows, OnTask;
    HeldSlotShows(l, s, p, c);
  }

  lemma {:induction false} BeginKeepsProc(l: Layout, s: State, p: nat, op: Op, read: Stamp -> real, q: nat)
    requires Inv(l, s) && q < |s.procs|
    ensures Shaped(l, Do(l, s, Begin(p, op), read).0) && q < |Do(l, s, Begin(p, op), read).0.procs|
    ensures ProcOk(l, Do(l, s, Begin(p, op), read).0, q)
  {
    hide HolderOk, SlotOk, Unpack, Pack;
    assert ProcOk(l, s, q);
  }

  lemma {:induction false} BeginKeepsSlot(l: Layout, s: State, p: nat, op: Op, read: Stamp -> real, b: nat)
    requires Inv(l, s) && b < l.slots
    ensures Shaped(l, Do(l, s, Begin(p, op), read).0)
    ensures SlotOk(l, Do(l, s, Begin(p, op), read).0, b)
  {
    hide ProcOk, Shows, Unpack, Pack;
    assert SlotOk(l, s, b) && HolderOk(s, StripeOf(b));
  }

  lemma {:induction false} BeginKeepsInv(l: Layout, s: State, p: nat, op: Op, read: Stamp -> real)
    requires Inv(l, s)
    ensures Inv(l, Do(l, s, Begin(p, op), read).0)
  {
    hide ProcOk, SlotOk, Shows, Unpack, Pack;
    var s' := Do(l, s, Begin(p, op), read).0;
    forall q | 0 <= q < |s'.procs|
      ensures ProcOk(l, s', q)
    {
      BeginKeepsProc(l, s, p, op, read, q);
    }
    forall j | 0 <= j < STRIPES
      ensures HolderOk(s', j)
    {
      assert HolderOk(s, j);
    }
    forall b | 0 <= b < l.slots
      ensures SlotOk(l, s', b)
    {
      BeginKeepsSlot(l, s, p, op, read, b);
    }
  }

  lemma {:induction false} KillKeepsInv(l: Layout, s: State, p: nat, read: Stamp -> real)
    requires Inv(l, s)
    ensures Inv(l, Do(l, s, Kill(p), read).0)
  {
    var s' := Do(l, s, Kill(p), read).0;
    if p < |s.procs| {
      forall q | 0 <= q < |s'.procs|
        ensures ProcOk(l, s', q)
      {
        assert ProcOk(l, s, q);
      }
      forall j | 0 <= j < STRIPES
        ensures HolderOk(s', j)
      {
        assert HolderOk(s, j);
      }
      forall b | 0 <= b < l.slots
        ensures SlotOk(l, s', b)
      {
        assert SlotOk(l, s, b);
      }
    }
  }

  lemma {:induction false} DoKeepsInv(l: Layout, s: State, a: Action, read: Stamp -> real)
    requires Inv(l, s)
    ensures Inv(l, Do(l, s, a, read).0)
  {
    match a
    case Begin(p, op) => BeginKeepsInv(l, s, p, op, read);
    case Kill(p) => KillKeepsInv(l, s, p, read);
    case Advance(p, now) =>
      if p < |s.procs| && s.procs[p].Busy? {
        assert ProcOk(l, s, p);
        match s.procs[p].task
        case GetHead(k) => ReadersKeepInv(l, s, p, GetBody(k, Unpack(l.Slot(s.mem, l.Bucket(k))), a.now));
        case GetBody(k, _, _) => ReadersKeepInv(l, s, p, GetHead(k));
        case DeleteHead(k) => ReadersKeepInv(l, s, p, BlankAt(l.Bucket(k), 0));
        case PutAt(_, _) => PutKeepsInv(l, s, p, now, read);
        case BlankAt(_, _) => BlankKeepsInv(l, s, p, now, read);
        case ClearAt(_, _) => ClearKeepsInv(l, s, p, now, read);
      }
  }

  // ---- No torn reads ----

  /** A hit hands out the entry of its slot: the wire of one completed put under
    * the same key hash, whole, with what was left of that put's lifetime when the
    * header was read. */
  ghost predicate Genuine(l: Layout, s: State, p: nat, e: Event, read: Stamp -> real)
    requires Shaped(l, s)
  {
    e.Hit? ==>
      && p < |s.procs| && s.procs[p].Busy? && s.procs[p].task.GetBody? &&
      var entry := s.table[l.Bucket(e.key)];
      && entry.Some? && entry.value in s.puts
      && entry.value.key == e.key && entry.value.wire == e.wire
      && e.remaining == entry.value.ttl as real - (s.procs[p].task.at - read(entry.value.stamp))
  }

  lemma {:induction false} HitIsGenuine(l: Layout, s: State, p: nat, now: real, read: Stamp -> real)
    requires Inv(l, s)
    ensures Genuine(l, s, p, Do(l, s, Advance(p, now), read).1, read)
  {
    if p < |s.procs| && s.procs[p].Busy? && s.procs[p].task.GetBody? {
      var GetBody(k, h, at) := s.procs[p].task;
      var b := l.Bucket(k);
      assert ProcOk(l, s, p);
      HeldSlotShows(l, s, p, b);
      ShownHeader(l.Slot(s.mem, b), s.table[b].value);
    }
  }

  /** The states and events of a run. */
  function Run(l: Layout, s: State, actions: seq<Action>, read: Stamp -> real): (State, seq<(State, Action, Event)>)
    requires Shaped(l, s)
    decreases |actions|
  {
    if actions == [] then (s, [])
    else
      var (s', e) := Do(l, s, actions[0], read);
      var (final, trace) := Run(l, s', actions[1..], read);
      (final, [(s, actions[0], e)] + trace)
  }

  /** In every run, killed processes and all, every hit is genuine. */
  lemma {:induction false} NoTornReads(l: Layout, s: State, actions: seq<Action>, read: Stamp -> real)
    requires Inv(l, s)
    ensures Inv(l, Run(l, s, actions, read).0)
    ensures forall t | t in Run(l, s, actions, read).1 && t.2.Hit? ::
              Shaped(l, t.0) && t.1.Advance? && Genuine(l, t.0, t.1.p, t.2, read)
    decreases |actions|
  {
    if actions != [] {
      DoKeepsInv(l, s, actions[0], read);
      if actions[0].Advance? {
        HitIsGenuine(l, s, actions[0].p, actions[0].now, read);
      }
      NoTornReads(l, Do(l, s, actions[0], read).0, actions[1..], read);
    }
  }

  lemma {:induction false} NoTornReadsFromStart(l: Layout, procs: nat, actions: seq<Action>, read: Stamp -> real)
    requires l.Valid()
    ensures Inv(l, Initial(l, procs))
    ensures forall t | t in Run(l, Initial(l, procs), actions, read).1 && t.2.Hit? ::
              Shaped(l, t.0) && exists r :: r in t.0.puts && r.key == t.2.key && r.wire == t.2.wire
  {
    InitialInv(l, procs);
    NoTornReads(l, Initial(l, procs), actions, read);
  }

  // ---- A stripe whose holder died stays out of use ----

  ghost predicate Wedged(s: State, stripe: nat) {
    stripe < |s.holder| && s.holder[stripe].Some? && s.holder[stripe].value < |s.procs|
    && s.procs[s.holder[stripe].value].Dead?
  }

  /** A step of a task changes its own process and at most its own stripe, and only
    * the end of a get answers. */
  lemma {:induction false} WorkFrame(l: Layout, s: State, p: nat, stripe: nat, task: Task, now: real, read: Stamp -> real)
    requires Shaped(l, s) && p < |s.procs| && stripe < STRIPES
    ensures var (s', e) := Work(l, s, p, stripe, task, now, read);
            && (s'.holder == s.holder || s'.holder == s.holder[stripe := None])
            && |s'.procs| == |s.procs| && (forall q | 0 <= q < |s.procs| && q != p :: s'.procs[q] == s.procs[q])
            && (e.Hit? ==> task.GetBody? && e.key == task.key)
  {
    hide Unpack, Pack, Store, Record.Image, Layout.Slot;
  }

  lemma {:induction false} WedgedStays(l: Layout, s: State, a: Action, read: Stamp -> real, stripe: nat)
    requires Inv(l, s) && stripe < STRIPES && Wedged(s, stripe)
    ensures Wedged(Do(l, s, a, read).0, stripe)
    ensures var e := Do(l, s, a, read).1; e.Hit? ==> StripeOf(l.Bucket(e.key)) != stripe
  {
    hide Work, SlotOk;
    match a
    case Begin(_, _) =>
    case Kill(_) =>
    case Advance(p, now) =>
      if p < |s.procs| && s.procs[p].Busy? {
        assert ProcOk(l, s, p);
        WorkFrame(l, s, p, s.procs[p].stripe, s.procs[p].task, now, read);
      }
  }

  /** From the moment a holder dies, no get is ever answered out of its stripe,
    * so the half-written slot it may have left is never read. */
  lemma {:induction false} WedgedStripeAnswersNothing(l: Layout, s: State, actions: seq<Action>, read: Stamp -> real,
                                                      stripe: nat)
    requires Inv(l, s) && stripe < STRIPES && Wedged(s, stripe)
    ensures forall t | t in Run(l, s, actions, read).1 && t.2.Hit? :: StripeOf(l.Bucket(t.2.key)) != stripe
    decreases |actions|
  {
    if actions != [] {
      DoKeepsInv(l, s, actions[0], read);
      WedgedStays(l, s, actions[0], read, stripe);
      WedgedStripeAnswersNothing(l, Do(l, s, actions[0], read).0, actions[1..], read, stripe);
    }
  }
}
