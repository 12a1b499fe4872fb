// The cross-process cache memory (cache/shared.py): a direct-mapped table of
// fixed-size slots in one byte array.

module SharedMemory {
  import opened Wrappers
  import opened Bytes
  import opened ShmLock

  const HDR_LEN: nat := 22
  const STRIPES: nat := 64

  /** The insertion time as its eight stored octets; what it reads as is a parameter. */
  type Stamp = s: seq<byte> | |s| == 8 witness [0, 0, 0, 0, 0, 0, 0, 0]

  datatype Header = Header(key: nat, stamp: Stamp, ttl: nat, length: nat)

  predicate HeaderFits(h: Header) {
    h.key < Pow256(8) && h.ttl < Pow256(4) && h.length < Pow256(2)
  }

  function Pack(h: Header): (s: seq<byte>)
    ensures |s| == HDR_LEN
  {
    LittleEndian(h.key, 8) + h.stamp + LittleEndian(h.ttl, 4) + LittleEndian(h.length, 2)
  }

  function Unpack(s: seq<byte>): Header
    requires |s| >= HDR_LEN
  {
    Header(FromLittleEndian(s[..8]), s[8..16], FromLittleEndian(s[16..20]), FromLittleEndian(s[20..22]))
  }

  const BLANK: Header := Header(0, [0, 0, 0, 0, 0, 0, 0, 0], 0, 0)

  lemma {:induction false} HeaderRoundTrip(h: Header, rest: seq<byte>)
    requires HeaderFits(h)
    ensures Unpack(Pack(h) + rest) == h
  {
    var s := Pack(h) + rest;
    assert s[..8] == LittleEndian(h.key, 8);
    assert s[8..16] == h.stamp;
    assert s[16..20] == LittleEndian(h.ttl, 4);
    assert s[20..22] == LittleEndian(h.length, 2);
    LittleEndianRoundTrip(h.key, 8);
    LittleEndianRoundTrip(h.ttl, 4);
    LittleEndianRoundTrip(h.length, 2);
  }

  // ---- The layout ----

  /** How many slots there are, and how many payload octets each one has. */
  datatype Layout = Layout(slots: nat, payload: nat) {
    predicate Valid() {
      slots > 0 && payload < 0x1_0000
    }

    function SlotSize(): nat {
      HDR_LEN + payload
    }

    function Offset(b: nat): nat {
      b * SlotSize()
    }

    function Size(): nat {
      slots * SlotSize()
    }

    /** `_slot`: the bucket of a key. */
    function Bucket(k: nat): (b: nat)
      requires Valid()
      ensures b < slots
    {
      k % slots
    }

    function Slot(mem: seq<byte>, b: nat): (s: seq<byte>)
      requires |mem| == Size() && b < slots
      ensures |s| == SlotSize()
    {
      SlotInside(this, b);
      mem[Offset(b)..Offset(b) + SlotSize()]
    }
  }

  function StripeOf(b: nat): nat {
    b % STRIPES
  }

  lemma {:induction false} SlotInside(l: Layout, b: nat)
    requires b < l.slots
    ensures l.Offset(b) + l.SlotSize() <= l.Size()
  {
    assert b * l.SlotSize() + l.SlotSize() == (b + 1) * l.SlotSize();
    assert (b + 1) * l.SlotSize() <= l.slots * l.SlotSize();
  }

  lemma {:induction false} UpdateSlice(mem: seq<byte>, at: nat, v: byte, lo: nat, hi: nat)
    requires at < |mem| && lo <= hi <= |mem|
    ensures mem[at := v][lo..hi] == if lo <= at < hi then mem[lo..hi][at - lo := v] else mem[lo..hi]
  {
  }

  /** Writing inside one slot changes that slot and no other. */
  lemma {:induction false} SlotsAreDisjoint(l: Layout, mem: seq<byte>, b: nat, i: nat, v: byte, b': nat)
    requires |mem| == l.Size() && b < l.slots && b' < l.slots && i < l.SlotSize()
    ensures l.Offset(b) + i < |mem|
    ensures l.Slot(mem[l.Offset(b) + i := v], b') == if b' == b then l.Slot(mem, b)[i := v] else l.Slot(mem, b')
  {
    SlotInside(l, b);
    SlotInside(l, b');
    if b' < b {
      Apart(b', b, l.SlotSize());
    } else if b < b' {
      Apart(b, b', l.SlotSize());
    }
    UpdateSlice(mem, l.Offset(b) + i, v, l.Offset(b'), l.Offset(b') + l.SlotSize());
  }

  lemma {:induction false} Apart(b: nat, c: nat, size: nat)
    requires b < c
    ensures b * size + size <= c * size
  {
    assert b * size + size == (b + 1) * size;
    assert (b + 1) * size <= c * size;
  }

  // ---- What a slot holds ----

  /** One answer as it was put. */
  datatype Record = Record(key: nat, wire: seq<byte>, ttl: nat, stamp: Stamp) {
    function Head(): Header {
      Header(key, stamp, ttl, |wire|)
    }

    function Image(): seq<byte> {
      Pack(Head()) + wire
    }

    /** What `put` accepts; the key hash and the TTL fit their fields. */
    predicate Storable(l: Layout) {
      wire != [] && |wire| <= l.payload && 0 < ttl < Pow256(4) && key < Pow256(8)
    }
  }

  /** The octets of a slot say exactly what the table entry says. */
  ghost predicate Shows(slot: seq<byte>, entry: Option<Record>) {
    && |slot| >= HDR_LEN
    && match entry
       case None => Unpack(slot).length == 0
       case Some(r) => HeaderFits(r.Head()) && |r.wire| > 0 && r.Image() <= slot
  }

  lemma {:induction false} ShownHeader(slot: seq<byte>, r: Record)
    requires Shows(slot, Some(r))
    ensures Unpack(slot) == r.Head() && slot[HDR_LEN..HDR_LEN + |r.wire|] == r.wire
  {
    assert slot == Pack(r.Head()) + slot[HDR_LEN..];
    HeaderRoundTrip(r.Head(), slot[HDR_LEN..]);
    assert slot[..|r.Image()|] == r.Image();
  }

  lemma {:induction false} BlankShowsNothing(slot: seq<byte>)
    requires Pack(BLANK) <= slot
    ensures Shows(slot, None)
  {
    assert slot == Pack(BLANK) + slot[HDR_LEN..];
    HeaderRoundTrip(BLANK, slot[HDR_LEN..]);
  }

  lemma {:induction false} ImageShows(l: Layout, slot: seq<byte>, r: Record)
    requires l.Valid() && r.Storable(l) && r.Image() <= slot
    ensures Shows(slot, Some(r))
  {
    assert Pow256(2) == 0x1_0000;
  }

  // ---- The operations of one process ----

  /** The memory is an exact picture of the table. */
  ghost predicate Pictures(l: Layout, mem: seq<byte>, table: seq<Option<Record>>) {
    && l.Valid() && |mem| == l.Size() && |table| == l.slots
    && forall b :: 0 <= b < l.slots ==> Shows(l.Slot(mem, b), table[b])
  }

  /** What `get` owes for a table entry. */
  function Answer(entry: Option<Record>, k: nat, now: real, read: Stamp -> real): Option<(seq<byte>, real)> {
    if entry.None? || entry.value.key != k then None
    else
      var remaining := entry.value.ttl as real - (now - read(entry.value.stamp));
      if remaining <= 0.0 then None else Some((entry.value.wire, remaining))
  }

  function Splice(mem: seq<byte>, off: nat, data: seq<byte>): seq<byte>
    requires off + |data| <= |mem|
  {
    mem[..off] + data + mem[off + |data|..]
  }

  lemma {:induction false} SpliceSlot(l: Layout, mem: seq<byte>, b: nat, data: seq<byte>, b': nat)
    requires |mem| == l.Size() && b < l.slots && b' < l.slots && |data| <= l.SlotSize()
    ensures l.Offset(b) + |data| <= |mem|
    ensures |Splice(mem, l.Offset(b), data)| == |mem|
    ensures var slot := l.Slot(Splice(mem, l.Offset(b), data), b');
            if b' == b then data <= slot else slot == l.Slot(mem, b')
  {
    SlotInside(l, b);
    SlotInside(l, b');
    if b' < b {
      Apart(b', b, l.SlotSize());
    } else if b < b' {
      Apart(b, b', l.SlotSize());
    }
    SpliceSlice(mem, l.Offset(b), data, l.Offset(b'), l.Offset(b') + l.SlotSize());
  }

  lemma {:induction false} SpliceSlice(mem: seq<byte>, off: nat, data: seq<byte>, lo: nat, hi: nat)
    requires off + |data| <= |mem| && lo <= hi <= |mem|
    ensures |Splice(mem, off, data)| == |mem|
    ensures hi <= off || off + |data| <= lo ==> Splice(mem, off, data)[lo..hi] == mem[lo..hi]
    ensures lo == off && off + |data| <= hi ==> data <= Splice(mem, off, data)[lo..hi]
  {
    var out := Splice(mem, off, data);
    assert forall i :: 0 <= i < |data| ==> out[off + i] == data[i];
    assert forall i :: 0 <= i < |mem| && !(off <= i < off + |data|) ==> out[i] == mem[i];
    if lo == off && off + |data| <= hi {
      assert out[lo..hi][..|data|] == data;
    }
  }

  lemma {:induction false} PicturesAfterPut(l: Layout, mem: seq<byte>, table: seq<Option<Record>>, r: Record)
    requires Pictures(l, mem, table) && r.Storable(l)
    ensures l.Offset(l.Bucket(r.key)) + |r.Image()| <= |mem|
    ensures Pictures(l, Splice(mem, l.Offset(l.Bucket(r.key)), r.Image()), table[l.Bucket(r.key) := Some(r)])
  {
    var b := l.Bucket(r.key);
    SpliceSlot(l, mem, b, r.Image(), b);
    var mem' := Splice(mem, l.Offset(b), r.Image());
    forall c | 0 <= c < l.slots
      ensures Shows(l.Slot(mem', c), table[b := Some(r)][c])
    {
      SpliceSlot(l, mem, b, r.Image(), c);
      if c == b {
        ImageShows(l, l.Slot(mem', b), r);
      }
    }
  }

  lemma {:induction false} PicturesAfterBlank(l: Layout, mem: seq<byte>, table: seq<Option<Record>>, b: nat)
    requires Pictures(l, mem, table) && b < l.slots
    ensures l.Offset(b) + HDR_LEN <= |mem|
    ensures Pictures(l, Splice(mem, l.Offset(b), Pack(BLANK)), table[b := None])
  {
    SpliceSlot(l, mem, b, Pack(BLANK), b);
    var mem' := Splice(mem, l.Offset(b), Pack(BLANK));
    forall c | 0 <= c < l.slots
      ensures Shows(l.Slot(mem', c), table[b := None][c])
    {
      SpliceSlot(l, mem, b, Pack(BLANK), c);
      if c == b {
        BlankShowsNothing(l.Slot(mem', b));
      }
    }
  }

  lemma {:induction false} SliceOfSlice(mem: seq<byte>, lo: nat, size: nat, i: nat, j: nat)
    requires i <= j <= size && lo + size <= |mem|
    ensures mem[lo..lo + size][i..j] == mem[lo + i..lo + j]
  {
    var inner, outer := mem[lo..lo + size][i..j], mem[lo + i..lo + j];
    forall k | 0 <= k < j - i
      ensures inner[k] == outer[k]
    {
      assert inner[k] == mem[lo..lo + size][i + k] == mem[lo + i + k];
    }
  }

  /** What a slot tells about its table entry. */
  lemma {:induction false} SlotTells(slot: seq<byte>, entry: Option<Record>)
    requires Shows(slot, entry)
    ensures |slot| >= HDR_LEN
    ensures var h := Unpack(slot[0..HDR_LEN]);
            match entry
            case None => h.length == 0
            case Some(r) => h == r.Head() && h.length == |r.wire| > 0 && HDR_LEN + |r.wire| <= |slot|
                            && slot[HDR_LEN..HDR_LEN + |r.wire|] == r.wire
  {
    hide Unpack, Pack, HeaderFits;
    UnpackOfPrefix(slot);
    assert slot[0..HDR_LEN] == slot[..HDR_LEN];
    if entry.Some? {
      ShownHeader(slot, entry.value);
    }
  }

  /** What reading the octets of a slot tells about its table entry. */
  lemma {:induction false} SlotReads(l: Layout, mem: seq<byte>, table: seq<Option<Record>>, b: nat)
    requires Pictures(l, mem, table) && b < l.slots
    ensures l.Offset(b) + HDR_LEN <= |mem| && |table| == l.slots
    ensures var off := l.Offset(b);
            var h := Unpack(mem[off..off + HDR_LEN]);
            match table[b]
            case None => h.length == 0
            case Some(r) => h == r.Head() && h.length > 0 && off + HDR_LEN + h.length <= |mem|
                            && mem[off + HDR_LEN..off + HDR_LEN + h.length] == r.wire
  {
    hide Unpack, Shows;
    SlotInside(l, b);
    var off := l.Offset(b);
    SlotTells(l.Slot(mem, b), table[b]);
    SliceOfSlice(mem, off, l.SlotSize(), 0, HDR_LEN);
    if table[b].Some? {
      SliceOfSlice(mem, off, l.SlotSize(), HDR_LEN, HDR_LEN + |table[b].value.wire|);
    }
  }

  lemma {:induction false} PicturesSize(l: Layout, mem: seq<byte>, table: seq<Option<Record>>)
    requires Pictures(l, mem, table)
    ensures |table| == l.slots
  {
  }

  lemma {:induction false} SpliceEnds(mem: seq<byte>, off: nat, data: seq<byte>)
    requires off + |data| <= |mem|
    ensures Splice(mem, off, data[..0]) == mem
    ensures data[..|data|] == data
  {
  }

  lemma {:induction false} SpliceNext(mem: seq<byte>, off: nat, data: seq<byte>, i: nat)
    requires off + |data| <= |mem| && i < |data|
    ensures |Splice(mem, off, data[..i])| == |mem|
    ensures Splice(mem, off, data[..i])[off + i := data[i]] == Splice(mem, off, data[..i + 1])
  {
  }

  /** No stripe is held or written off. */
  ghost predicate AllFree(guard: BoundedLocks)
    reads guard, guard.taken
  {
    forall i: nat :: i < guard.taken.Length ==> !guard.taken[i] && guard.RetryOf(i).None?
  }

  class SharedCache {
    const layout: Layout
    const mm: array<byte>
    const guard: BoundedLocks

    ghost predicate Valid() {
      layout.Valid() && mm.Length == layout.Size() && guard.taken.Length == STRIPES
    }

    constructor (layout: Layout, mm: array<byte>, guard: BoundedLocks)
      ensures this.layout == layout && this.mm == mm && this.guard == guard
    {
      this.layout, this.mm, this.guard := layout, mm, guard;
    }

    /** Whether the attempt on the stripe of bucket `b` will succeed now. */
    ghost predicate CanHold(b: nat, now: real, later: real)
      requires Valid()
      reads guard, guard.taken
    {
      Try(guard.RetryOf(StripeOf(b)), guard.taken[StripeOf(b)], now, later).held
    }

    method Write(off: nat, data: seq<byte>)
      requires off + |data| <= mm.Length
      modifies mm
      ensures mm[..] == Splice(old(mm[..]), off, data)
    {
      hide Splice;
      ghost var before := mm[..];
      SpliceEnds(before, off, data);
      for i := 0 to |data|
        invariant mm[..] == Splice(before, off, data[..i])
      {
        SpliceNext(before, off, data, i);
        mm[off + i] := data[i];
      }
    }

    method Get(k: nat, now: real, later: real, read: Stamp -> real, ghost table: seq<Option<Record>>)
      returns (r: Option<(seq<byte>, real)>)
      requires Valid() && Pictures(layout, mm[..], table)
      modifies guard, guard.taken
      ensures r == if old(CanHold(layout.Bucket(k), now, later)) then Answer(table[layout.Bucket(k)], k, now, read) else None
      ensures guard.taken[..] == old(guard.taken[..])
      ensures old(AllFree(guard)) ==> AllFree(guard)
    {
      hide Pictures, Unpack, Pack, Shows;
      var b := layout.Bucket(k);
      var off := layout.Offset(b);
      SlotReads(layout, mm[..], table, b);
      var held, _ := guard.Hold(StripeOf(b), now, later);
      if !held {
        return None;
      }
      var h := Unpack(mm[off..off + HDR_LEN]);
      r := None;
      if h.key == k && h.length != 0 {
        var remaining := h.ttl as real - (now - read(h.stamp));
        if remaining > 0.0 {
          r := Some((mm[off + HDR_LEN..off + HDR_LEN + h.length], remaining));
        }
      }
      guard.Release(StripeOf(b));
    }

    method Put(k: nat, wire: seq<byte>, ttl: int, stamp: Stamp, now: real, later: real, ghost table: seq<Option<Record>>)
      returns (ghost table': seq<Option<Record>>)
      requires Valid() && Pictures(layout, mm[..], table)
      requires k < Pow256(8) && ttl < Pow256(4)
      modifies guard, guard.taken, mm
      ensures Pictures(layout, mm[..], table')
      ensures table' == if wire != [] && |wire| <= layout.payload && ttl > 0 && old(CanHold(layout.Bucket(k), now, later))
                        then table[layout.Bucket(k) := Some(Record(k, wire, ttl, stamp))] else table
      ensures guard.taken[..] == old(guard.taken[..])
      ensures old(AllFree(guard)) ==> AllFree(guard)
    {
      hide Pictures, Shows, Splice, Pack;
      PicturesSize(layout, mm[..], table);
      table' := table;
      if wire == [] || |wire| > layout.payload || ttl <= 0 {
        return;
      }
      var b := layout.Bucket(k);
      var off := layout.Offset(b);
      var held, _ := guard.Hold(StripeOf(b), now, later);
      if !held {
        return;
      }
      ghost var r := Record(k, wire, ttl, stamp);
      PicturesAfterPut(layout, mm[..], table, r);
      ghost var before := mm[..];
      Write(off, Pack(Header(k, stamp, ttl, |wire|)));
      Write(off + HDR_LEN, wire);
      SpliceTwice(before, off, Pack(r.Head()), wire);
      table' := table[b := Some(r)];
      guard.Release(StripeOf(b));
    }

    method Delete(k: nat, now: real, later: real, ghost table: seq<Option<Record>>)
      returns (ghost table': seq<Option<Record>>)
      requires Valid() && Pictures(layout, mm[..], table)
      modifies guard, guard.taken, mm
      ensures Pictures(layout, mm[..], table')
      ensures var b := layout.Bucket(k);
              && (forall c :: 0 <= c < layout.slots && c != b ==> table'[c] == table[c])
              && (old(CanHold(b, now, later)) ==> table'[b].None? || table'[b].value.key != k)
              && (table'[b] != table[b] ==> table'[b].None? && table[b].value.key == k)
      ensures guard.taken[..] == old(guard.taken[..])
    {
      hide Pictures, Unpack, Pack, Shows, Splice;
      table' := table;
      var b := layout.Bucket(k);
      var off := layout.Offset(b);
      SlotReads(layout, mm[..], table, b);
      var held, _ := guard.Hold(StripeOf(b), now, later);
      if !held {
        return;
      }
      var h := Unpack(mm[off..off + HDR_LEN]);
      if h.key == k {
        PicturesAfterBlank(layout, mm[..], table, b);
        Write(off, Pack(BLANK));
        table' := table[b := None];
      }
      guard.Release(StripeOf(b));
    }

    /** `clear`: stripe by stripe. A stripe that cannot be had is skipped; `done`
      * says which ones were. Every slot of the others is visited exactly once. */
    method Clear(now: nat -> real, later: nat -> real, ghost table: seq<Option<Record>>)
      returns (ghost table': seq<Option<Record>>, ghost done: set<nat>, ghost visited: seq<nat>)
      requires Valid() && Pictures(layout, mm[..], table)
      modifies guard, guard.taken, mm
      ensures Pictures(layout, mm[..], table')
      ensures forall b :: 0 <= b < layout.slots ==> table'[b] == if StripeOf(b) in done then None else table[b]
      ensures forall i :: 0 <= i < STRIPES && old(guard.RetryOf(i).None? && !guard.taken[i]) ==> i in done
      ensures forall b :: b in visited <==> 0 <= b < layout.slots && StripeOf(b) in done
      ensures forall i, j :: 0 <= i < j < |visited| ==> visited[i] != visited[j]
    {
      hide Pictures, Wiped, VisitedIn, ClearedBelow, VisitedBelow;
      PicturesSize(layout, mm[..], table);
      table', done, visited := table, {}, [];
      NothingWiped(table);
      for i := 0 to STRIPES
        invariant Pictures(layout, mm[..], table') && |table'| == layout.slots
        invariant Wiped(table, table', done) && VisitedIn(layout.slots, visited, done)
        invariant forall x :: x in done ==> 0 <= x < i
        invariant forall x :: 0 <= x < i && old(guard.RetryOf(x).None? && !guard.taken[x]) ==> x in done
        invariant forall x :: i <= x < STRIPES ==> guard.RetryOf(x) == old(guard.RetryOf(x))
        invariant forall x :: i <= x < STRIPES ==> guard.taken[x] == old(guard.taken[x])
      {
        var held, _ := guard.Hold(i, now(i), later(i));
        if !held {
          continue;
        }
        ghost var before, seen := table', visited;
        StripeIsNew(layout.slots, seen, done, i);
        table', visited := ClearStripe(i, table', visited);
        PicturesSize(layout, mm[..], table');
        OneMoreWiped(table, before, table', done, i);
        OneMoreVisited(layout.slots, seen, visited, done, i);
        done := done + {i};
        guard.Release(i);
      }
      WipedIs(table, table', done);
      VisitedIs(layout.slots, visited, done);
    }

    /** `range(i, slots, STRIPES)`: the slots of one stripe. */
    method ClearStripe(i: nat, ghost table: seq<Option<Record>>, ghost seen: seq<nat>)
      returns (ghost table': seq<Option<Record>>, ghost visited: seq<nat>)
      requires Valid() && Pictures(layout, mm[..], table) && i < STRIPES
      requires VisitedBelow(layout.slots, seen, seen, i, i)
      requires forall c :: c in seen ==> StripeOf(c) != i
      modifies mm
      ensures Pictures(layout, mm[..], table')
      ensures ClearedBelow(table, table', i, layout.slots)
      ensures VisitedBelow(layout.slots, seen, visited, i, layout.slots)
    {
      table', visited := table, seen;
      var b := i;
      while b < layout.slots
        invariant b % STRIPES == i
        invariant Pictures(layout, mm[..], table')
        invariant ClearedBelow(table, table', i, b)
        invariant VisitedBelow(layout.slots, seen, visited, i, b)
        decreases layout.slots + STRIPES - b
      {
        ghost var was := table';
        NotSeen(seen, b, i);
        table' := BlankSlot(b, table');
        ClearedGrows(table, was, i, b);
        VisitedGrows(layout.slots, seen, visited, i, b);
        visited := visited + [b];
        NextInStripe(b, b + 1);
        b := b + STRIPES;
      }
    }

    method BlankSlot(b: nat, ghost table: seq<Option<Record>>) returns (ghost table': seq<Option<Record>>)
      requires Valid() && Pictures(layout, mm[..], table) && b < layout.slots
      modifies mm
      ensures Pictures(layout, mm[..], table') && table' == table[b := None]
    {
      hide Pictures, Shows, Splice;
      PicturesSize(layout, mm[..], table);
      PicturesAfterBlank(layout, mm[..], table, b);
      Write(layout.Offset(b), Pack(BLANK));
      table' := table[b := None];
    }
  }

  lemma {:induction false} NotSeen(seen: seq<nat>, b: nat, i: nat)
    requires b % STRIPES == i && forall c :: c in seen ==> StripeOf(c) != i
    ensures b !in seen
  {
  }

  /** The slots of stripe `i` before `b` are cleared, and no other. */
  ghost predicate ClearedBelow(table: seq<Option<Record>>, table': seq<Option<Record>>, i: nat, b: nat) {
    && |table'| == |table|
    && forall c :: 0 <= c < |table| ==> table'[c] == if StripeOf(c) == i && c < b then None else table[c]
  }

  /** `visited` is `seen` and the slots of stripe `i` before `b`, without repetition. */
  ghost predicate VisitedBelow(slots: nat, seen: seq<nat>, visited: seq<nat>, i: nat, b: nat) {
    && (forall c :: c in visited <==> c in seen || (0 <= c < slots && StripeOf(c) == i && c < b))
    && (forall x, y :: 0 <= x < y < |visited| ==> visited[x] != visited[y])
  }

  /** Exactly the slots of the stripes in `done` are blank. */
  ghost predicate Wiped(table: seq<Option<Record>>, table': seq<Option<Record>>, done: set<nat>) {
    && |table'| == |table|
    && forall b :: 0 <= b < |table| ==> table'[b] == if StripeOf(b) in done then None else table[b]
  }

  /** Exactly these slots have been visited, none of them twice. */
  ghost predicate VisitedIn(slots: nat, visited: seq<nat>, done: set<nat>) {
    && (forall b :: b in visited <==> 0 <= b < slots && StripeOf(b) in done)
    && (forall i, j :: 0 <= i < j < |visited| ==> visited[i] != visited[j])
  }

  lemma {:induction false} NothingWiped(table: seq<Option<Record>>)
    ensures Wiped(table, table, {}) && forall slots :: VisitedIn(slots, [], {})
  {
  }

  lemma {:induction false} StripeIsNew(slots: nat, seen: seq<nat>, done: set<nat>, i: nat)
    requires VisitedIn(slots, seen, done) && i !in done && i < STRIPES
    ensures VisitedBelow(slots, seen, seen, i, i) && forall c :: c in seen ==> StripeOf(c) != i
  {
  }

  lemma {:induction false} OneMoreWiped(table: seq<Option<Record>>, before: seq<Option<Record>>, after: seq<Option<Record>>,
                                        done: set<nat>, i: nat)
    requires Wiped(table, before, done) && ClearedBelow(before, after, i, |before|)
    ensures Wiped(table, after, done + {i})
  {
    hide StripeOf;
  }

  lemma {:induction false} OneMoreVisited(slots: nat, seen: seq<nat>, visited: seq<nat>, done: set<nat>, i: nat)
    requires VisitedIn(slots, seen, done) && VisitedBelow(slots, seen, visited, i, slots)
    ensures VisitedIn(slots, visited, done + {i})
  {
    hide StripeOf;
  }

  lemma {:induction false} WipedIs(table: seq<Option<Record>>, table': seq<Option<Record>>, done: set<nat>)
    requires Wiped(table, table', done)
    ensures |table'| == |table|
    ensures forall b :: 0 <= b < |table| ==> table'[b] == if StripeOf(b) in done then None else table[b]
  {
  }

  lemma {:induction false} VisitedIs(slots: nat, visited: seq<nat>, done: set<nat>)
    requires VisitedIn(slots, visited, done)
    ensures forall b :: b in visited <==> 0 <= b < slots && StripeOf(b) in done
    ensures forall i, j :: 0 <= i < j < |visited| ==> visited[i] != visited[j]
  {
  }

  lemma {:induction false} ClearedGrows(table: seq<Option<Record>>, table': seq<Option<Record>>, i: nat, b: nat)
    requires ClearedBelow(table, table', i, b) && b % STRIPES == i && b < |table|
    ensures ClearedBelow(table, table'[b := None], i, b + STRIPES)
  {
    forall c | 0 <= c < |table|
      ensures table'[b := None][c] == if StripeOf(c) == i && c < b + STRIPES then None else table[c]
    {
      if b < c < b + STRIPES {
        NextInStripe(b, c);
      }
    }
  }

  lemma {:induction false} VisitedGrows(slots: nat, seen: seq<nat>, visited: seq<nat>, i: nat, b: nat)
    requires VisitedBelow(slots, seen, visited, i, b) && b % STRIPES == i && b < slots && b !in seen
    ensures VisitedBelow(slots, seen, visited + [b], i, b + STRIPES)
  {
    assert b !in visited;
    forall c: nat
      ensures c in visited + [b] <==> c in seen || (0 <= c < slots && StripeOf(c) == i && c < b + STRIPES)
    {
      if b < c < b + STRIPES {
        NextInStripe(b, c);
      }
    }
  }

  lemma {:induction false} NextInStripe(b: nat, c: nat)
    requires b < c < b + STRIPES
    ensures c % STRIPES != b % STRIPES
    ensures (b + STRIPES) % STRIPES == b % STRIPES
  {
  }

  lemma {:induction false} UnpackOfPrefix(slot: seq<byte>)
    requires |slot| >= HDR_LEN
    ensures Unpack(slot[..HDR_LEN]) == Unpack(slot)
  {
    var s := slot[..HDR_LEN];
    assert s[..8] == slot[..8] && s[8..16] == slot[8..16] && s[16..20] == slot[16..20] && s[20..22] == slot[20..22];
  }

  lemma {:induction false} SpliceTwice(mem: seq<byte>, off: nat, a: seq<byte>, b: seq<byte>)
    requires off + |a| + |b| <= |mem|
    ensures Splice(Splice(mem, off, a), off + |a|, b) == Splice(mem, off, a + b)
  {
  }
}
