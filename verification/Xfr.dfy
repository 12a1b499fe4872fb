// Zone transfer (auth_zone/xfr.py and the receive loop of auth_zone/secondary.py):
// what the primary sends and how the secondary reads it back.

module Xfr {
  import opened Wrappers
  import opened Dns
  import opened Zones
  import opened Updates

  const RRS_PER_MSG: nat := 100
  const MAX_MSG_BYTES: nat := 60000

  /** RFC 1982: `a` is strictly newer than `b`. */
  predicate SerialGt(a: nat, b: nat) {
    a != b && ((a < b && b - a > 0x8000_0000) || (a > b && a - b < 0x8000_0000))
  }

  // ---- Sending ----

  function SoaRR(z: ZoneData): RR
    requires z.Soa().Some?
  {
    RR(z.origin, TYPE_SOA, CLASS_IN, z.TtlOf(z.origin, TYPE_SOA), z.Soa().value)
  }

  function SoaSerialRR(z: ZoneData, serial: nat): RR
    requires z.Soa().Some? && z.Soa().value.SoaData?
  {
    SoaRR(z).(rdata := z.Soa().value.(serial := serial))
  }

  function RrsetRecords(n: Name, t: RType, ttl: nat, rds: seq<Rdata>): seq<RR> {
    if rds == [] then [] else [RR(n, t, CLASS_IN, ttl, rds[0])] + RrsetRecords(n, t, ttl, rds[1..])
  }

  function SigRecords(z: ZoneData, n: Name, t: RType): seq<RR> {
    if (n, t) in z.rrsigs then [RR(n, TYPE_RRSIG, CLASS_IN, z.TtlOf(n, t), z.rrsigs[(n, t)])] else []
  }

  function TypeRecords(z: ZoneData, n: Name, types: seq<RType>): seq<RR> {
    if types == [] then []
    else if n == z.origin && types[0] == TYPE_SOA then TypeRecords(z, n, types[1..])
    else RrsetRecords(n, types[0], z.TtlOf(n, types[0]), z.Rrset(n, types[0]))
         + SigRecords(z, n, types[0]) + TypeRecords(z, n, types[1..])
  }

  function NodeRecords(z: ZoneData, names: seq<Name>): seq<RR> {
    if names == [] then []
    else TypeRecords(z, names[0], SortedTypes(z.NodeOf(names[0]).Keys)) + NodeRecords(z, names[1..])
  }

  /** The full zone, its owners in the order `names`, bracketed by the SOA. */
  function AxfrStream(z: ZoneData, names: seq<Name>): seq<RR>
    requires z.Soa().Some?
  {
    [SoaRR(z)] + NodeRecords(z, names) + SigRecords(z, z.origin, TYPE_SOA) + [SoaRR(z)]
  }

  lemma {:induction false} TypeRecordsAt(z: ZoneData, n: Name, types: seq<RType>, j: nat, out: seq<RR>)
    requires j < |types|
    ensures var t, rest := types[j], TypeRecords(z, n, types[j + 1..]);
            out + TypeRecords(z, n, types[j..]) ==
            if n == z.origin && t == TYPE_SOA then out + rest
            else out + (RrsetRecords(n, t, z.TtlOf(n, t), z.Rrset(n, t)) + SigRecords(z, n, t)) + rest
  {
    assert types[j..][1..] == types[j + 1..];
  }

  lemma {:induction false} NodeRecordsAt(z: ZoneData, names: seq<Name>, i: nat, out: seq<RR>)
    requires i < |names|
    ensures out + NodeRecords(z, names[i..]) ==
            out + TypeRecords(z, names[i], SortedTypes(z.NodeOf(names[i]).Keys)) + NodeRecords(z, names[i + 1..])
  {
    assert names[i..][1..] == names[i + 1..];
  }

  /** One RRset and its signature. */
  method OneType(zone: Zone, n: Name, t: RType) returns (out: seq<RR>)
    requires t in zone.Data().NodeOf(n)
    ensures var z := zone.Data(); out == RrsetRecords(n, t, z.TtlOf(n, t), z.Rrset(n, t)) + SigRecords(z, n, t)
  {
    out := [];
    var rds, ttl := zone.records[n][t], zone.Data().TtlOf(n, t);
    for k := 0 to |rds|
      invariant out + RrsetRecords(n, t, ttl, rds[k..]) == RrsetRecords(n, t, ttl, rds)
    {
      out := out + [RR(n, t, CLASS_IN, ttl, rds[k])];
    }
    if (n, t) in zone.rrsigs {
      out := out + [RR(n, TYPE_RRSIG, CLASS_IN, ttl, zone.rrsigs[(n, t)])];
    }
  }

  /** The records of one owner, type by type. */
  method OwnerRecords(zone: Zone, n: Name) returns (out: seq<RR>)
    requires n in zone.records
    ensures out == TypeRecords(zone.Data(), n, SortedTypes(zone.Data().NodeOf(n).Keys))
  {
    ghost var z := zone.Data();
    out := [];
    var types := SortedTypes(zone.records[n].Keys);
    for j := 0 to |types|
      invariant out + TypeRecords(z, n, types[j..]) == TypeRecords(z, n, types)
    {
      TypeRecordsAt(z, n, types, j, out);
      if !(n == zone.origin && types[j] == TYPE_SOA) {
        var part := OneType(zone, n, types[j]);
        out := out + part;
      }
    }
  }

  method AllOwners(zone: Zone, owners: seq<Name>) returns (body: seq<RR>)
    requires forall n | n in owners :: n in zone.records
    ensures body == NodeRecords(zone.Data(), owners)
  {
    ghost var z := zone.Data();
    body := [];
    for i := 0 to |owners|
      invariant body + NodeRecords(z, owners[i..]) == NodeRecords(z, owners)
    {
      NodeRecordsAt(z, owners, i, body);
      var part := OwnerRecords(zone, owners[i]);
      body := body + part;
    }
  }

  method AxfrRecords(zone: Zone) returns (out: seq<RR>, ghost names: seq<Name>)
    requires zone.Data().Soa().Some?
    ensures Lists(names, zone.records.Keys)
    ensures out == AxfrStream(zone.Data(), names)
  {
    var soa := SoaRR(zone.Data());
    var owners := zone.Names();
    names := owners;
    var body := AllOwners(zone, owners);
    out := [soa] + body;
    if (zone.origin, TYPE_SOA) in zone.rrsigs {
      out := out + [RR(zone.origin, TYPE_RRSIG, CLASS_IN, zone.Data().TtlOf(zone.origin, TYPE_SOA),
                       zone.rrsigs[(zone.origin, TYPE_SOA)])];
    }
    out := out + [soa];
  }

  /** The journal from `client` to now, or None when it does not reach back. */
  function JournalDelta(journal: seq<Step>, client: nat): Option<seq<Step>> {
    if journal == [] then None
    else if journal[0].from == client then Some(journal)
    else JournalDelta(journal[1..], client)
  }

  function DeltaSteps(z: ZoneData, delta: seq<Step>): seq<RR>
    requires z.Soa().Some? && z.Soa().value.SoaData?
  {
    if delta == [] then []
    else [SoaSerialRR(z, delta[0].from)] + delta[0].dels
         + [SoaSerialRR(z, delta[0].to)] + delta[0].adds + DeltaSteps(z, delta[1..])
  }

  function DeltaStream(z: ZoneData, delta: seq<Step>): seq<RR>
    requires z.Soa().Some? && z.Soa().value.SoaData?
  {
    [SoaRR(z)] + DeltaSteps(z, delta) + [SoaRR(z)]
  }

  method IxfrRecords(zone: Zone, delta: seq<Step>) returns (out: seq<RR>)
    requires zone.Data().Soa().Some? && zone.Data().Soa().value.SoaData?
    ensures out == DeltaStream(zone.Data(), delta)
  {
    ghost var z := zone.Data();
    out := [SoaRR(zone.Data())];
    for i := 0 to |delta|
      invariant out + DeltaSteps(z, delta[i..]) == [SoaRR(z)] + DeltaSteps(z, delta)
    {
      out := out + [SoaSerialRR(zone.Data(), delta[i].from)];
      out := out + delta[i].dels;
      out := out + [SoaSerialRR(zone.Data(), delta[i].to)];
      out := out + delta[i].adds;
    }
    out := out + [SoaRR(zone.Data())];
  }

  /** The record stream that answers an IXFR from a client at `client`. */
  function IxfrStream(z: ZoneData, names: seq<Name>, client: nat): seq<RR>
    requires z.Soa().Some? && z.Soa().value.SoaData?
  {
    if !SerialGt(z.Serial(), client) then [SoaRR(z)]
    else if z.signed || JournalDelta(z.journal, client).None? then AxfrStream(z, names)
    else DeltaStream(z, JournalDelta(z.journal, client).value)
  }

  // ---- Framing ----

  datatype Message = Message(aa: bool, answers: seq<RR>)

  function Answers(msgs: seq<Message>): seq<RR> {
    if msgs == [] then [] else msgs[0].answers + Answers(msgs[1..])
  }

  lemma {:induction false} AnswersAppend(a: seq<Message>, b: seq<Message>)
    ensures Answers(a + b) == Answers(a) + Answers(b)
  {
    if a != [] {
      AnswersAppend(a[1..], b);
      assert (a + b)[1..] == a[1..] + b;
      assert (a + b)[0] == a[0];
    } else {
      assert a + b == b;
    }
  }

  predicate Fits(size: seq<RR> -> nat, m: Message) {
    && m.aa
    && 1 <= |m.answers| <= RRS_PER_MSG
    && (|m.answers| == 1 || size(m.answers) <= MAX_MSG_BYTES)
  }

  /** The first two and the first three records each fit one envelope. */
  predicate HeadFits(size: seq<RR> -> nat, records: seq<RR>) {
    && |records| >= 2
    && size(records[..2]) <= MAX_MSG_BYTES
    && (|records| >= 3 ==> size(records[..3]) <= MAX_MSG_BYTES)
  }

  lemma WholeHead(size: seq<RR> -> nat, batch: seq<RR>)
    requires HeadFits(size, batch) && |batch| <= 3
    ensures size(batch) <= MAX_MSG_BYTES
  {
    assert if |batch| == 2 then batch[..2] == batch else batch[..3] == batch;
  }

  /** `_flush`: emits the batch, halved until each part fits the wire. */
  method Flush(batch: seq<RR>, size: seq<RR> -> nat) returns (msgs: seq<Message>)
    requires 1 <= |batch| <= RRS_PER_MSG
    ensures Answers(msgs) == batch && msgs != []
    ensures forall m | m in msgs :: Fits(size, m)
    ensures HeadFits(size, batch) ==> |msgs[0].answers| >= 2
    decreases |batch|
  {
    var m := Message(true, batch);
    if |batch| == 1 || size(batch) <= MAX_MSG_BYTES {
      assert Answers([m]) == m.answers + Answers([]);
      return [m];
    }
    var half := |batch| / 2;
    var left := Flush(batch[..half], size);
    var right := Flush(batch[half..], size);
    AnswersAppend(left, right);
    assert batch[..half] + batch[half..] == batch;
    if HeadFits(size, batch) {
      if |batch| <= 3 {
        WholeHead(size, batch);
      }
      assert half >= 2 ==> batch[..half][..2] == batch[..2];
      assert half >= 3 ==> batch[..half][..3] == batch[..3];
    }
    return left + right;
  }

  /** What has been framed so far: the first `done` records. */
  ghost predicate Framed(size: seq<RR> -> nat, records: seq<RR>, done: nat, msgs: seq<Message>) {
    && done <= |records|
    && Answers(msgs) == records[..done]
    && (msgs == [] <==> done == 0)
    && (forall m | m in msgs :: Fits(size, m))
    && (HeadFits(size, records) && msgs != [] ==> |msgs[0].answers| >= 2)
  }

  lemma {:induction false} FramedGrows(size: seq<RR> -> nat, records: seq<RR>, done: nat, i: nat,
                                       msgs: seq<Message>, out: seq<Message>)
    requires Framed(size, records, done, msgs) && done < i <= |records|
    requires i - done == RRS_PER_MSG || i == |records|
    requires Answers(out) == records[done..i] && out != []
    requires forall m | m in out :: Fits(size, m)
    requires HeadFits(size, records[done..i]) ==> |out[0].answers| >= 2
    ensures Framed(size, records, i, msgs + out)
  {
    AnswersAppend(msgs, out);
    assert records[..done] + records[done..i] == records[..i];
    if HeadFits(size, records) && msgs == [] {
      assert records[done..i][..2] == records[..2];
      assert i >= 3 ==> records[done..i][..3] == records[..3];
    }
  }

  /** `_chunk_into_messages`. */
  method ChunkIntoMessages(records: seq<RR>, size: seq<RR> -> nat) returns (msgs: seq<Message>)
    ensures Answers(msgs) == records && msgs != []
    ensures records != [] ==> forall m | m in msgs :: Fits(size, m)
    ensures HeadFits(size, records) ==> |msgs[0].answers| >= 2
  {
    msgs := [];
    var batch := [];
    ghost var done := 0;
    for i := 0 to |records|
      invariant done <= i && i - done < RRS_PER_MSG && batch == records[done..i]
      invariant Framed(size, records, done, msgs)
    {
      batch := batch + [records[i]];
      assert batch == records[done..i + 1];
      if |batch| < RRS_PER_MSG {
        continue;
      }
      var out := Flush(batch, size);
      FramedGrows(size, records, done, i + 1, msgs, out);
      msgs, batch, done := msgs + out, [], i + 1;
    }
    if batch != [] {
      var out := Flush(batch, size);
      FramedGrows(size, records, done, |records|, msgs, out);
      msgs, done := msgs + out, |records|;
    }
    assert records[..|records|] == records;
    if records == [] {
      msgs := [Message(false, [])];
    }
  }

  method AxfrMessages(zone: Zone, size: seq<RR> -> nat) returns (msgs: seq<Message>, ghost names: seq<Name>)
    requires zone.Data().Soa().Some?
    ensures Lists(names, zone.records.Keys)
    ensures Answers(msgs) == AxfrStream(zone.Data(), names) && msgs != []
    ensures forall m | m in msgs :: Fits(size, m)
    ensures HeadFits(size, Answers(msgs)) ==> |msgs[0].answers| >= 2
  {
    var records;
    records, names := AxfrRecords(zone);
    msgs := ChunkIntoMessages(records, size);
  }

  method IxfrMessages(zone: Zone, client: nat, size: seq<RR> -> nat)
    returns (msgs: seq<Message>, ghost names: seq<Name>)
    requires zone.Data().Soa().Some? && zone.Data().Soa().value.SoaData?
    ensures Lists(names, zone.records.Keys)
    ensures Answers(msgs) == IxfrStream(zone.Data(), names, client) && msgs != []
    ensures forall m | m in msgs :: Fits(size, m)
    ensures HeadFits(size, Answers(msgs)) ==> |msgs[0].answers| >= 2
  {
    if !SerialGt(zone.Data().Serial(), client) {
      names := zone.Names();
      var m := Message(true, [SoaRR(zone.Data())]);
      assert Answers([m]) == m.answers + Answers([]);
      return [m], names;
    }
    if zone.signed || JournalDelta(zone.journal, client).None? {
      msgs, names := AxfrMessages(zone, size);
    } else {
      names := zone.Names();
      var records := IxfrRecords(zone, JournalDelta(zone.journal, client).value);
      msgs := ChunkIntoMessages(records, size);
    }
  }

  // ---- Receiving ----

  predicate IsSoa(rr: RR) {
    rr.rtype == TYPE_SOA && rr.rdata.SoaData?
  }

  function CountSerial(records: seq<RR>, serial: nat): nat {
    if records == [] then 0
    else (if IsSoa(records[0]) && records[0].rdata.serial == serial then 1 else 0) + CountSerial(records[1..], serial)
  }

  predicate IxfrComplete(records: seq<RR>) {
    if records == [] || !IsSoa(records[0]) then false
    else
      var first := records[0].rdata.serial;
      var n := CountSerial(records, first);
      if |records| == 1 then true
      else if !IsSoa(records[|records| - 1]) then false
      else if IsSoa(records[1]) && records[1].rdata.serial != first then n >= 3
      else n >= 2
  }

  /** The receive loop of `transfer_records`: envelopes are added up until the
    * records look complete. Running out of envelopes is a failed transfer. */
  function Receive(msgs: seq<Message>, records: seq<RR>): Result<seq<RR>>
    decreases |msgs|
  {
    if IxfrComplete(records) then Ok(records)
    else if msgs == [] then Err("connection closed")
    else if records + msgs[0].answers == [] then Err("empty transfer")
    else Receive(msgs[1..], records + msgs[0].answers)
  }

  /** The ceilings of one transfer. */
  datatype Limits = Limits(records: nat, octets: nat, envelopes: nat)

  /** The same loop under its ceilings, checked before each envelope: `size` is how many
    * octets an envelope has, `late` whether time is up before the next one. */
  function ReceiveWithin(lim: Limits, size: Message -> nat, late: nat -> bool,
                         msgs: seq<Message>, records: seq<RR>, octets: nat, envelopes: nat): Result<seq<RR>>
    decreases |msgs|
  {
    if IxfrComplete(records) then Ok(records)
    else if |records| > lim.records || octets > lim.octets || envelopes > lim.envelopes || late(envelopes) then
      Err("exceeded its limits")
    else if msgs == [] then Err("connection closed")
    else if records + msgs[0].answers == [] then Err("empty transfer")
    else ReceiveWithin(lim, size, late, msgs[1..], records + msgs[0].answers, octets + size(msgs[0]), envelopes + 1)
  }

  /** `transfer_records` on the envelopes of the connection. */
  method TransferRecords(lim: Limits, size: Message -> nat, late: nat -> bool, msgs: seq<Message>)
    returns (r: Result<seq<RR>>)
    ensures r == ReceiveWithin(lim, size, late, msgs, [], 0, 0)
  {
    hide IxfrComplete;
    var records: seq<RR>, octets: nat, i: nat := [], 0, 0;
    while !IxfrComplete(records)
      invariant 0 <= i <= |msgs|
      invariant ReceiveWithin(lim, size, late, msgs, [], 0, 0) == ReceiveWithin(lim, size, late, msgs[i..], records, octets, i)
      decreases |msgs| - i
    {
      if |records| > lim.records || octets > lim.octets || i > lim.envelopes || late(i) {
        return Err("exceeded its limits");
      }
      if i == |msgs| {
        return Err("connection closed");
      }
      records := records + msgs[i].answers;
      octets := octets + size(msgs[i]);
      i := i + 1;
      if records == [] {
        return Err("empty transfer");
      }
    }
    return Ok(records);
  }

  function Octets(size: Message -> nat, msgs: seq<Message>): nat {
    if msgs == [] then 0 else size(msgs[0]) + Octets(size, msgs[1..])
  }

  /** The ceilings refuse transfers and do nothing else: what is received within them
    * is what is received without, and everything that stays under them is. */
  lemma {:induction false} LimitsOnlyRefuse(lim: Limits, size: Message -> nat, late: nat -> bool,
                                            msgs: seq<Message>, records: seq<RR>, octets: nat, envelopes: nat)
    ensures var within := ReceiveWithin(lim, size, late, msgs, records, octets, envelopes);
            within.Ok? ==> Receive(msgs, records) == within
    ensures && |records + Answers(msgs)| <= lim.records && octets + Octets(size, msgs) <= lim.octets
            && envelopes + |msgs| <= lim.envelopes && (forall k :: envelopes <= k <= envelopes + |msgs| ==> !late(k)) ==>
              ReceiveWithin(lim, size, late, msgs, records, octets, envelopes) == Receive(msgs, records)
    decreases |msgs|
  {
    hide IxfrComplete;
    if msgs != [] {
      assert records + Answers(msgs) == (records + msgs[0].answers) + Answers(msgs[1..]);
      LimitsOnlyRefuse(lim, size, late, msgs[1..], records + msgs[0].answers, octets + size(msgs[0]), envelopes + 1);
    }
  }

  /** What has come before envelope `j` is not all, and is within every ceiling. */
  ghost predicate GoesOn(lim: Limits, size: Message -> nat, late: nat -> bool, msgs: seq<Message>, j: nat,
                         records: seq<RR>, octets: nat, envelopes: nat)
    requires j < |msgs|
  {
    && !IxfrComplete(records + Answers(msgs[..j]))
    && records + Answers(msgs[..j + 1]) != []
    && |records + Answers(msgs[..j])| <= lim.records
    && octets + Octets(size, msgs[..j]) <= lim.octets
    && envelopes + j <= lim.envelopes && !late(envelopes + j)
  }

  lemma {:induction false} GoesOnLater(lim: Limits, size: Message -> nat, late: nat -> bool, msgs: seq<Message>, j: nat,
                                       records: seq<RR>, octets: nat, envelopes: nat)
    requires 1 <= j < |msgs|
    ensures GoesOn(lim, size, late, msgs, j, records, octets, envelopes) <==>
            GoesOn(lim, size, late, msgs[1..], j - 1, records + msgs[0].answers, octets + size(msgs[0]), envelopes + 1)
  {
    hide IxfrComplete;
    AnswersSplit(msgs, j, records);
    AnswersSplit(msgs, j + 1, records);
    assert msgs[..j][1..] == msgs[1..][..j - 1];
  }

  lemma {:induction false} AnswersSplit(msgs: seq<Message>, j: nat, records: seq<RR>)
    requires 1 <= j <= |msgs|
    ensures records + Answers(msgs[..j]) == (records + msgs[0].answers) + Answers(msgs[1..][..j - 1])
  {
    assert msgs[..j][0] == msgs[0] && msgs[..j][1..] == msgs[1..][..j - 1];
  }

  /** `r` is what the first `k` envelopes carry, the first that make a whole transfer,
    * and each of them was taken within every ceiling. */
  ghost predicate TakenIn(lim: Limits, size: Message -> nat, late: nat -> bool, msgs: seq<Message>, k: int, r: seq<RR>,
                          records: seq<RR>, octets: nat, envelopes: nat)
  {
    && 0 <= k <= |msgs| && r == records + Answers(msgs[..k]) && IxfrComplete(r)
    && forall j | 0 <= j < k :: GoesOn(lim, size, late, msgs, j, records, octets, envelopes)
  }

  lemma {:induction false} TakenLater(lim: Limits, size: Message -> nat, late: nat -> bool, msgs: seq<Message>, k: nat, r: seq<RR>,
                                      records: seq<RR>, octets: nat, envelopes: nat)
    requires msgs != [] && GoesOn(lim, size, late, msgs, 0, records, octets, envelopes)
    ensures TakenIn(lim, size, late, msgs, k + 1, r, records, octets, envelopes) <==>
            TakenIn(lim, size, late, msgs[1..], k, r, records + msgs[0].answers, octets + size(msgs[0]), envelopes + 1)
  {
    hide IxfrComplete, GoesOn;
    if k < |msgs| {
      AnswersSplit(msgs, k + 1, records);
      var later, more, size1, envelopes1 := msgs[1..], records + msgs[0].answers, octets + size(msgs[0]), envelopes + 1;
      forall j | 0 <= j < k
        ensures TakenIn(lim, size, late, msgs, k + 1, r, records, octets, envelopes) ==>
                GoesOn(lim, size, late, later, j, more, size1, envelopes1)
      {
        var i := j + 1;
        assert TakenIn(lim, size, late, msgs, k + 1, r, records, octets, envelopes) ==>
               GoesOn(lim, size, late, msgs, i, records, octets, envelopes);
        GoesOnLater(lim, size, late, msgs, i, records, octets, envelopes);
      }
      forall i | 0 < i < k + 1
        ensures TakenIn(lim, size, late, later, k, r, more, size1, envelopes1) ==>
                GoesOn(lim, size, late, msgs, i, records, octets, envelopes)
      {
        var j := i - 1;
        assert TakenIn(lim, size, late, later, k, r, more, size1, envelopes1) ==>
               GoesOn(lim, size, late, later, j, more, size1, envelopes1);
        GoesOnLater(lim, size, late, msgs, i, records, octets, envelopes);
      }
    }
  }

  lemma {:induction false} GoesOnFirst(lim: Limits, size: Message -> nat, late: nat -> bool, msgs: seq<Message>,
                                       records: seq<RR>, octets: nat, envelopes: nat)
    requires msgs != []
    ensures GoesOn(lim, size, late, msgs, 0, records, octets, envelopes) <==>
            && !IxfrComplete(records) && records + msgs[0].answers != [] && |records| <= lim.records
            && octets <= lim.octets && envelopes <= lim.envelopes && !late(envelopes)
  {
    hide IxfrComplete;
    assert msgs[..1] == [msgs[0]] && Answers([msgs[0]]) == msgs[0].answers + Answers([]);
    assert records + Answers(msgs[..0]) == records;
  }

  /** A transfer is received if and only if some of the first envelopes make it whole
    * and before each of them, the last included, the records, the octets, the
    * envelopes and the time were within the ceilings. */
  lemma {:induction false} ReceivedExactly(lim: Limits, size: Message -> nat, late: nat -> bool, msgs: seq<Message>, r: seq<RR>,
                                           records: seq<RR>, octets: nat, envelopes: nat)
    ensures ReceiveWithin(lim, size, late, msgs, records, octets, envelopes) == Ok(r) <==>
            exists k :: TakenIn(lim, size, late, msgs, k, r, records, octets, envelopes)
    decreases |msgs|
  {
    hide IxfrComplete, GoesOn;
    assert records + Answers(msgs[..0]) == records;
    if msgs != [] {
      GoesOnFirst(lim, size, late, msgs, records, octets, envelopes);
      if GoesOn(lim, size, late, msgs, 0, records, octets, envelopes) {
        var later, more, size1, envelopes1 := msgs[1..], records + msgs[0].answers, octets + size(msgs[0]), envelopes + 1;
        ReceivedExactly(lim, size, late, later, r, more, size1, envelopes1);
        if k :| TakenIn(lim, size, late, later, k, r, more, size1, envelopes1) {
          TakenLater(lim, size, late, msgs, k, r, records, octets, envelopes);
        }
        if k :| TakenIn(lim, size, late, msgs, k, r, records, octets, envelopes) {
          assert k != 0;
          TakenLater(lim, size, late, msgs, k - 1, r, records, octets, envelopes);
        }
      } else if IxfrComplete(records) && r == records {
        assert TakenIn(lim, size, late, msgs, 0, r, records, octets, envelopes);
      }
    } else if IxfrComplete(records) && r == records {
      assert TakenIn(lim, size, late, msgs, 0, r, records, octets, envelopes);
    }
  }

  function LoadRecord(z: ZoneData, seenSoa: bool, rr: RR): (ZoneData, bool) {
    if rr.rtype == TYPE_SOA then
      (if seenSoa then z else z.Add(rr.name, rr.rtype, rr.rdata, rr.ttl), true)
    else if rr.rtype == TYPE_RRSIG && rr.rdata.SigData? then
      (z.(rrsigs := z.rrsigs[(rr.name, rr.rdata.covered) := rr.rdata], signed := true), seenSoa)
    else (z.Add(rr.name, rr.rtype, rr.rdata, rr.ttl), seenSoa)
  }

  function Load(z: ZoneData, seenSoa: bool, records: seq<RR>): ZoneData
    decreases |records|
  {
    if records == [] then z
    else
      var (z', seen') := LoadRecord(z, seenSoa, records[0]);
      Load(z', seen', records[1..])
  }

  method ZoneFromRecords(records: seq<RR>, origin: Name) returns (zone: Zone)
    requires forall rr | rr in records :: WellTyped(rr)
    ensures fresh(zone) && zone.Data() == Load(EmptyZone(origin), false, records)
  {
    zone := new Zone(origin);
    var seenSoa := false;
    for i := 0 to |records|
      invariant fresh(zone)
      invariant Load(EmptyZone(origin), false, records) == Load(zone.Data(), seenSoa, records[i..])
    {
      var rr := records[i];
      assert rr in records;
      if rr.rtype == TYPE_SOA {
        if !seenSoa {
          zone.Add(rr.name, rr.rtype, rr.rdata, rr.ttl);
          seenSoa := true;
        }
        continue;
      }
      if rr.rtype == TYPE_RRSIG {
        zone.rrsigs := zone.rrsigs[(rr.name, rr.rdata.covered) := rr.rdata];
        zone.signed := true;
        continue;
      }
      zone.Add(rr.name, rr.rtype, rr.rdata, rr.ttl);
    }
  }

  function Remove(z: ZoneData, rr: RR): ZoneData {
    if rr.rtype !in z.NodeOf(rr.name) then z
    else z.SetRrset(rr.name, rr.rtype, Without(z.Rrset(rr.name, rr.rtype), rr.rdata))
  }

  /** `_remove_rr`. */
  method RemoveRR(zone: Zone, rr: RR)
    modifies zone
    ensures zone.Data() == Remove(old(zone.Data()), rr)
  {
    var node: Node := if rr.name in zone.records then zone.records[rr.name] else map[];
    if rr.rtype !in node {
      return;
    }
    var keep := KeepOthers(node[rr.rtype], rr.rdata);
    if keep != [] {
      node := node[rr.rtype := keep];
      assert rr.rtype in node;
      zone.records := zone.records[rr.name := node];
    } else {
      node := node - {rr.rtype};
      zone.records := if node == map[] then zone.records - {rr.name} else zone.records[rr.name := node];
    }
  }

  /** What is left from the first SOA on. */
  function FromSoa(records: seq<RR>): (rest: seq<RR>)
    ensures |rest| <= |records|
  {
    if records == [] || IsSoa(records[0]) then records else FromSoa(records[1..])
  }

  function RemoveRun(z: ZoneData, records: seq<RR>): ZoneData
    decreases |records|
  {
    if records == [] || IsSoa(records[0]) then z else RemoveRun(Remove(z, records[0]), records[1..])
  }

  function AddRR(z: ZoneData, rr: RR): ZoneData {
    z.Add(rr.name, rr.rtype, rr.rdata, rr.ttl)
  }

  function AddRun(z: ZoneData, records: seq<RR>): ZoneData
    decreases |records|
  {
    if records == [] || IsSoa(records[0]) then z else AddRun(AddRR(z, records[0]), records[1..])
  }

  /** The step loop of `apply_ixfr`, on the records not read yet. */
  function ApplyDelta(z: ZoneData, records: seq<RR>, serial: nat): Result<ZoneData>
    decreases |records|
  {
    if records == [] || (IsSoa(records[0]) && records[0].rdata.serial == serial) then Ok(z)
    else
      var dels := records[1..];
      if FromSoa(dels) == [] then Err("truncated IXFR delta")
      else
        var adds := FromSoa(dels)[1..];
        ApplyDelta(AddRun(RemoveRun(z, dels), adds), FromSoa(adds), serial)
  }

  function ApplyIxfr(current: Option<ZoneData>, records: seq<RR>, origin: Name): Result<ZoneData> {
    if records == [] || !IsSoa(records[0]) then Err("malformed transfer: no leading SOA")
    else if |records| == 1 then
      if current.None? then Err("up-to-date reply but no current zone held") else Ok(current.value)
    else if !IsSoa(records[1]) || records[1].rdata.serial == records[0].rdata.serial then
      Ok(Load(EmptyZone(origin), false, records))
    else if current.None? then Err("received a delta but hold no zone to apply it to")
    else
      match ApplyDelta(current.value, records[1..], records[0].rdata.serial)
      case Err(e) => Err(e)
      case Ok(z) =>
        if z.Soa().None? then Err("delta removed the SOA")
        else Ok(z.WithSerial(records[0].rdata.serial))
  }

  function DataOf(zone: Zone?): Option<ZoneData>
    reads zone
  {
    if zone == null then None else Some(zone.Data())
  }

  /** `j` is where the first SOA at or after `i` stands, or the end. */
  ghost predicate FirstSoa(records: seq<RR>, i: nat, j: nat) {
    && i <= j <= |records|
    && (forall k | i <= k < j :: !IsSoa(records[k]))
    && (j < |records| ==> IsSoa(records[j]))
  }

  lemma {:induction false} FromSoaIndex(records: seq<RR>, i: nat, j: nat)
    requires FirstSoa(records, i, j)
    ensures FromSoa(records[i..]) == records[j..]
    decreases j - i
  {
    if i < j {
      FromSoaIndex(records, i + 1, j);
      assert records[i..][1..] == records[i + 1..];
    }
  }

  /** The deletions, and the additions, at indices `i` up to `j`. */
  function RemoveRange(z: ZoneData, records: seq<RR>, i: nat, j: nat): ZoneData
    requires i <= j <= |records|
    decreases j
  {
    if i == j then z else Remove(RemoveRange(z, records, i, j - 1), records[j - 1])
  }

  function AddRange(z: ZoneData, records: seq<RR>, i: nat, j: nat): ZoneData
    requires i <= j <= |records|
    decreases j
  {
    if i == j then z else AddRR(AddRange(z, records, i, j - 1), records[j - 1])
  }

  lemma {:induction false} RangeFromFront(z: ZoneData, records: seq<RR>, i: nat, j: nat)
    requires i < j <= |records|
    ensures RemoveRange(z, records, i, j) == RemoveRange(Remove(z, records[i]), records, i + 1, j)
    ensures AddRange(z, records, i, j) == AddRange(AddRR(z, records[i]), records, i + 1, j)
    decreases j
  {
    if i + 1 < j {
      RangeFromFront(z, records, i, j - 1);
    } else {
      assert RemoveRange(z, records, i, i) == z && AddRange(z, records, i, i) == z;
    }
  }

  lemma {:induction false} RunsAreRanges(z: ZoneData, records: seq<RR>, i: nat, j: nat)
    requires FirstSoa(records, i, j)
    ensures RemoveRun(z, records[i..]) == RemoveRange(z, records, i, j)
    ensures AddRun(z, records[i..]) == AddRange(z, records, i, j)
    decreases j - i
  {
    if i < j {
      RangeFromFront(z, records, i, j);
      RunsAreRanges(Remove(z, records[i]), records, i + 1, j);
      RunsAreRanges(AddRR(z, records[i]), records, i + 1, j);
      assert records[i..][1..] == records[i + 1..];
    }
  }

  /** Neither section of a step touches an SOA. */
  lemma {:induction false} RunsKeepSoa(z: ZoneData, records: seq<RR>, n: Name)
    requires forall i | 0 <= i < |records| :: WellTyped(records[i])
    ensures RemoveRun(z, records).origin == AddRun(z, records).origin == z.origin
    ensures RemoveRun(z, records).Rrset(n, TYPE_SOA) == z.Rrset(n, TYPE_SOA)
    ensures AddRun(z, records).Rrset(n, TYPE_SOA) == z.Rrset(n, TYPE_SOA)
    decreases |records|
  {
    if records != [] && !IsSoa(records[0]) {
      var rr := records[0];
      RrsetOfSet(z, rr.name, rr.rtype, Without(z.Rrset(rr.name, rr.rtype), rr.rdata), n, TYPE_SOA);
      RrsetOfSet(z, rr.name, rr.rtype, z.Rrset(rr.name, rr.rtype) + [rr.rdata], n, TYPE_SOA);
      RunsKeepSoa(Remove(z, rr), records[1..], n);
      RunsKeepSoa(AddRR(z, rr), records[1..], n);
    }
  }

  /** One turn of the step loop, from the deletions at `i + 1` to the SOA at `k`. */
  lemma {:induction false} StepRead(z: ZoneData, records: seq<RR>, i: nat, j: nat, k: nat, serial: nat)
    requires i < |records| && !(IsSoa(records[i]) && records[i].rdata.serial == serial)
    requires FirstSoa(records, i + 1, j) && j < |records| && FirstSoa(records, j + 1, k)
    ensures ApplyDelta(z, records[i..], serial) ==
            ApplyDelta(AddRun(RemoveRun(z, records[i + 1..]), records[j + 1..]), records[k..], serial)
  {
    var rest, dels := records[i..], records[i + 1..];
    assert rest[0] == records[i] && rest[1..] == dels;
    FromSoaIndex(records, i + 1, j);
    assert records[j..][1..] == records[j + 1..];
    FromSoaIndex(records, j + 1, k);
    OneTurn(z, rest, serial);
  }

  lemma {:induction false} OneTurn(z: ZoneData, rest: seq<RR>, serial: nat)
    requires rest != [] && !(IsSoa(rest[0]) && rest[0].rdata.serial == serial)
    ensures var dels := rest[1..];
            ApplyDelta(z, rest, serial) ==
            if FromSoa(dels) == [] then Err("truncated IXFR delta")
            else ApplyDelta(AddRun(RemoveRun(z, dels), FromSoa(dels)[1..]), FromSoa(FromSoa(dels)[1..]), serial)
  {
  }

  lemma {:induction false} FromSoaIsPart(records: seq<RR>)
    ensures forall rr :: rr in FromSoa(records) ==> rr in records
  {
    if records != [] && !IsSoa(records[0]) {
      FromSoaIsPart(records[1..]);
    }
  }

  /** Reading the steps of a delta never touches an SOA. */
  lemma {:induction false} DeltaKeepsSoa(z: ZoneData, records: seq<RR>, serial: nat, n: Name)
    requires forall rr | rr in records :: WellTyped(rr)
    ensures var r := ApplyDelta(z, records, serial);
            r.Ok? ==> r.value.origin == z.origin && r.value.Rrset(n, TYPE_SOA) == z.Rrset(n, TYPE_SOA)
    decreases |records|
  {
    if records != [] && !(IsSoa(records[0]) && records[0].rdata.serial == serial) {
      var dels := records[1..];
      FromSoaIsPart(dels);
      if FromSoa(dels) != [] {
        var adds := FromSoa(dels)[1..];
        assert forall i | 0 <= i < |adds| :: adds[i] in FromSoa(dels);
        assert forall i | 0 <= i < |dels| :: dels[i] in records;
        FromSoaIsPart(adds);
        RunsKeepSoa(z, dels, n);
        RunsKeepSoa(RemoveRun(z, dels), adds, n);
        DeltaKeepsSoa(AddRun(RemoveRun(z, dels), adds), FromSoa(adds), serial, n);
      }
    }
  }

  lemma {:induction false} StepTruncated(z: ZoneData, records: seq<RR>, i: nat, serial: nat)
    requires i < |records| && !(IsSoa(records[i]) && records[i].rdata.serial == serial)
    requires FirstSoa(records, i + 1, |records|)
    ensures ApplyDelta(z, records[i..], serial).Err?
  {
    FromSoaIndex(records, i + 1, |records|);
    assert records[i..][1..] == records[i + 1..];
    OneTurn(z, records[i..], serial);
  }

  /** One turn of the step loop, in place on `z`; false when the delta is cut short. */
  method OneStep(z: Zone, records: seq<RR>, i: nat, serial: nat) returns (ok: bool, k: nat)
    requires i < |records| && !(IsSoa(records[i]) && records[i].rdata.serial == serial)
    requires forall rr | rr in records :: WellTyped(rr)
    modifies z
    ensures i < k <= |records|
    ensures ok ==> ApplyDelta(old(z.Data()), records[i..], serial) == ApplyDelta(z.Data(), records[k..], serial)
    ensures !ok ==> ApplyDelta(old(z.Data()), records[i..], serial).Err?
  {
    hide ApplyDelta, FirstSoa, RemoveRun, AddRun, WellTyped;
    var j := RemoveSection(z, records, i + 1);
    if j >= |records| {
      StepTruncated(old(z.Data()), records, i, serial);
      return false, j;
    }
    k := AddSection(z, records, j + 1);
    StepRead(old(z.Data()), records, i, j, k, serial);
    return true, k;
  }

  /** The step loop. */
  method ApplySteps(z: Zone, records: seq<RR>, serial: nat) returns (ok: bool)
    requires forall rr | rr in records :: WellTyped(rr)
    modifies z
    ensures match ApplyDelta(old(z.Data()), records, serial)
            case Err(_) => !ok
            case Ok(data) => ok && z.Data() == data
  {
    var i := 0;
    ok := true;
    assert records[0..] == records;
    while i < |records|
      invariant 0 <= i <= |records| && ok
      invariant ApplyDelta(z.Data(), records[i..], serial) == ApplyDelta(old(z.Data()), records, serial)
      decreases |records| - i
    {
      var rr := records[i];
      assert rr in records;
      if rr.rtype == TYPE_SOA && rr.rdata.serial == serial {
        break;
      }
      ok, i := OneStep(z, records, i, serial);
      if !ok {
        return;
      }
    }
  }

  method RemoveSection(z: Zone, records: seq<RR>, start: nat) returns (i: nat)
    requires start <= |records|
    requires forall rr | rr in records :: WellTyped(rr)
    modifies z
    ensures FirstSoa(records, start, i)
    ensures z.Data() == RemoveRun(old(z.Data()), records[start..])
  {
    i := start;
    while i < |records| && records[i].rtype != TYPE_SOA
      invariant start <= i <= |records|
      invariant z.Data() == RemoveRange(old(z.Data()), records, start, i)
      invariant forall k | start <= k < i :: !IsSoa(records[k])
    {
      RemoveRR(z, records[i]);
      i := i + 1;
    }
    assert i < |records| ==> records[i] in records;
    RunsAreRanges(old(z.Data()), records, start, i);
  }

  method AddSection(z: Zone, records: seq<RR>, start: nat) returns (i: nat)
    requires start <= |records|
    requires forall rr | rr in records :: WellTyped(rr)
    modifies z
    ensures FirstSoa(records, start, i)
    ensures z.Data() == AddRun(old(z.Data()), records[start..])
  {
    i := start;
    while i < |records| && records[i].rtype != TYPE_SOA
      invariant start <= i <= |records|
      invariant z.Data() == AddRange(old(z.Data()), records, start, i)
      invariant forall k | start <= k < i :: !IsSoa(records[k])
    {
      var add := records[i];
      z.Add(add.name, add.rtype, add.rdata, add.ttl);
      i := i + 1;
    }
    assert i < |records| ==> records[i] in records;
    RunsAreRanges(old(z.Data()), records, start, i);
  }

  /** `apply_ixfr`. The zone held now is never modified: a delta goes to a copy. */
  method ApplyIxfrRecords(current: Zone?, records: seq<RR>, origin: Name) returns (r: Result<Zone>)
    requires forall rr | rr in records :: WellTyped(rr)
    requires current != null ==> SoaTyped(current.Data())
    ensures match ApplyIxfr(DataOf(current), records, origin)
            case Err(_) => r.Err?
            case Ok(z) => r.Ok? && r.value.Data() == z
    ensures r.Ok? && |records| > 1 ==> fresh(r.value)
  {
    assert forall i | 0 <= i < |records| :: records[i] in records;
    if records == [] || records[0].rtype != TYPE_SOA {
      return Err("malformed transfer: no leading SOA");
    }
    if |records| == 1 {
      if current == null {
        return Err("up-to-date reply but no current zone held");
      }
      return Ok(current);
    }
    if records[1].rtype != TYPE_SOA || records[1].rdata.serial == records[0].rdata.serial {
      var full := ZoneFromRecords(records, origin);
      return Ok(full);
    }
    if current == null {
      return Err("received a delta but hold no zone to apply it to");
    }
    var z := new Zone.Copy(current);
    var serial := records[0].rdata.serial;
    DeltaKeepsSoa(current.Data(), records[1..], serial, current.origin);
    var ok := ApplySteps(z, records[1..], serial);
    if !ok {
      return Err("truncated IXFR delta");
    }
    if z.Data().Soa().None? {
      return Err("delta removed the SOA");
    }
    z.SetSerial(serial);
    return Ok(z);
  }
}
