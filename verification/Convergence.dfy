// Replication converges: whatever run of updates a primary has been through,
// a secondary that holds one of its versions and pulls ends up with the zone
// the primary serves now.

module Convergence {
  import opened Wrappers
  import opened Dns
  import opened Zones
  import opened Updates
  import opened UpdateInvariants
  import opened Xfr
  import opened AxfrRoundTrip
  import opened DeltaReplay
  import opened StepReplay

  // ---- Serial arithmetic (RFC 1982 section 3.2) ----

  /** The comparison in the code is the circular one: newer by less than half the circle. */
  lemma {:induction false} SerialGtIsCircular(a: nat, b: nat)
    requires a < SERIAL_SPACE && b < SERIAL_SPACE
    ensures SerialGt(a, b) <==> 0 < (a - b) % SERIAL_SPACE < 0x8000_0000
  {
    if a >= b {
      assert (a - b) % SERIAL_SPACE == a - b;
    } else {
      assert (a - b) % SERIAL_SPACE == a - b + SERIAL_SPACE;
    }
  }

  function SerialAfter(serial: nat, bumps: nat): nat {
    (serial + bumps) % SERIAL_SPACE
  }

  lemma {:induction false} SerialsApart(serial: nat, i: nat, j: nat)
    requires serial < SERIAL_SPACE && i < j && j - i < SERIAL_SPACE
    ensures SerialAfter(serial, i) != SerialAfter(serial, j)
    ensures SerialGt(SerialAfter(serial, j), SerialAfter(serial, i)) <==> j - i < 0x8000_0000
  {
    var a, b := SerialAfter(serial, j), SerialAfter(serial, i);
    SerialGtIsCircular(a, b);
    CircularDistance(serial + i, j - i);
  }

  lemma {:induction false} CircularDistance(x: nat, d: nat)
    requires d < SERIAL_SPACE
    ensures ((x + d) % SERIAL_SPACE - x % SERIAL_SPACE) % SERIAL_SPACE == d
  {
    var r := x % SERIAL_SPACE;
    assert x == SERIAL_SPACE * (x / SERIAL_SPACE) + r;
    ModShift(x / SERIAL_SPACE, r + d);
    assert (x + d) % SERIAL_SPACE == (r + d) % SERIAL_SPACE;
  }

  lemma {:induction false} ModShift(q: nat, y: nat)
    ensures (SERIAL_SPACE * q + y) % SERIAL_SPACE == y % SERIAL_SPACE
  {
  }

  // ---- A stream looks complete once, at its end ----

  /** Apart from its first record alone, only the whole stream looks complete. */
  ghost predicate EndsOnce(stream: seq<RR>) {
    forall k :: 1 <= k <= |stream| ==> (IxfrComplete(stream[..k]) <==> k == 1 || k == |stream|)
  }

  lemma {:induction false} CountAppend(a: seq<RR>, b: seq<RR>, serial: nat)
    ensures CountSerial(a + b, serial) == CountSerial(a, serial) + CountSerial(b, serial)
  {
    if a == [] {
      assert a + b == b;
    } else {
      assert (a + b)[1..] == a[1..] + b;
      CountAppend(a[1..], b, serial);
    }
  }

  lemma CountNoSoa(a: seq<RR>, serial: nat)
    requires NoSoa(a)
    ensures CountSerial(a, serial) == 0
  {
    if a != [] {
      assert a[0] in a && forall rr :: rr in a[1..] ==> rr in a;
    }
  }

  /** An AXFR-style stream: the SOA, records that are not SOAs, the SOA. */
  lemma {:induction false} FullStreamEndsOnce(soa: RR, mid: seq<RR>)
    requires IsSoa(soa) && NoSoa(mid)
    ensures EndsOnce([soa] + mid + [soa])
  {
    var stream := [soa] + mid + [soa];
    var n := |stream|;
    forall k | 1 <= k <= n
      ensures IxfrComplete(stream[..k]) <==> k == 1 || k == n
    {
      if 1 < k < n {
        assert stream[..k][k - 1] == mid[k - 2] && mid[k - 2] in mid;
      } else if k == n {
        assert stream[..k] == stream;
        CountAppend([soa] + mid, [soa], soa.rdata.serial);
        CountAppend([soa], mid, soa.rdata.serial);
        assert stream[1] == soa || stream[1] in mid;
      }
    }
  }

  /** The steps of a delta whose last one, and only that, reaches `serial`. */
  ghost predicate LeadsTo(steps: seq<Step>, serial: nat) {
    && steps != []
    && (forall i :: 0 <= i < |steps| ==> NoSoa(steps[i].dels) && NoSoa(steps[i].adds) && steps[i].from != serial)
    && (forall i :: 0 <= i < |steps| ==> (steps[i].to == serial <==> i == |steps| - 1))
  }

  lemma {:induction false} LeadsToTail(steps: seq<Step>, serial: nat)
    requires LeadsTo(steps, serial) && |steps| > 1
    ensures LeadsTo(steps[1..], serial)
  {
    var tail := steps[1..];
    assert forall i :: 0 <= i < |tail| ==> tail[i] == steps[i + 1];
  }

  ghost predicate HasSoa(z: ZoneData) {
    z.Soa().Some? && z.Soa().value.SoaData?
  }

  /** One step of a delta as records. */
  function StepRecords(z: ZoneData, step: Step): seq<RR>
    requires HasSoa(z)
  {
    [SoaSerialRR(z, step.from)] + step.dels + [SoaSerialRR(z, step.to)] + step.adds
  }

  lemma {:induction false} DeltaCount(z: ZoneData, steps: seq<Step>)
    requires HasSoa(z) && LeadsTo(steps, z.Serial())
    ensures CountSerial(DeltaSteps(z, steps), z.Serial()) == 1
    decreases |steps|
  {
    var st, cur := steps[0], z.Serial();
    var a, b := [SoaSerialRR(z, st.from)], [SoaSerialRR(z, st.to)];
    CountAppend(a + st.dels + b + st.adds, DeltaSteps(z, steps[1..]), cur);
    CountAppend(a + st.dels + b, st.adds, cur);
    CountAppend(a + st.dels, b, cur);
    CountAppend(a, st.dels, cur);
    CountNoSoa(st.dels, cur);
    CountNoSoa(st.adds, cur);
    if |steps| > 1 {
      LeadsToTail(steps, cur);
      DeltaCount(z, steps[1..]);
    }
  }

  lemma {:induction false} PrefixOfBracketed(soa: RR, body: seq<RR>, k: nat)
    requires 1 < k < |body| + 2
    ensures ([soa] + body + [soa])[..k] == [soa] + body[..k - 1] && body == body[..k - 1] + body[k - 1..]
  {
  }

  lemma {:induction false} DeltaStreamEndsOnce(z: ZoneData, steps: seq<Step>)
    requires HasSoa(z) && LeadsTo(steps, z.Serial())
    ensures EndsOnce(DeltaStream(z, steps))
  {
    var soa, body, cur := SoaRR(z), DeltaSteps(z, steps), z.Serial();
    var stream := DeltaStream(z, steps);
    var n := |stream|;
    DeltaCount(z, steps);
    assert body[0] == SoaSerialRR(z, steps[0].from);
    forall k | 1 <= k <= n
      ensures IxfrComplete(stream[..k]) <==> k == 1 || k == n
    {
      if 1 < k < n {
        PrefixOfBracketed(soa, body, k);
        CountAppend([soa], body[..k - 1], cur);
        CountAppend(body[..k - 1], body[k - 1..], cur);
        assert stream[..k][1] == body[0];
      } else if k == n {
        assert stream[..k] == stream && stream[1] == body[0];
        CountAppend([soa] + body, [soa], cur);
        CountAppend([soa], body, cur);
      }
    }
  }

  // ---- The receive loop ----

  lemma {:induction false} ReceiveRest(msgs: seq<Message>, records: seq<RR>, stream: seq<RR>)
    requires EndsOnce(stream) && records + Answers(msgs) == stream && |records| >= 2
    requires forall m :: m in msgs ==> m.answers != []
    ensures Receive(msgs, records) == Ok(stream)
    decreases |msgs|
  {
    assert stream[..|records|] == records;
    if records != stream {
      assert (records + msgs[0].answers) + Answers(msgs[1..]) == records + Answers(msgs);
      ReceiveRest(msgs[1..], records + msgs[0].answers, stream);
    } else {
      assert stream[..|stream|] == stream;
    }
  }

  /** The loop returns the whole stream, unless the first envelope holds only
    * its first record: then it stops there, with just that record. */
  lemma {:induction false} ReceiveExact(msgs: seq<Message>, stream: seq<RR>)
    requires EndsOnce(stream) && Answers(msgs) == stream != []
    requires forall m :: m in msgs ==> m.answers != []
    ensures Receive(msgs, []) == Ok(if |msgs[0].answers| == 1 then stream[..1] else stream)
  {
    var first := msgs[0].answers;
    assert msgs[0] in msgs;
    assert [] + first == first == stream[..|first|];
    assert Receive(msgs, []) == Receive(msgs[1..], first);
    if |first| > 1 {
      ReceiveRest(msgs[1..], first, stream);
    }
  }

  // ---- Versions of a primary ----

  type Input = (UpdateMsg, UpdatePolicy)

  /** The distinct versions a run of messages takes a zone through, oldest first. */
  ghost function Versions(z: ZoneData, msgs: seq<Input>, sign: ZoneData -> ZoneData): seq<ZoneData>
    decreases |msgs|
  {
    if msgs == [] then [z]
    else
      var z' := ApplyUpdate(z, msgs[0].0, msgs[0].1, sign).0;
      (if z' == z then [] else [z]) + Versions(z', msgs[1..], sign)
  }

  /** Every message that is admitted adds no SOA. */
  ghost predicate SoaFreeRun(z: ZoneData, msgs: seq<Input>, sign: ZoneData -> ZoneData)
    decreases |msgs|
  {
    msgs == [] ||
    (&& (Admission(z, msgs[0].0, msgs[0].1) == NoError ==> AddsNoSoa(z, msgs[0].0.authority))
     && SoaFreeRun(ApplyUpdate(z, msgs[0].0, msgs[0].1, sign).0, msgs[1..], sign))
  }

  /** What a message leaves behind at a secondary that replays it, and what it leaves
    * of what was left before. */
  ghost function LeftOverBy(z: ZoneData, rrs: seq<RR>, left: iset<Item>): iset<Item> {
    iset k: Item | || DeletesAdded(Change(z, [], []), rrs, k.0, k.1, k.2)
                   || (k in left && !Holds(Updated(z, rrs).dels, k.0, k.1, k.2))
  }

  /** The records that a run leaves behind at a secondary that replays it: those
    * whose last deletion was by a message that had added them itself. */
  ghost function LeftOver(z: ZoneData, msgs: seq<Input>, sign: ZoneData -> ZoneData, left: iset<Item>): iset<Item>
    decreases |msgs|
  {
    if msgs == [] then left
    else
      var z' := ApplyUpdate(z, msgs[0].0, msgs[0].1, sign).0;
      LeftOver(z', msgs[1..], sign, if z' == z then left else LeftOverBy(z, msgs[0].0.authority, left))
  }

  /** Every message that is admitted deletes nothing it has added. */
  ghost predicate CleanRun(z: ZoneData, msgs: seq<Input>, sign: ZoneData -> ZoneData)
    decreases |msgs|
  {
    msgs == [] ||
    (&& (Admission(z, msgs[0].0, msgs[0].1) == NoError ==> CleanAll(Change(z, [], []), msgs[0].0.authority))
     && CleanRun(ApplyUpdate(z, msgs[0].0, msgs[0].1, sign).0, msgs[1..], sign))
  }

  /** `step` is the journal entry of a message that turned `p` into `q`. */
  ghost predicate Links(p: ZoneData, q: ZoneData, step: Step) {
    exists rrs :: LinkedBy(p, q, step, rrs)
  }

  ghost predicate LinkedBy(p: ZoneData, q: ZoneData, step: Step, rrs: seq<RR>) {
    AddsNoSoa(p, rrs) && q == Commit(Updated(p, rrs)) && step == StepOf(p, rrs)
  }

  /** A history: plain versions, each linked to the next by a step. */
  ghost predicate Chain(vs: seq<ZoneData>, steps: seq<Step>) {
    && |vs| == |steps| + 1
    && Plain(vs[0])
    && forall i :: 0 <= i < |steps| ==> LinkAt(vs, steps, i)
  }

  /** What a history leaves behind at a secondary that replays all of it. */
  ghost function HistoryLeft(vs: seq<ZoneData>, steps: seq<Step>, left: iset<Item>): iset<Item>
    requires |vs| == |steps| + 1
    decreases |steps|
  {
    if steps == [] then left else HistoryLeft(vs[1..], steps[1..], NextLeft(steps[0], vs[1], left))
  }

  ghost predicate LinkAt(vs: seq<ZoneData>, steps: seq<Step>, i: nat) {
    i < |steps| && i + 1 < |vs| && Links(vs[i], vs[i + 1], steps[i])
  }

  lemma {:induction false} LinkFacts(p: ZoneData, q: ZoneData, step: Step)
    requires Plain(p) && Links(p, q, step)
    ensures Plain(q) && q.origin == p.origin
    ensures step.from == p.Serial() && step.to == q.Serial() == NextSerial(p.Serial())
    ensures NoSoa(step.dels) && NoSoa(step.adds)
  {
    var rrs :| LinkedBy(p, q, step, rrs);
    CommitStaysPlain(p, rrs);
  }

  lemma {:induction false} LinkReplays(p: ZoneData, q: ZoneData, step: Step, s: ZoneData, left: iset<Item>)
    requires Plain(p) && Links(p, q, step) && SameBut(p, s, left)
    ensures SameBut(q, AddRun(RemoveRun(s, step.dels), step.adds), NextLeft(step, q, left))
  {
    var rrs :| LinkedBy(p, q, step, rrs);
    StepKeepsSameBut(p, rrs, s, left);
  }

  lemma {:induction false} ChainPlain(vs: seq<ZoneData>, steps: seq<Step>, i: nat)
    requires Chain(vs, steps) && i < |vs|
    ensures Plain(vs[i]) && vs[i].origin == vs[0].origin
  {
    hide Plain, Links, NoSoa;
    if i > 0 {
      ChainPlain(vs, steps, i - 1);
      assert LinkAt(vs, steps, i - 1);
      LinkFacts(vs[i - 1], vs[i], steps[i - 1]);
    }
  }

  lemma {:induction false} ChainStep(vs: seq<ZoneData>, steps: seq<Step>, i: nat)
    requires Chain(vs, steps) && i < |steps|
    ensures NoSoa(steps[i].dels) && NoSoa(steps[i].adds)
    ensures steps[i].from == vs[i].Serial() && steps[i].to == vs[i + 1].Serial() == NextSerial(vs[i].Serial())
  {
    ChainPlain(vs, steps, i);
    assert LinkAt(vs, steps, i);
    LinkFacts(vs[i], vs[i + 1], steps[i]);
  }

  lemma {:induction false} ChainSerial(vs: seq<ZoneData>, steps: seq<Step>, i: nat)
    requires Chain(vs, steps) && i < |vs|
    ensures vs[i].Serial() == SerialAfter(vs[0].Serial(), i)
  {
    if i > 0 {
      ChainSerial(vs, steps, i - 1);
      ChainStep(vs, steps, i - 1);
      NextAfter(vs[0].Serial(), i - 1);
    }
  }

  lemma {:induction false} ChainFacts(vs: seq<ZoneData>, steps: seq<Step>, i: nat)
    requires Chain(vs, steps) && i < |vs|
    ensures Plain(vs[i]) && vs[i].origin == vs[0].origin
    ensures vs[i].Serial() == SerialAfter(vs[0].Serial(), i) && vs[0].Serial() < SERIAL_SPACE
    ensures i < |steps| ==> NoSoa(steps[i].dels) && NoSoa(steps[i].adds)
    ensures i < |steps| ==> steps[i].from == vs[i].Serial() && steps[i].to == vs[i + 1].Serial()
  {
    ChainPlain(vs, steps, i);
    ChainSerial(vs, steps, i);
    if i < |steps| {
      ChainStep(vs, steps, i);
    }
  }

  lemma {:induction false} ChainGrows(vs: seq<ZoneData>, steps: seq<Step>, q: ZoneData, step: Step)
    requires Chain(vs, steps) && Links(vs[|steps|], q, step)
    ensures Chain(vs + [q], steps + [step])
  {
    var vs', steps' := vs + [q], steps + [step];
    forall i | 0 <= i < |steps'|
      ensures LinkAt(vs', steps', i)
    {
      if i < |steps| {
        assert LinkAt(vs, steps, i);
      }
    }
  }

  lemma {:induction false} ChainTail(vs: seq<ZoneData>, steps: seq<Step>, v: nat)
    requires Chain(vs, steps) && v <= |steps|
    ensures Chain(vs[v..], steps[v..])
  {
    ChainFacts(vs, steps, v);
    forall i | 0 <= i < |steps| - v
      ensures LinkAt(vs[v..], steps[v..], i)
    {
      assert LinkAt(vs, steps, v + i);
    }
  }

  lemma {:induction false} NextAfter(serial: nat, i: nat)
    ensures NextSerial(SerialAfter(serial, i)) == SerialAfter(serial, i + 1)
  {
    var x := serial + i;
    assert x == SERIAL_SPACE * (x / SERIAL_SPACE) + x % SERIAL_SPACE;
    ModShift(x / SERIAL_SPACE, x % SERIAL_SPACE + 1);
  }

  lemma {:induction false} LastStepsTwice(steps: seq<Step>, step: Step)
    ensures LastSteps(LastSteps(steps) + [step]) == LastSteps(steps + [step])
  {
  }

  /** A message changes nothing, or commits a linked step. */
  lemma {:induction false} OneMessage(z: ZoneData, input: Input, sign: ZoneData -> ZoneData) returns (step: Step)
    requires Plain(z)
    requires Admission(z, input.0, input.1) == NoError ==> AddsNoSoa(z, input.0.authority)
    ensures var z' := ApplyUpdate(z, input.0, input.1, sign).0;
            z' != z ==> && Links(z, z', step) && z'.journal == LastSteps(z.journal + [step])
                        && forall left :: NextLeft(step, z', left) == LeftOverBy(z, input.0.authority, left)
  {
    var rrs := input.0.authority;
    step := StepOf(z, rrs);
    hide ApplyAll, AddsNoSoa, Plain, Admission, DeletesAdded, NextLeft, LeftOverBy, Commit;
    if Admission(z, input.0, input.1) == NoError {
      PlainIsUnsigned(z);
      AllKeepStore(Change(z, [], []), rrs);
      CommitStaysPlain(z, rrs);
      var c := Updated(z, rrs);
      if c.adds == [] && c.dels == [] {
        SilentAll(Change(z, [], []), rrs);
      } else {
        PlainIsUnsigned(Commit(c));
        CommitLogs(c);
        assert LinkedBy(z, Commit(c), step, rrs);
        forall left
          ensures NextLeft(step, Commit(c), left) == LeftOverBy(z, rrs, left)
        {
          SameLeft(z, rrs, left);
        }
      }
    }
  }

  lemma {:induction false} PlainIsUnsigned(z: ZoneData)
    requires Plain(z)
    ensures z.WellFormed() && !z.signed
  {
  }

  lemma {:induction false} CommitLogs(c: Change)
    ensures var serial := c.zone.Serial();
            Commit(c).journal == LastSteps(c.zone.journal + [Step(serial, NextSerial(serial), c.dels, c.adds)])
  {
  }

  lemma {:induction false} SameLeft(z: ZoneData, rrs: seq<RR>, left: iset<Item>)
    requires Plain(z) && AddsNoSoa(z, rrs)
    ensures NextLeft(StepOf(z, rrs), Commit(Updated(z, rrs)), left) == LeftOverBy(z, rrs, left)
  {
    hide ApplyAll, AddsNoSoa, Plain, DeletesAdded, Leaves, Commit;
    forall k: Item
      ensures k in NextLeft(StepOf(z, rrs), Commit(Updated(z, rrs)), left) <==> k in LeftOverBy(z, rrs, left)
    {
      StepLeaves(z, rrs, k);
    }
  }

  lemma {:induction false} RunGoesOn(z: ZoneData, msgs: seq<Input>, sign: ZoneData -> ZoneData, left: iset<Item>)
    requires msgs != []
    ensures var z' := ApplyUpdate(z, msgs[0].0, msgs[0].1, sign).0;
            && Run(z, msgs, sign) == Run(z', msgs[1..], sign)
            && Versions(z, msgs, sign) == (if z' == z then [] else [z]) + Versions(z', msgs[1..], sign)
            && (SoaFreeRun(z, msgs, sign) ==>
                  && (Admission(z, msgs[0].0, msgs[0].1) == NoError ==> AddsNoSoa(z, msgs[0].0.authority))
                  && SoaFreeRun(z', msgs[1..], sign))
            && LeftOver(z, msgs, sign, left) ==
               LeftOver(z', msgs[1..], sign, if z' == z then left else LeftOverBy(z, msgs[0].0.authority, left))
  {
    hide ApplyUpdate, LeftOverBy, Admission, AddsNoSoa;
  }

  lemma {:induction false} NoMessages(vs: seq<ZoneData>, steps: seq<Step>, sign: ZoneData -> ZoneData, left: iset<Item>)
    requires |vs| == |steps| + 1
    ensures var z := vs[|steps|];
            && Run(z, [], sign) == z && vs[..|steps|] + Versions(z, [], sign) == vs
            && HistoryLeft(vs[|steps|..], steps[|steps|..], left) == LeftOver(z, [], sign, left) == left
  {
  }

  /** A run is a history, the journal is its newest part, and the history leaves
    * behind what the run does. */
  lemma {:induction false} RunIsChain(vs: seq<ZoneData>, steps: seq<Step>, msgs: seq<Input>, sign: ZoneData -> ZoneData, left: iset<Item>)
    returns (vs': seq<ZoneData>, steps': seq<Step>)
    requires Chain(vs, steps) && SoaFreeRun(vs[|steps|], msgs, sign)
    requires vs[|steps|].journal == LastSteps(steps)
    ensures vs' == vs[..|steps|] + Versions(vs[|steps|], msgs, sign)
    ensures Chain(vs', steps') && vs'[|steps'|].journal == LastSteps(steps')
    ensures vs'[|steps'|] == Run(vs[|steps|], msgs, sign)
    ensures steps <= steps' && vs <= vs'
    ensures HistoryLeft(vs'[|steps|..], steps'[|steps|..], left) == LeftOver(vs[|steps|], msgs, sign, left)
    decreases |msgs|
  {
    hide LinkAt, NextLeft, LeftOverBy, ApplyUpdate, Plain, LastSteps, Admission, AddsNoSoa;
    hide Run, Versions, SoaFreeRun, LeftOver, HistoryLeft, Links;
    var z, n := vs[|steps|], |steps|;
    if msgs == [] {
      NoMessages(vs, steps, sign, left);
      return vs, steps;
    }
    var z' := ApplyUpdate(z, msgs[0].0, msgs[0].1, sign).0;
    RunGoesOn(z, msgs, sign, left);
    ChainPlain(vs, steps, n);
    var step := OneMessage(z, msgs[0], sign);
    var later := Versions(z', msgs[1..], sign);
    if z' == z {
      vs', steps' := RunIsChain(vs, steps, msgs[1..], sign, left);
      assert [] + later == later;
    } else {
      var next := NextLeft(step, z', left);
      LastStepsTwice(steps, step);
      ChainGrows(vs, steps, z', step);
      vs', steps' := RunIsChain(vs + [z'], steps + [step], msgs[1..], sign, next);
      RegroupVersions(vs, z, z', later);
      HistoryStarts(vs', steps', n, step, z', left);
    }
  }

  lemma {:induction false} HistoryStarts(vs: seq<ZoneData>, steps: seq<Step>, n: nat, step: Step, z: ZoneData, left: iset<Item>)
    requires |vs| == |steps| + 1 && n < |steps| && steps[n] == step && vs[n + 1] == z
    ensures HistoryLeft(vs[n..], steps[n..], left) == HistoryLeft(vs[n + 1..], steps[n + 1..], NextLeft(step, z, left))
  {
    hide NextLeft;
    assert vs[n..][1..] == vs[n + 1..] && steps[n..][1..] == steps[n + 1..];
  }

  lemma {:induction false} RegroupVersions(vs: seq<ZoneData>, z: ZoneData, z': ZoneData, later: seq<ZoneData>)
    requires vs != [] && vs[|vs| - 1] == z
    ensures (vs + [z'])[..|vs|] + later == vs[..|vs| - 1] + ([z] + later)
  {
  }

  // ---- Reading a delta ----

  lemma {:induction false} RunsStopAtSoa(z: ZoneData, part: seq<RR>, rest: seq<RR>)
    requires NoSoa(part) && rest != [] && IsSoa(rest[0])
    ensures FromSoa(part + rest) == rest
    ensures RemoveRun(z, part + rest) == RemoveRun(z, part)
    ensures AddRun(z, part + rest) == AddRun(z, part)
    decreases |part|
  {
    if part == [] {
      assert part + rest == rest;
    } else {
      assert part[0] in part && (part + rest)[1..] == part[1..] + rest;
      RunsStopAtSoa(Remove(z, part[0]), part[1..], rest);
      RunsStopAtSoa(AddRR(z, part[0]), part[1..], rest);
    }
  }

  lemma {:induction false} OneStepRead(z: ZoneData, st: Step, rest: seq<RR>, s: ZoneData)
    requires HasSoa(z) && NoSoa(st.dels) && NoSoa(st.adds) && st.from != z.Serial()
    requires rest != [] && IsSoa(rest[0])
    ensures ApplyDelta(s, StepRecords(z, st) + rest, z.Serial()) ==
            ApplyDelta(AddRun(RemoveRun(s, st.dels), st.adds), rest, z.Serial())
  {
    var adds := st.adds + rest;
    var to := [SoaSerialRR(z, st.to)] + adds;
    var dels := st.dels + to;
    var all := [SoaSerialRR(z, st.from)] + dels;
    assert StepRecords(z, st) + rest == all;
    assert all[1..] == dels && to[1..] == adds;
    RunsStopAtSoa(s, st.dels, to);
    RunsStopAtSoa(RemoveRun(s, st.dels), st.adds, rest);
    OneTurn(s, all, z.Serial());
  }

  lemma {:induction false} FirstStepApart(z: ZoneData, steps: seq<Step>)
    requires HasSoa(z) && steps != []
    ensures var rest := DeltaSteps(z, steps[1..]) + [SoaRR(z)];
            IsSoa(rest[0]) && DeltaSteps(z, steps) + [SoaRR(z)] == StepRecords(z, steps[0]) + rest
  {
    var tail := DeltaSteps(z, steps[1..]);
    assert DeltaSteps(z, steps) == StepRecords(z, steps[0]) + tail;
  }

  /** Reading the first step of a chain takes a copy of one version to the next. */
  lemma {:induction false} FirstStepApplies(z: ZoneData, vs: seq<ZoneData>, steps: seq<Step>, s: ZoneData, left: iset<Item>)
    returns (s1: ZoneData)
    requires HasSoa(z) && Chain(vs, steps) && steps != [] && SameBut(vs[0], s, left) && steps[0].from != z.Serial()
    ensures ApplyDelta(s, DeltaSteps(z, steps) + [SoaRR(z)], z.Serial()) ==
            ApplyDelta(s1, DeltaSteps(z, steps[1..]) + [SoaRR(z)], z.Serial())
    ensures SameBut(vs[1], s1, NextLeft(steps[0], vs[1], left))
  {
    hide SameBut, Plain, NextLeft, Links;
    var st := steps[0];
    s1 := AddRun(RemoveRun(s, st.dels), st.adds);
    ChainStep(vs, steps, 0);
    FirstStepApart(z, steps);
    OneStepRead(z, st, DeltaSteps(z, steps[1..]) + [SoaRR(z)], s);
    assert LinkAt(vs, steps, 0);
    LinkReplays(vs[0], vs[1], st, s, left);
  }

  /** Reading a chain of steps takes a copy of the first version to the last. */
  lemma {:induction false} DeltaApplies(z: ZoneData, vs: seq<ZoneData>, steps: seq<Step>, s: ZoneData, left: iset<Item>)
    returns (s': ZoneData)
    requires HasSoa(z) && Chain(vs, steps) && SameBut(vs[0], s, left)
    requires forall i :: 0 <= i < |steps| ==> steps[i].from != z.Serial()
    ensures ApplyDelta(s, DeltaSteps(z, steps) + [SoaRR(z)], z.Serial()) == Ok(s')
    ensures SameBut(vs[|steps|], s', HistoryLeft(vs, steps, left))
    decreases |steps|
  {
    hide LinkAt, Plain, SameBut, NextLeft;
    var soa := SoaRR(z);
    if steps == [] {
      assert DeltaSteps(z, steps) + [soa] == [soa];
      return s;
    }
    hide ApplyDelta, DeltaSteps, RemoveRun, AddRun;
    var s1 := FirstStepApplies(z, vs, steps, s, left);
    ChainTail(vs, steps, 1);
    s' := DeltaApplies(z, vs[1..], steps[1..], s1, NextLeft(steps[0], vs[1], left));
  }

  // ---- The journal holds the client's version, or the reply is the full zone ----

  lemma {:induction false} FindsEntry(journal: seq<Step>, client: nat, k: nat)
    requires k <= |journal|
    requires forall i :: 0 <= i < k ==> journal[i].from != client
    requires k < |journal| ==> journal[k].from == client
    ensures JournalDelta(journal, client) == if k < |journal| then Some(journal[k..]) else None
    decreases |journal|
  {
    if k > 0 {
      FindsEntry(journal[1..], client, k - 1);
      assert k < |journal| ==> journal[1..][k - 1..] == journal[k..];
    }
  }

  lemma {:induction false} OtherSerial(vs: seq<ZoneData>, steps: seq<Step>, i: nat, v: nat)
    requires Chain(vs, steps) && i < |steps| && v < |vs| && i != v && -(SERIAL_SPACE as int) < i - v < SERIAL_SPACE
    ensures steps[i].from != vs[v].Serial()
  {
    hide Plain, NoSoa;
    ChainFacts(vs, steps, i);
    ChainFacts(vs, steps, v);
    SerialsApart(vs[0].Serial(), if i < v then i else v, if i < v then v else i);
  }

  /** For a client less than half the serial circle behind, the delta found in
    * the journal starts at the client's own version. */
  lemma {:induction false} DeltaIsOwn(vs: seq<ZoneData>, steps: seq<Step>, v: nat)
    requires Chain(vs, steps) && v < |steps| && |steps| - v < 0x8000_0000
    ensures JournalDelta(LastSteps(steps), vs[v].Serial()) ==
            if |steps| - v <= MAX_JOURNAL then Some(steps[v..]) else None
  {
    hide LinkAt, Plain, NoSoa, JournalDelta;
    var journal := LastSteps(steps);
    var m := |steps| - |journal|;
    forall i | 0 <= i < |journal| && i + m != v
      ensures journal[i].from != vs[v].Serial()
    {
      OtherSerial(vs, steps, i + m, v);
    }
    ChainFacts(vs, steps, v);
    FindsEntry(journal, vs[v].Serial(), if v < m then |journal| else v - m);
    assert v >= m ==> journal[v - m..] == steps[v..];
  }

  /** A stretch of history is a delta that reaches the current serial at its end only. */
  lemma {:induction false} HistoryLeadsTo(vs: seq<ZoneData>, steps: seq<Step>, v: nat)
    requires Chain(vs, steps) && v < |steps| && |steps| - v < 0x8000_0000
    ensures LeadsTo(steps[v..], vs[|steps|].Serial())
  {
    hide LinkAt, Plain, NoSoa, SerialAfter, SerialGt;
    var tail, n := steps[v..], |steps|;
    forall i | 0 <= i < |tail|
      ensures NoSoa(tail[i].dels) && NoSoa(tail[i].adds) && tail[i].from != vs[n].Serial()
      ensures tail[i].to == vs[n].Serial() <==> i == |tail| - 1
    {
      ChainFacts(vs, steps, v + i);
      ChainFacts(vs, steps, v + i + 1);
      ChainFacts(vs, steps, n);
      SerialsApart(vs[0].Serial(), v + i, n);
      if v + i + 1 < n {
        SerialsApart(vs[0].Serial(), v + i + 1, n);
      }
    }
  }

  // ---- Convergence ----

  lemma {:induction false} SameButAgrees(p: ZoneData, s: ZoneData, left: iset<Item>)
    requires Plain(p) && SameBut(p, s, left)
    ensures s.Soa().Some? && (Agrees(p, s.WithSerial(p.Serial())) <==> left == iset{})
  {
    hide AlikeBut, Plain, SameBody;
    SameButNothing(p, s, left);
    if left == iset{} {
      SameBodyAgrees(p, s);
    } else {
      var k :| k in left;
      assert Surplus(p, s, k);
      WithSerialRrset(s, p.Serial(), k.0, k.1);
      assert s.WithSerial(p.Serial()).Rrset(k.0, k.1) != p.Rrset(k.0, k.1);
    }
  }

  /** A pull of the delta: the copy of version `v` becomes the current version if and
    * only if the steps in between leave nothing behind. */
  lemma {:induction false} DeltaConverges(vs: seq<ZoneData>, steps: seq<Step>, v: nat, s: ZoneData)
    requires Chain(vs, steps) && v < |steps| && |steps| - v < 0x8000_0000
    requires HasSoa(vs[|steps|]) && Agrees(vs[v], s)
    ensures var stream := DeltaStream(vs[|steps|], steps[v..]);
            && EndsOnce(stream) && |stream| >= 2
            && ApplyIxfr(Some(s), stream, s.origin).Ok?
            && (Agrees(vs[|steps|], ApplyIxfr(Some(s), stream, s.origin).value) <==>
                HistoryLeft(vs[v..], steps[v..], iset{}) == iset{})
  {
    hide LinkAt, Plain, SameBut, SameBody, Agrees, DeltaStream, ApplyIxfr, ApplyDelta, DeltaSteps, NextLeft;
    var p, delta := vs[|steps|], steps[v..];
    HistoryLeadsTo(vs, steps, v);
    DeltaStreamEndsOnce(p, delta);
    ChainPlain(vs, steps, v);
    ChainPlain(vs, steps, |steps|);
    AgreesIsSameBody(vs[v], s);
    SameButNothing(vs[v], s, iset{});
    ChainTail(vs, steps, v);
    var s' := DeltaApplies(p, vs[v..], delta, s, iset{});
    SameButAgrees(p, s', HistoryLeft(vs[v..], delta, iset{}));
    DeltaIsRead(p, delta, s, s');
  }

  lemma {:induction false} DeltaIsRead(p: ZoneData, delta: seq<Step>, s: ZoneData, s': ZoneData)
    requires HasSoa(p) && delta != [] && delta[0].from != p.Serial()
    requires ApplyDelta(s, DeltaSteps(p, delta) + [SoaRR(p)], p.Serial()) == Ok(s') && s'.Soa().Some?
    ensures |DeltaStream(p, delta)| >= 2
    ensures ApplyIxfr(Some(s), DeltaStream(p, delta), s.origin) == Ok(s'.WithSerial(p.Serial()))
  {
    var stream := DeltaStream(p, delta);
    assert stream[1..] == DeltaSteps(p, delta) + [SoaRR(p)];
    assert stream[0] == SoaRR(p) && stream[1] == SoaSerialRR(p, delta[0].from);
  }

  /** A pull of the full zone, whatever is held before: it arrives if and only if no
    * RRSIG is kept as an ordinary record. */
  lemma {:induction false} FullConverges(p: ZoneData, names: seq<Name>, current: Option<ZoneData>)
    requires p.WellFormed() && RecordsTyped(p) && SigsTyped(p) && SingleSoa(p)
    requires Lists(names, p.records.Keys) && p.Soa().Some?
    ensures var stream := AxfrStream(p, names);
            && EndsOnce(stream) && |stream| >= 2
            && ApplyIxfr(current, stream, p.origin).Ok?
            && (Agrees(p, ApplyIxfr(current, stream, p.origin).value) <==> NoLooseSigs(p))
  {
    var mid := FullShape(p, names);
    FullStreamEndsOnce(SoaRR(p), mid);
    AxfrRoundTripExact(p, names);
    FullIsRead(current, SoaRR(p), mid, p.origin);
  }

  lemma {:induction false} FullShape(p: ZoneData, names: seq<Name>) returns (mid: seq<RR>)
    requires p.WellFormed() && RecordsTyped(p) && SingleSoa(p) && p.Soa().Some?
    ensures IsSoa(SoaRR(p)) && NoSoa(mid) && AxfrStream(p, names) == [SoaRR(p)] + mid + [SoaRR(p)]
  {
    assert p.Soa().value in p.Rrset(p.origin, TYPE_SOA);
    var body, sig := NodeRecords(p, names), SigRecords(p, p.origin, TYPE_SOA);
    NodesNoSoa(p, names);
    mid := body + sig;
    Bracketed(SoaRR(p), body, sig);
  }

  lemma {:induction false} Bracketed(soa: RR, body: seq<RR>, sig: seq<RR>)
    ensures [soa] + body + sig + [soa] == [soa] + (body + sig) + [soa]
    ensures NoSoa(body) && NoSoa(sig) ==> NoSoa(body + sig)
  {
  }

  lemma {:induction false} FullIsRead(current: Option<ZoneData>, soa: RR, mid: seq<RR>, origin: Name)
    requires IsSoa(soa) && NoSoa(mid)
    ensures var stream := [soa] + mid + [soa];
            ApplyIxfr(current, stream, origin) == Ok(Load(EmptyZone(origin), false, stream))
  {
    var stream := [soa] + mid + [soa];
    assert stream[0] == soa;
    assert stream[1] == soa || (stream[1] == mid[0] && mid[0] in mid);
  }

  lemma RrsetNoSoa(n: Name, t: RType, ttl: nat, rds: seq<Rdata>)
    requires t != TYPE_SOA
    ensures NoSoa(RrsetRecords(n, t, ttl, rds))
  {
  }

  lemma {:induction false} TypesNoSoa(z: ZoneData, n: Name, types: seq<RType>)
    requires TYPE_SOA in types ==> n == z.origin
    ensures NoSoa(TypeRecords(z, n, types))
  {
    if types != [] {
      if types[0] != TYPE_SOA {
        RrsetNoSoa(n, types[0], z.TtlOf(n, types[0]), z.Rrset(n, types[0]));
      }
      TypesNoSoa(z, n, types[1..]);
    }
  }

  lemma {:induction false} NodesNoSoa(z: ZoneData, names: seq<Name>)
    requires z.WellFormed() && SingleSoa(z)
    ensures NoSoa(NodeRecords(z, names))
  {
    if names != [] {
      assert names[0] != z.origin ==> z.Rrset(names[0], TYPE_SOA) == [];
      TypesNoSoa(z, names[0], SortedTypes(z.NodeOf(names[0]).Keys));
      NodesNoSoa(z, names[1..]);
    }
  }

  /** A signed zone is always sent whole, and arrives whole. */
  lemma {:induction false} SignedZoneConverges(p: ZoneData, names: seq<Name>, s: ZoneData)
    requires p.WellFormed() && RecordsTyped(p) && SigsTyped(p) && Representable(p) && p.signed
    requires Lists(names, p.records.Keys) && HasSoa(p) && s.origin == p.origin
    requires SerialGt(p.Serial(), s.Serial())
    ensures ApplyIxfr(Some(s), IxfrStream(p, names, s.Serial()), s.origin).Ok?
    ensures Agrees(p, ApplyIxfr(Some(s), IxfrStream(p, names, s.Serial()), s.origin).value)
  {
    FullConverges(p, names, Some(s));
  }

  /** One pull: ask with the serial held, receive the envelopes, apply the records. */
  function Pull(s: ZoneData, envelopes: seq<Message>): Result<ZoneData> {
    match Receive(envelopes, [])
    case Err(e) => Err(e)
    case Ok(records) => ApplyIxfr(Some(s), records, s.origin)
  }

  /** A run cut in two. */
  lemma {:induction false} RunCut(z: ZoneData, msgs: seq<Input>, sign: ZoneData -> ZoneData, k: nat)
    requires k <= |msgs|
    ensures Run(z, msgs, sign) == Run(Run(z, msgs[..k], sign), msgs[k..], sign)
    ensures SoaFreeRun(z, msgs, sign) ==>
              SoaFreeRun(z, msgs[..k], sign) && SoaFreeRun(Run(z, msgs[..k], sign), msgs[k..], sign)
    ensures CleanRun(z, msgs, sign) ==> CleanRun(Run(z, msgs[..k], sign), msgs[k..], sign)
    decreases k
  {
    hide ApplyUpdate, AddsNoSoa, CleanAll, Admission;
    if k == 0 {
      assert msgs[..0] == [] && msgs[0..] == msgs;
    } else {
      RunCut(ApplyUpdate(z, msgs[0].0, msgs[0].1, sign).0, msgs[1..], sign, k - 1);
      assert msgs[..k][1..] == msgs[1..][..k - 1] && msgs[1..][k - 1..] == msgs[k..] && msgs[..k][0] == msgs[0];
    }
  }

  /** How many versions behind a copy of the zone after `k` messages is. */
  ghost function Behind(z: ZoneData, msgs: seq<Input>, sign: ZoneData -> ZoneData, k: nat): int
    requires k <= |msgs|
  {
    |Versions(Run(z, msgs[..k], sign), msgs[k..], sign)| - 1
  }

  /** Replication, exactly. Take any run of messages that add no SOA, on a plain zone
    * with an empty journal; a copy `s` of the zone as it was at any point of the
    * run, fewer than 2^31 versions behind; and any framing of the primary's answer.
    * The pull succeeds, and it leaves the secondary with what the primary serves if
    * and only if it was up to date, or the first envelope holds two records and
    * either the journal reaches back and the messages since leave nothing behind,
    * or it does not and the zone holds no RRSIG as an ordinary record. */
  lemma {:induction false} RunReplicatesExactly(z: ZoneData, msgs: seq<Input>, sign: ZoneData -> ZoneData, k: nat, s: ZoneData,
                                                names: seq<Name>, envelopes: seq<Message>)
    requires Plain(z) && z.journal == [] && SoaFreeRun(z, msgs, sign)
    requires k <= |msgs| && Behind(z, msgs, sign, k) < 0x8000_0000
    requires Agrees(Run(z, msgs[..k], sign), s)
    requires Lists(names, Run(z, msgs, sign).records.Keys)
    requires HasSoa(Run(z, msgs, sign)) && Answers(envelopes) == IxfrStream(Run(z, msgs, sign), names, s.Serial())
    requires forall m :: m in envelopes ==> m.answers != []
    ensures Pull(s, envelopes).Ok?
    ensures Agrees(Run(z, msgs, sign), Pull(s, envelopes).value) <==>
            || Behind(z, msgs, sign, k) == 0
            || (&& |envelopes[0].answers| >= 2
                && if Behind(z, msgs, sign, k) <= MAX_JOURNAL
                   then LeftOver(Run(z, msgs[..k], sign), msgs[k..], sign, iset{}) == iset{}
                   else NoLooseSigs(Run(z, msgs, sign)))
  {
    hide Plain, ApplyUpdate, LinkAt, Agrees, Pull, LeftOverBy, NextLeft, IxfrStream, NoLooseSigs;
    RunCut(z, msgs, sign, k);
    assert Chain([z], []);
    var vs, steps := RunIsChain([z], [], msgs[..k], sign, iset{});
    var v := |steps|;
    var vs', steps' := RunIsChain(vs, steps, msgs[k..], sign, iset{});
    assert vs'[v] == vs[v];
    VersionsEnd(vs[v], msgs[k..], sign);
    ChainConverges(vs', steps', v, s, names, envelopes);
  }

  lemma {:induction false} VersionsEnd(z: ZoneData, msgs: seq<Input>, sign: ZoneData -> ZoneData)
    ensures Versions(z, msgs, sign) != []
    decreases |msgs|
  {
    hide ApplyUpdate;
    if msgs != [] {
      VersionsEnd(ApplyUpdate(z, msgs[0].0, msgs[0].1, sign).0, msgs[1..], sign);
    }
  }

  /** A clean run leaves nothing behind. */
  lemma {:induction false} CleanRunLeavesNothing(z: ZoneData, msgs: seq<Input>, sign: ZoneData -> ZoneData)
    requires CleanRun(z, msgs, sign)
    ensures LeftOver(z, msgs, sign, iset{}) == iset{}
    decreases |msgs|
  {
    if msgs != [] {
      var z', rrs := ApplyUpdate(z, msgs[0].0, msgs[0].1, sign).0, msgs[0].0.authority;
      if z' != z {
        CleanLeftOver(z, rrs);
      }
      hide ApplyUpdate;
      CleanRunLeavesNothing(z', msgs[1..], sign);
    }
  }

  lemma {:induction false} CleanLeftOver(z: ZoneData, rrs: seq<RR>)
    requires CleanAll(Change(z, [], []), rrs)
    ensures LeftOverBy(z, rrs, iset{}) == iset{}
  {
    forall k | k in LeftOverBy(z, rrs, iset{})
      ensures false
    {
      CleanDeletesNoneAdded(Change(z, [], []), rrs, k.0, k.1, k.2);
    }
  }

  /** Every version of a run is the zone after some of its messages. */
  lemma {:induction false} VersionIsAtCut(z: ZoneData, msgs: seq<Input>, sign: ZoneData -> ZoneData, v: nat) returns (k: nat)
    requires v < |Versions(z, msgs, sign)|
    ensures k <= |msgs| && Run(z, msgs[..k], sign) == Versions(z, msgs, sign)[v]
    ensures Behind(z, msgs, sign, k) == |Versions(z, msgs, sign)| - 1 - v
    decreases |msgs|
  {
    hide ApplyUpdate;
    if msgs == [] {
      assert msgs[..0] == [] && msgs[0..] == msgs;
      return 0;
    }
    var z' := ApplyUpdate(z, msgs[0].0, msgs[0].1, sign).0;
    if z' != z && v == 0 {
      assert msgs[..0] == [] && msgs[0..] == msgs;
      return 0;
    }
    var m := VersionIsAtCut(z', msgs[1..], sign, if z' == z then v else v - 1);
    k := m + 1;
    assert msgs[..k][1..] == msgs[1..][..m] && msgs[1..][m..] == msgs[k..] && msgs[..k][0] == msgs[0];
  }

  /** Replication converges. After any clean run that adds no SOA, a secondary that
    * holds any version of it arrives at the primary's zone if and only if it was up
    * to date, or the first envelope holds two records and either the journal reaches
    * back to its version or the zone holds no RRSIG as an ordinary record. */
  lemma {:induction false} ReplicationConverges(z: ZoneData, msgs: seq<Input>, sign: ZoneData -> ZoneData, v: nat, s: ZoneData,
                             names: seq<Name>, envelopes: seq<Message>)
    requires Plain(z) && z.journal == [] && SoaFreeRun(z, msgs, sign) && CleanRun(z, msgs, sign)
    requires v < |Versions(z, msgs, sign)| && |Versions(z, msgs, sign)| - 1 - v < 0x8000_0000
    requires Agrees(Versions(z, msgs, sign)[v], s)
    requires Lists(names, Run(z, msgs, sign).records.Keys)
    requires HasSoa(Run(z, msgs, sign)) && Answers(envelopes) == IxfrStream(Run(z, msgs, sign), names, s.Serial())
    requires forall m :: m in envelopes ==> m.answers != []
    ensures Pull(s, envelopes).Ok?
    ensures Agrees(Run(z, msgs, sign), Pull(s, envelopes).value) <==>
            || v == |Versions(z, msgs, sign)| - 1
            || (&& |envelopes[0].answers| >= 2
                && (|Versions(z, msgs, sign)| - 1 - v <= MAX_JOURNAL || NoLooseSigs(Run(z, msgs, sign))))
  {
    hide Plain, ApplyUpdate, Agrees, Pull, IxfrStream, NoLooseSigs, LeftOver, CleanRun, SoaFreeRun;
    var k := VersionIsAtCut(z, msgs, sign, v);
    RunReplicatesExactly(z, msgs, sign, k, s, names, envelopes);
    RunCut(z, msgs, sign, k);
    CleanRunLeavesNothing(Run(z, msgs[..k], sign), msgs[k..], sign);
  }

  lemma {:induction false} ChainConverges(vs: seq<ZoneData>, steps: seq<Step>, v: nat, s: ZoneData,
                                          names: seq<Name>, envelopes: seq<Message>)
    requires Chain(vs, steps) && v <= |steps| && |steps| - v < 0x8000_0000
    requires vs[|steps|].journal == LastSteps(steps)
    requires Agrees(vs[v], s)
    requires HasSoa(vs[|steps|]) && Lists(names, vs[|steps|].records.Keys)
    requires Answers(envelopes) == IxfrStream(vs[|steps|], names, s.Serial())
    requires forall m :: m in envelopes ==> m.answers != []
    ensures envelopes != [] && Pull(s, envelopes).Ok?
    ensures Agrees(vs[|steps|], Pull(s, envelopes).value) <==>
            || v == |steps|
            || (&& |envelopes[0].answers| >= 2
                && if |steps| - v <= MAX_JOURNAL then HistoryLeft(vs[v..], steps[v..], iset{}) == iset{} else NoLooseSigs(vs[|steps|]))
  {
    ChainPlain(vs, steps, v);
    AgreesIsSameBody(vs[v], s);
    Nonempty(vs[|steps|], names, s.Serial(), envelopes);
    if v == |steps| {
      UpToDate(vs[v], s, names, envelopes);
    } else {
      ChainSerial(vs, steps, v);
      ChainSerial(vs, steps, |steps|);
      SerialsApart(vs[0].Serial(), v, |steps|);
      BehindConverges(vs, steps, v, s, names, envelopes);
    }
  }

  lemma {:induction false} Nonempty(p: ZoneData, names: seq<Name>, client: nat, envelopes: seq<Message>)
    requires HasSoa(p) && Answers(envelopes) == IxfrStream(p, names, client)
    ensures envelopes != []
  {
  }

  lemma {:induction false} UpToDate(p: ZoneData, s: ZoneData, names: seq<Name>, envelopes: seq<Message>)
    requires HasSoa(p) && Agrees(p, s) && s.Serial() == p.Serial()
    requires Answers(envelopes) == IxfrStream(p, names, s.Serial())
    requires forall m :: m in envelopes ==> m.answers != []
    ensures Pull(s, envelopes) == Ok(s)
  {
    var stream := [SoaRR(p)];
    assert stream[..1] == stream;
    assert EndsOnce(stream);
    ReceiveExact(envelopes, stream);
  }

  lemma {:induction false} SoaAloneIsRead(p: ZoneData, s: ZoneData, names: seq<Name>)
    requires HasSoa(p)
    ensures IxfrStream(p, names, s.Serial()) != [] && ApplyIxfr(Some(s), IxfrStream(p, names, s.Serial())[..1], s.origin) == Ok(s)
  {
    hide NodeRecords, SigRecords, DeltaSteps, JournalDelta;
    assert IxfrStream(p, names, s.Serial())[..1] == [SoaRR(p)];
  }

  lemma {:induction false} BehindConverges(vs: seq<ZoneData>, steps: seq<Step>, v: nat, s: ZoneData,
                        names: seq<Name>, envelopes: seq<Message>)
    requires Chain(vs, steps) && v < |steps| && |steps| - v < 0x8000_0000
    requires vs[|steps|].journal == LastSteps(steps)
    requires Agrees(vs[v], s) && s.Serial() == vs[v].Serial() && s.Serial() != vs[|steps|].Serial()
    requires SerialGt(vs[|steps|].Serial(), s.Serial())
    requires HasSoa(vs[|steps|]) && Lists(names, vs[|steps|].records.Keys)
    requires Answers(envelopes) == IxfrStream(vs[|steps|], names, s.Serial())
    requires envelopes != [] && forall m :: m in envelopes ==> m.answers != []
    ensures Pull(s, envelopes).Ok?
    ensures Agrees(vs[|steps|], Pull(s, envelopes).value) <==>
            && |envelopes[0].answers| >= 2
            && if |steps| - v <= MAX_JOURNAL then HistoryLeft(vs[v..], steps[v..], iset{}) == iset{} else NoLooseSigs(vs[|steps|])
  {
    hide LinkAt, EndsOnce, IxfrComplete, Receive, ApplyIxfr, AxfrStream, DeltaStream, NoLooseSigs, SingleSoa;
    var p := vs[|steps|];
    var stream := IxfrStream(p, names, s.Serial());
    ChainFacts(vs, steps, v);
    ChainFacts(vs, steps, |steps|);
    DeltaIsOwn(vs, steps, v);
    if |steps| - v <= MAX_JOURNAL {
      DeltaConverges(vs, steps, v, s);
    } else {
      FullConverges(p, names, Some(s));
    }
    ReceiveExact(envelopes, stream);
    assert envelopes[0] in envelopes;
    if |envelopes[0].answers| == 1 {
      SoaAloneIsRead(p, s, names);
      assert Pull(s, envelopes) == Ok(s);
      assert s.Soa() != p.Soa();
    }
  }
}
