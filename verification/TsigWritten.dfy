// TSIG on written messages: the signed message is the same message with one more
// record, and the digest has the fields of RFC 8945 section 4.3.3, octet by octet.

module TsigWritten {
  import opened Wrappers
  import opened Bytes
  import opened Messages
  import T = Tsig
  import I = TsigIntegrity

  lemma {:induction false} NameOctetsAgree(labels: seq<seq<byte>>)
    requires T.LabelsFit(labels)
    ensures T.WireName(labels) == NameOctets(labels, None)
    decreases |labels|
  {
    if labels != [] {
      NameOctetsAgree(labels[1..]);
    }
  }

  // ---- Reading ----

  /** An uncompressed name of at most 255 octets. */
  predicate Uncompressed(n: WrittenName) {
    n.Fits() && n.pointer.None? && |NameOctets(n.labels, None)| <= 255
  }

  /** A message with such names only and no TSIG record yet. */
  predicate Plain(m: Message) {
    && m.Fits()
    && (forall q | q in m.questions :: Uncompressed(q.name))
    && (forall r | r in m.Records() :: Uncompressed(r.owner) && r.rtype != 250)
  }

  lemma {:induction false} NameIsRead(w: seq<byte>, p: nat, n: WrittenName, floor: nat)
    requires Uncompressed(n) && At(w, p, NameOctets(n.labels, None))
    ensures T.ReadName(w, p, 0, 1, floor) == Some((n.labels, p + |NameOctets(n.labels, None)|))
  {
    NameOctetsAgree(n.labels);
    T.NameRoundTrip(w, p, n.labels, 0, 1, floor);
  }

  lemma {:induction false} RecordsAreRead(w: seq<byte>, p: nat, rs: seq<Written>, last: Option<T.Record>)
    requires forall i :: 0 <= i < |rs| ==> rs[i].Fits() && Uncompressed(rs[i].owner) && rs[i].rtype != 250
    requires At(w, p, AllRecords(rs))
    ensures T.Walk(w, p, 0, |rs|, last, 12).Some? && T.Walk(w, p, 0, |rs|, last, 12).value.1 == p + |AllRecords(rs)|
    decreases |rs|
  {
    hide At, RecordOctets, T.ReadName, T.ParseTsig, FromU16, NameOctets;
    if rs != [] {
      var r := rs[0];
      AtSplit(w, p, RecordOctets(r), AllRecords(rs[1..]));
      RecordAt(w, p, r);
      NameIsRead(w, p, r.owner, 12);
      assert T.ReadRecord(w, p, 12) == Some((T.Record(p, r.owner.labels, r.rtype, None), p + |RecordOctets(r)|));
      RecordsAreRead(w, p + |RecordOctets(r)|, rs[1..], Some(T.Record(p, r.owner.labels, r.rtype, None)));
    }
  }

  lemma {:induction false} QuestionsAreRead(w: seq<byte>, p: nat, qs: seq<Question>, rs: nat)
    requires forall i :: 0 <= i < |qs| ==> qs[i].Fits() && Uncompressed(qs[i].name)
    requires At(w, p, AllQuestions(qs))
    ensures T.Walk(w, p, |qs|, rs, None, 12) == T.Walk(w, p + |AllQuestions(qs)|, 0, rs, None, 12)
    decreases |qs|
  {
    hide At, QuestionOctets, T.ReadName, NameOctets;
    if qs != [] {
      var q := qs[0];
      AtSplit(w, p, QuestionOctets(q), AllQuestions(qs[1..]));
      QuestionEnds(w, p, q);
      NameIsRead(w, p, q.name, 12);
      QuestionsAreRead(w, p + |QuestionOctets(q)|, qs[1..], rs);
    }
  }

  lemma {:induction false} PlainParts(m: Message)
    requires Plain(m)
    ensures m.Fits()
    ensures forall i :: 0 <= i < |m.questions| ==> m.questions[i].Fits() && Uncompressed(m.questions[i].name)
    ensures forall i :: 0 <= i < |m.Records()| ==>
              m.Records()[i].Fits() && Uncompressed(m.Records()[i].owner) && m.Records()[i].rtype != 250
  {
    hide WrittenName.Fits, Written.Fits, Question.Fits, Uncompressed;
    forall i | 0 <= i < |m.questions|
      ensures m.questions[i].Fits() && Uncompressed(m.questions[i].name)
    {
      assert m.questions[i] in m.questions;
    }
    forall i | 0 <= i < |m.Records()|
      ensures m.Records()[i].Fits() && Uncompressed(m.Records()[i].owner) && m.Records()[i].rtype != 250
    {
      assert m.Records()[i] in m.Records();
    }
  }

  /** A written message is one that the laws of signing are about. */
  lemma {:induction false} WrittenIsWellFormed(m: Message)
    requires Plain(m)
    ensures T.WellFormed(Octets(m))
  {
    hide *;
    PlainParts(m);
    HeaderAt(m);
    CountsAgree(m);
    BodyIsRead(m, Octets(m));
    WalkedIsWellFormed(Octets(m), |m.questions|, |m.Records()|);
  }

  lemma {:induction false} WalkedIsWellFormed(w: seq<byte>, qs: nat, rs: nat)
    requires |w| >= 12 && T.QdCount(w) == qs && T.RecordCount(w) == rs
    requires T.Walk(w, 12, qs, rs, None, 12).Some? && T.Walk(w, 12, qs, rs, None, 12).value.1 == |w|
    ensures T.WellFormed(w)
  {
    hide T.Walk;
    var (last, end) := T.Walk(w, 12, qs, rs, None, 12).value;
  }

  lemma {:induction false} CountsAgree(m: Message)
    requires m.Fits()
    ensures |Octets(m)| >= 12 && T.QdCount(Octets(m)) == |m.questions| && T.RecordCount(Octets(m)) == |m.Records()|
  {
    HeaderAt(m);
    hide Octets;
  }

  lemma {:induction false} BodyIsRead(m: Message, w: seq<byte>)
    requires Plain(m) && At(w, 12, AllQuestions(m.questions))
    requires At(w, 12 + |AllQuestions(m.questions)|, AllRecords(m.Records()))
    ensures T.Walk(w, 12, |m.questions|, |m.Records()|, None, 12).Some?
    ensures T.Walk(w, 12, |m.questions|, |m.Records()|, None, 12).value.1 ==
            12 + |AllQuestions(m.questions)| + |AllRecords(m.Records())|
  {
    PlainParts(m);
    hide At, T.Walk, AllQuestions, AllRecords, Uncompressed, Plain, Message.Fits, Written.Fits, Question.Fits;
    QuestionsAreRead(w, 12, m.questions, |m.Records()|);
    RecordsAreRead(w, 12 + |AllQuestions(m.questions)|, m.Records(), None);
  }

  /** A pointer to earlier octets stands for the name that is there; one that leads
    * to itself or beyond, or below the floor, does not read. */
  lemma {:induction false} PointerIsFollowed(w: seq<byte>, p: nat, labels: seq<seq<byte>>, to: nat, hops: nat, total: nat, floor: nat)
    requires WrittenName(labels, Some(to)).Fits() && At(w, p, NameOctets(labels, Some(to)))
    requires total + |NameOctets(labels, Some(to))| - 2 <= 255 && hops < 128
    ensures var end := p + |NameOctets(labels, Some(to))|;
            var n := |NameOctets(labels, Some(to))| - 2;
            T.ReadName(w, p, hops, total, floor) ==
            if to >= end - 2 || to < floor then None
            else match T.ReadName(w, to, hops + 1, total + n, floor)
                 case None => None
                 case Some((rest, _)) => Some((labels + rest, end))
    decreases |labels|
  {
    hide At, T.ReadName;
    if labels == [] {
      var a, b: byte := 192 + to / 256, to % 256;
      assert NameOctets(labels, Some(to)) == [a] + [b];
      AtSplit(w, p, [a], [b]);
      AtOne(w, p, a);
      AtOne(w, p + 1, b);
      T.PointerStep(w, p, hops, total, floor);
      var there := T.ReadName(w, to, hops + 1, total, floor);
      assert there.Some? ==> labels + there.value.0 == there.value.0;
    } else {
      var n, rest := LabelAt(w, p, labels, Some(to));
      PointerTwo(labels[1..], to);
      hide NameOctets;
      T.LabelStep(w, p, hops, total, floor);
      PointerIsFollowed(w, p + 1 + n, labels[1..], to, hops, total + n + 1, floor);
      var there := T.ReadName(w, to, hops + 1, total + |NameOctets(labels, Some(to))| - 2, floor);
      assert there.Some? ==> labels + there.value.0 == [labels[0]] + (labels[1..] + there.value.0);
    }
  }

  lemma {:induction false} PointerTwo(labels: seq<seq<byte>>, to: nat)
    requires WrittenName(labels, Some(to)).Fits()
    ensures |NameOctets(labels, Some(to))| >= 2
    decreases |labels|
  {
    if labels != [] {
      assert WrittenName(labels[1..], Some(to)).Fits();
      PointerTwo(labels[1..], to);
    }
  }

  // ---- Writing ----

  /** The 48 bits of a time. */
  function SixOctets(t: nat): seq<byte> {
    [t / 0x100_0000_0000 % 256, t / 0x1_0000_0000 % 256, t / 0x100_0000 % 256, t / 0x1_0000 % 256, t / 0x100 % 256, t % 256]
  }

  lemma {:induction false} HighOctets(t: nat)
    requires t < 0x1_0000_0000_0000
    ensures t / 0x1_0000_0000 / 256 == t / 0x100_0000_0000 % 256
  {
  }

  /** `t` from the octets of its low half, and what is above them. */
  lemma {:induction false} LowSum(t: nat) returns (a: nat, b: nat, c: nat, d: nat, e: nat)
    ensures b < 256 && c < 256 && d < 256 && e < 256
    ensures t == 0x1_0000_0000 * a + 0x100_0000 * b + 0x1_0000 * c + 0x100 * d + e
  {
    var q1 := t / 0x100;
    var q2 := q1 / 0x100;
    var q3 := q2 / 0x100;
    a, b, c, d, e := q3 / 0x100, q3 % 0x100, q2 % 0x100, q1 % 0x100, t % 0x100;
  }

  lemma {:induction false} QuotientIs(t: nat, unit: nat, q: nat, r: nat)
    requires r < unit && t == unit * q + r
    ensures t / unit == q && t % unit == r
  {
    var k := t / unit - q;
    assert unit * k == r - t % unit by {
      assert unit * k == unit * (t / unit) - unit * q;
    }
    assert k > 0 ==> unit * k >= unit;
    assert k < 0 ==> unit * k <= 0 - unit as int;
  }

  lemma {:induction false} LowOctets(t: nat)
    ensures var low := t % 0x1_0000_0000;
            && low / 0x1_0000 / 256 == t / 0x100_0000 % 256 && low / 0x1_0000 % 256 == t / 0x1_0000 % 256
            && low % 0x1_0000 / 256 == t / 0x100 % 256 && low % 0x1_0000 % 256 == t % 256
  {
    var a, b, c, d, e := LowSum(t);
    var low := 0x100_0000 * b + 0x1_0000 * c + 0x100 * d + e;
    QuotientIs(t, 0x1_0000_0000, a, low);
    QuotientIs(low, 0x1_0000, 0x100 * b + c, 0x100 * d + e);
    QuotientIs(t, 0x100_0000, 0x100 * a + b, 0x1_0000 * c + 0x100 * d + e);
    QuotientIs(t, 0x1_0000, 0x1_0000 * a + 0x100 * b + c, 0x100 * d + e);
    QuotientIs(t, 0x100, 0x100_0000 * a + 0x1_0000 * b + 0x100 * c + d, e);
    QuotientIs(0x100 * b + c, 0x100, b, c);
    QuotientIs(0x100 * d + e, 0x100, d, e);
    QuotientIs(0x100 * a + b, 0x100, a, b);
    QuotientIs(0x1_0000 * a + 0x100 * b + c, 0x100, 0x100 * a + b, c);
    QuotientIs(0x100_0000 * a + 0x1_0000 * b + 0x100 * c + d, 0x100, 0x1_0000 * a + 0x100 * b + c, d);
  }

  lemma {:induction false} TimeOctets(t: nat)
    requires t < 0x1_0000_0000_0000
    ensures T.Time48(t) == SixOctets(t)
  {
    var high, low := t / 0x1_0000_0000, t % 0x1_0000_0000;
    HighOctets(t);
    LowOctets(t);
    assert U16(high) == [high / 256, high % 256];
    assert U32(low) == [low / 0x1_0000 / 256, low / 0x1_0000 % 256] + [low % 0x1_0000 / 256, low % 0x1_0000 % 256];
  }

  function TwoOctets(v: nat): seq<byte> {
    [v / 256 % 256, v % 256]
  }

  lemma {:induction false} FieldsAgree(v: nat, s: seq<byte>)
    requires v < 0x1_0000 && |s| < 0x1_0000
    ensures U16(v) == TwoOctets(v) && T.Counted(s) == TwoOctets(|s|) + s
  {
  }

  lemma {:induction false} ClassAndTtl()
    ensures U16(T.CLASS_ANY) == [0, 255] && U32(0) == [0, 0, 0, 0]
  {
    assert U32(0) == U16(0) + U16(0);
  }

  /** The rdata of a TSIG record (section 4.2). */
  function TsigOctets(t: T.TsigData): seq<byte>
    requires T.TsigFits(t)
  {
    NameOctets(t.algorithm, None) + (SixOctets(t.time) + (TwoOctets(t.fudge) + (TwoOctets(|t.mac|) + t.mac
      + (TwoOctets(t.originalId) + (TwoOctets(t.error) + (TwoOctets(|t.other|) + t.other))))))
  }

  lemma {:induction false} RdataOctets(t: T.TsigData)
    requires T.TsigFits(t)
    ensures T.TsigRdata(t) == TsigOctets(t)
  {
    hide SixOctets, T.Time48, T.WireName, NameOctets, T.Counted, U16, TwoOctets;
    NameOctetsAgree(t.algorithm);
    TimeOctets(t.time);
    FieldsAgree(t.fudge, t.mac);
    FieldsAgree(t.originalId, t.other);
    FieldsAgree(t.error, t.other);
  }

  /** The TSIG record that goes with a key (section 4.2): type 250, class ANY, TTL 0. */
  function TsigWritten(key: T.Key, t: T.TsigData): Written
    requires T.TsigFits(t)
  {
    Written(WrittenName(key.name, None), 250, 255, 0, TsigOctets(t))
  }

  lemma {:induction false} RecordsAppend(rs: seq<Written>, r: Written)
    requires forall i :: 0 <= i < |rs| ==> rs[i].Fits()
    requires r.Fits()
    ensures AllRecords(rs + [r]) == AllRecords(rs) + RecordOctets(r)
    decreases |rs|
  {
    hide RecordOctets;
    if rs == [] {
      assert [r][1..] == [] && AllRecords([r]) == RecordOctets(r) + AllRecords([]);
    } else {
      assert (rs + [r])[1..] == rs[1..] + [r];
      RecordsAppend(rs[1..], r);
    }
  }

  /** Signing appends one record to the additional section, and that is all it does
    * to the message. */
  lemma {:induction false} SignedIsWritten(m: Message, key: T.Key, t: T.TsigData)
    requires m.Fits() && |m.additional| < 0xFFFF && T.NameFits(key.name) && T.TsigFits(t)
    ensures var signed := m.(additional := m.additional + [TsigWritten(key, t)]);
            signed.Fits() && |Octets(m)| >= 12 && T.AppendTsig(Octets(m), key, t) == Octets(signed)
  {
    var r := TsigWritten(key, t);
    var signed := m.(additional := m.additional + [r]);
    RecordIsTsig(key, t);
    OneMore(m, r);
    HeaderAt(m);
    hide T.TsigFits, T.NameFits, Message.Fits, T.TsigRecord, RecordOctets, Octets, At, TsigOctets, FromU16, U16, AllQuestions, AllRecords;
    AppendedBody(m, r);
    CountedUp(m, signed);
  }

  /** The octets with the count of one more record, but without that record. */
  lemma {:induction false} CountedUp(m: Message, signed: Message)
    requires m.Fits() && signed.Fits() && |signed.additional| == |m.additional| + 1 && |Octets(m)| >= 12
    requires signed == m.(additional := signed.additional)
    ensures T.WithArCount(Octets(m), (T.ArCount(Octets(m)) + 1) % 0x1_0000) == Header(signed) + Body(m)
  {
    HeaderAt(m);
    OctetsParts(m);
    CountedHead(m, signed);
    hide Octets, Header, Body, Message.Fits, At, FromU16, U16;
    CountOver(m, signed, Body(m));
  }

  function Body(m: Message): seq<byte>
    requires m.Fits()
  {
    RecordsFit(m);
    AllQuestions(m.questions) + AllRecords(m.Records())
  }

  lemma {:induction false} RecordsFit(m: Message)
    requires m.Fits()
    ensures forall i :: 0 <= i < |m.Records()| ==> m.Records()[i].Fits()
    ensures forall i :: 0 <= i < |m.questions| ==> m.questions[i].Fits()
  {
  }

  lemma {:induction false} OctetsParts(m: Message)
    requires m.Fits()
    ensures Octets(m) == Header(m) + Body(m)
  {
  }

  lemma {:induction false} AppendedBody(m: Message, r: Written)
    requires m.Fits() && r.Fits() && m.(additional := m.additional + [r]).Fits()
    ensures var signed := m.(additional := m.additional + [r]);
            Octets(signed) == (Header(signed) + Body(m)) + RecordOctets(r)
  {
    var signed := m.(additional := m.additional + [r]);
    assert signed.Records() == m.Records() + [r];
    RecordsAppend(m.Records(), r);
    hide RecordOctets, AllRecords, AllQuestions, Header;
  }

  lemma {:induction false} OneMore(m: Message, r: Written)
    requires m.Fits() && |m.additional| < 0xFFFF && r.Fits()
    ensures m.(additional := m.additional + [r]).Fits()
  {
    var signed := m.(additional := m.additional + [r]);
    assert signed.Records() == m.Records() + [r];
  }

  lemma {:induction false} RecordIsTsig(key: T.Key, t: T.TsigData)
    requires T.NameFits(key.name) && T.TsigFits(t)
    ensures TsigWritten(key, t).Fits() && RecordOctets(TsigWritten(key, t)) == T.TsigRecord(key.name, t)
  {
    RdataOctets(t);
    NameOctetsAgree(key.name);
    hide TsigOctets, T.TsigRdata, T.WireName, NameOctets, U32;
  }

  lemma {:induction false} CountedHead(m: Message, signed: Message)
    requires m.Fits() && signed.Fits() && |signed.additional| == |m.additional| + 1
    requires signed == m.(additional := signed.additional)
    ensures Header(signed) == Header(m)[10 := U16(|signed.additional|)[0]][11 := U16(|signed.additional|)[1]]
  {
    hide U16;
  }

  lemma {:induction false} CountOver(m: Message, signed: Message, body: seq<byte>)
    requires m.Fits() && signed.Fits() && |signed.additional| == |m.additional| + 1
    requires Header(signed) == Header(m)[10 := U16(|signed.additional|)[0]][11 := U16(|signed.additional|)[1]]
    requires FromU16(Header(m) + body, 10) == |m.additional|
    ensures T.WithArCount(Header(m) + body, (T.ArCount(Header(m) + body) + 1) % 0x1_0000) == Header(signed) + body
  {
    hide U16, FromU16, Header;
    assert |signed.additional| < 0x1_0000 by {
      FitsParts(signed);
    }
    var head, n := Header(m), |signed.additional|;
    assert (head + body)[10 := U16(n)[0]][11 := U16(n)[1]] == head[10 := U16(n)[0]][11 := U16(n)[1]] + body;
  }

  /** The TSIG variables, the names in lower case. */
  function VariableOctets(key: T.Key, t: T.TsigData): seq<byte>
    requires T.NameFits(key.name) && T.Readable(t)
  {
    NameOctets(T.LowerLabels(key.name), None) + ([0, 255] + ([0, 0, 0, 0] + (NameOctets(T.LowerLabels(t.algorithm), None) +
      (SixOctets(t.time) + (TwoOctets(t.fudge) + (TwoOctets(t.error) + (TwoOctets(|t.other|) + t.other)))))))
  }

  lemma {:induction false} VariablesAgree(key: T.Key, t: T.TsigData)
    requires T.NameFits(key.name) && T.Readable(t)
    ensures I.Variables(key, t, false) == VariableOctets(key, t)
    ensures I.Variables(key, t, true) == SixOctets(t.time) + TwoOctets(t.fudge)
  {
    hide SixOctets, T.Time48, T.WireName, NameOctets, T.LowerLabels, U32, U16, TwoOctets, T.Counted;
    NameOctetsAgree(T.LowerLabels(key.name));
    NameOctetsAgree(T.LowerLabels(t.algorithm));
    TimeOctets(t.time);
    ClassAndTtl();
    FieldsAgree(t.fudge, t.other);
    FieldsAgree(t.error, t.other);
  }

  /** What the MAC of a message covers: the MAC of the request, if it is a reply, then
    * the message, then the variables, or after the first message of a transfer the
    * timers only. */
  lemma {:induction false} DigestOctets(key: T.Key, m: seq<byte>, t: T.TsigData, requestMac: seq<byte>)
    requires T.NameFits(key.name) && T.Readable(t) && |requestMac| < 0x1_0000
    ensures T.DigestInput(key, m, t, None, false) == m + VariableOctets(key, t)
    ensures T.DigestInput(key, m, t, Some(requestMac), false) ==
            TwoOctets(|requestMac|) + requestMac + (m + VariableOctets(key, t))
    ensures T.DigestInput(key, m, t, Some(requestMac), true) ==
            TwoOctets(|requestMac|) + requestMac + (m + (SixOctets(t.time) + TwoOctets(t.fudge)))
  {
    VariablesAgree(key, t);
    hide T.DigestInput, VariableOctets, I.Variables, SixOctets;
    I.DigestParts(key, m, t, None, false);
    I.DigestParts(key, m, t, Some(requestMac), false);
    I.DigestParts(key, m, t, Some(requestMac), true);
    assert [] + (m + VariableOctets(key, t)) == m + VariableOctets(key, t);
  }
}
