// Messages as they are written (RFC 1035 section 4.1), octet by octet.

module Messages {
  import opened Wrappers
  import opened Bytes

  /** A name: labels, and the root or a pointer to what follows them. */
  datatype WrittenName = WrittenName(labels: seq<seq<byte>>, pointer: Option<nat>) {
    predicate Fits() {
      && (forall i :: 0 <= i < |labels| ==> 1 <= |labels[i]| <= 63)
      && (pointer.Some? ==> pointer.value < 0x4000)
    }
  }

  datatype Question = Question(name: WrittenName, qtype: nat, qclass: nat) {
    predicate Fits() {
      name.Fits() && qtype < 0x1_0000 && qclass < 0x1_0000
    }
  }

  datatype Written = Written(owner: WrittenName, rtype: nat, rclass: nat, ttl: nat, rdata: seq<byte>) {
    predicate Fits() {
      owner.Fits() && rtype < 0x1_0000 && rclass < 0x1_0000 && ttl < 0x1_0000_0000 && |rdata| < 0x1_0000
    }
  }

  /** A message: its id, its two octets of flags, and its four sections. */
  datatype Message = Message(id: nat, flags: seq<byte>, questions: seq<Question>,
                             answers: seq<Written>, authority: seq<Written>, additional: seq<Written>)
  {
    predicate Fits() {
      && id < 0x1_0000 && |flags| == 2
      && |questions| < 0x1_0000 && |answers| < 0x1_0000 && |authority| < 0x1_0000 && |additional| < 0x1_0000
      && (forall i :: 0 <= i < |questions| ==> questions[i].Fits())
      && (forall i :: 0 <= i < |Records()| ==> Records()[i].Fits())
    }

    function Records(): seq<Written> {
      answers + authority + additional
    }
  }

  function NameOctets(labels: seq<seq<byte>>, pointer: Option<nat>): (s: seq<byte>)
    requires WrittenName(labels, pointer).Fits()
    ensures |s| >= 1
  {
    if labels != [] then
      assert WrittenName(labels[1..], pointer).Fits();
      [|labels[0]|] + labels[0] + NameOctets(labels[1..], pointer)
    else if pointer.None? then [0]
    else [192 + pointer.value / 256, pointer.value % 256]
  }

  function QuestionOctets(q: Question): seq<byte>
    requires q.Fits()
  {
    NameOctets(q.name.labels, q.name.pointer) + (U16(q.qtype) + U16(q.qclass))
  }

  function RecordOctets(r: Written): seq<byte>
    requires r.Fits()
  {
    NameOctets(r.owner.labels, r.owner.pointer) + FieldOctets(r)
  }

  function FieldOctets(r: Written): seq<byte>
    requires r.Fits()
  {
    U16(r.rtype) + (U16(r.rclass) + (U32(r.ttl) + (U16(|r.rdata|) + r.rdata)))
  }

  function AllQuestions(qs: seq<Question>): seq<byte>
    requires forall i :: 0 <= i < |qs| ==> qs[i].Fits()
  {
    if qs == [] then [] else QuestionOctets(qs[0]) + AllQuestions(qs[1..])
  }

  function AllRecords(rs: seq<Written>): seq<byte>
    requires forall i :: 0 <= i < |rs| ==> rs[i].Fits()
  {
    if rs == [] then [] else RecordOctets(rs[0]) + AllRecords(rs[1..])
  }

  function Header(m: Message): (s: seq<byte>)
    requires m.Fits()
    ensures |s| == 12
  {
    U16(m.id) + (m.flags + (U16(|m.questions|) + (U16(|m.answers|) + (U16(|m.authority|) + U16(|m.additional|)))))
  }

  function Octets(m: Message): seq<byte>
    requires m.Fits()
  {
    Header(m) + (AllQuestions(m.questions) + AllRecords(m.Records()))
  }

  // ---- Where things are ----

  lemma {:induction false} FieldAt(w: seq<byte>, p: nat, v: nat, rest: seq<byte>)
    requires v < 0x1_0000 && At(w, p, U16(v) + rest)
    ensures p + 2 <= |w| && FromU16(w, p) == v && At(w, p + 2, rest)
  {
    AtSplit(w, p, U16(v), rest);
    U16At(w, p, v);
  }

  lemma {:induction false} AtFits(w: seq<byte>, p: nat, s: seq<byte>)
    requires At(w, p, s)
    ensures p + |s| <= |w|
  {
  }

  lemma {:induction false} QuestionEnds(w: seq<byte>, p: nat, q: Question)
    requires q.Fits() && At(w, p, QuestionOctets(q))
    ensures At(w, p, NameOctets(q.name.labels, q.name.pointer))
    ensures p + |NameOctets(q.name.labels, q.name.pointer)| + 4 == p + |QuestionOctets(q)| <= |w|
  {
    hide At, NameOctets;
    AtSplit(w, p, NameOctets(q.name.labels, q.name.pointer), U16(q.qtype) + U16(q.qclass));
    AtFits(w, p, QuestionOctets(q));
  }

  /** The first label of a name, and the rest of it. */
  lemma {:induction false} LabelAt(w: seq<byte>, p: nat, labels: seq<seq<byte>>, pointer: Option<nat>) returns (n: nat, rest: seq<byte>)
    requires labels != [] && WrittenName(labels, pointer).Fits() && At(w, p, NameOctets(labels, pointer))
    ensures WrittenName(labels[1..], pointer).Fits() && rest == NameOctets(labels[1..], pointer)
    ensures n == |labels[0]| && 1 <= n <= 63 && |NameOctets(labels, pointer)| == 1 + n + |rest|
    ensures p + 1 + n + |rest| <= |w| && w[p] == n && w[p + 1..p + 1 + n] == labels[0] && At(w, p + 1 + n, rest)
  {
    n, rest := |labels[0]|, NameOctets(labels[1..], pointer);
    assert NameOctets(labels, pointer) == [n] + (labels[0] + rest);
    hide At, NameOctets;
    AtSplit(w, p, [n], labels[0] + rest);
    AtSplit(w, p + 1, labels[0], rest);
    AtOne(w, p, n);
    AtIs(w, p + 1, labels[0]);
    AtFits(w, p + 1 + n, rest);
  }

  lemma {:induction false} FieldsAt(w: seq<byte>, q: nat, r: Written)
    requires r.Fits() && At(w, q, FieldOctets(r))
    ensures q + 10 + |r.rdata| == q + |FieldOctets(r)| <= |w|
    ensures FromU16(w, q) == r.rtype && FromU32(w, q + 4) == r.ttl && FromU16(w, q + 8) == |r.rdata|
    ensures At(w, q + 10, r.rdata)
  {
    var t4 := U16(|r.rdata|) + r.rdata;
    var t3 := U32(r.ttl) + t4;
    var t2 := U16(r.rclass) + t3;
    hide At, U16, U32, FromU16, FromU32, WrittenName.Fits;
    FieldAt(w, q, r.rtype, t2);
    FieldAt(w, q + 2, r.rclass, t3);
    AtSplit(w, q + 4, U32(r.ttl), t4);
    U32At(w, q + 4, r.ttl);
    FieldAt(w, q + 8, |r.rdata|, r.rdata);
    AtFits(w, q + 10, r.rdata);
  }

  /** Where the fields of a written record are. */
  lemma {:induction false} RecordAt(w: seq<byte>, p: nat, r: Written)
    requires r.Fits() && At(w, p, RecordOctets(r))
    ensures At(w, p, NameOctets(r.owner.labels, r.owner.pointer))
    ensures var q := p + |NameOctets(r.owner.labels, r.owner.pointer)|;
            && q + 10 + |r.rdata| == p + |RecordOctets(r)| <= |w|
            && FromU16(w, q) == r.rtype && FromU32(w, q + 4) == r.ttl && FromU16(w, q + 8) == |r.rdata|
            && At(w, q + 10, r.rdata)
  {
    hide At, NameOctets, FromU16, FromU32, FieldOctets;
    var name := NameOctets(r.owner.labels, r.owner.pointer);
    AtSplit(w, p, name, FieldOctets(r));
    FieldsAt(w, p + |name|, r);
  }

  lemma {:induction false} HeaderAt(m: Message)
    requires m.Fits()
    ensures var w := Octets(m);
            && |w| >= 12 && w[..2] == U16(m.id) && w[2..4] == m.flags
            && FromU16(w, 4) == |m.questions|
            && FromU16(w, 6) == |m.answers| && FromU16(w, 8) == |m.authority| && FromU16(w, 10) == |m.additional|
            && At(w, 12, AllQuestions(m.questions)) && At(w, 12 + |AllQuestions(m.questions)|, AllRecords(m.Records()))
            && |w| == 12 + |AllQuestions(m.questions)| + |AllRecords(m.Records())|
  {
    PartsAt(m);
    hide AllQuestions, AllRecords, U16, FromU16, Message.Fits, At, Header, Octets;
    HeaderFields(m, Octets(m));
  }

  lemma {:induction false} PartsAt(m: Message)
    requires m.Fits()
    ensures var w, qs, rs := Octets(m), AllQuestions(m.questions), AllRecords(m.Records());
            At(w, 0, Header(m)) && At(w, 12, qs) && At(w, 12 + |qs|, rs) && |w| == 12 + |qs| + |rs|
  {
    var w, qs, rs := Octets(m), AllQuestions(m.questions), AllRecords(m.Records());
    hide AllQuestions, AllRecords, Message.Fits, Header;
    assert w[0..|w|] == w && At(w, 0, w);
    hide At;
    AtSplit(w, 0, Header(m), qs + rs);
    AtSplit(w, 12, qs, rs);
  }

  lemma {:induction false} HeaderFields(m: Message, w: seq<byte>)
    requires m.Fits() && At(w, 0, Header(m))
    ensures |w| >= 12 && w[..2] == U16(m.id) && w[2..4] == m.flags
    ensures FromU16(w, 4) == |m.questions| && FromU16(w, 6) == |m.answers|
    ensures FromU16(w, 8) == |m.authority| && FromU16(w, 10) == |m.additional|
  {
    var t4 := U16(|m.authority|) + U16(|m.additional|);
    var t3 := U16(|m.answers|) + t4;
    var t2 := U16(|m.questions|) + t3;
    hide U16, FromU16, Message.Fits, At;
    FitsParts(m);
    AtFits(w, 0, Header(m));
    AtSplit(w, 0, U16(m.id), m.flags + t2);
    AtIs(w, 0, U16(m.id));
    AtSplit(w, 2, m.flags, t2);
    AtIs(w, 2, m.flags);
    FieldAt(w, 4, |m.questions|, t3);
    FieldAt(w, 6, |m.answers|, t4);
    FieldAt(w, 8, |m.authority|, U16(|m.additional|));
    U16At(w, 10, |m.additional|);
  }

  lemma {:induction false} FitsParts(m: Message)
    requires m.Fits()
    ensures m.id < 0x1_0000 && |m.flags| == 2
    ensures |m.questions| < 0x1_0000 && |m.answers| < 0x1_0000 && |m.authority| < 0x1_0000 && |m.additional| < 0x1_0000
  {
  }
}
