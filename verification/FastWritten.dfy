// What the walkers of the fast path find in written messages: the layout of these is
// stated in Messages, without the walkers.

module FastWritten {
  import opened Wrappers
  import opened Bytes
  import opened Messages
  import opened FastWire

  // ---- Reading names ----

  lemma {:induction false} NameIsSkipped(w: seq<byte>, p: nat, labels: seq<seq<byte>>, pointer: Option<nat>)
    requires WrittenName(labels, pointer).Fits() && At(w, p, NameOctets(labels, pointer))
    ensures SkipName(w, p) == Some(p + |NameOctets(labels, pointer)|)
    ensures SkipLabels(w, p) == if pointer.None? then Some(p + |NameOctets(labels, pointer)|) else None
    decreases |labels|
  {
    if labels != [] {
      var n, rest := LabelAt(w, p, labels, pointer);
      hide At, NameOctets;
      NameIsSkipped(w, p + 1 + n, labels[1..], pointer);
    } else if pointer.None? {
      AtOne(w, p, 0);
    } else {
      var a, b: byte := 192 + pointer.value / 256, pointer.value % 256;
      assert NameOctets(labels, pointer) == [a] + [b];
      AtSplit(w, p, [a], [b]);
      AtOne(w, p, a);
      AtOne(w, p + 1, b);
    }
  }

  lemma {:induction false} RecordIsSkipped(w: seq<byte>, p: nat, r: Written)
    requires r.Fits() && At(w, p, RecordOctets(r))
    ensures SkipName(w, p) == Some(p + |NameOctets(r.owner.labels, r.owner.pointer)|)
  {
    hide At, NameOctets, SkipName, RecordOctets;
    RecordAt(w, p, r);
    NameIsSkipped(w, p, r.owner.labels, r.owner.pointer);
  }

  lemma {:induction false} QuestionAt(w: seq<byte>, p: nat, q: Question)
    requires q.Fits() && At(w, p, QuestionOctets(q))
    ensures SkipName(w, p).Some? && SkipName(w, p).value + 4 == p + |QuestionOctets(q)| <= |w|
  {
    hide At, NameOctets, SkipName, QuestionOctets;
    QuestionEnds(w, p, q);
    NameIsSkipped(w, p, q.name.labels, q.name.pointer);
  }

  lemma {:induction false} QuestionsAt(w: seq<byte>, p: nat, qs: seq<Question>)
    requires (forall i :: 0 <= i < |qs| ==> qs[i].Fits()) && At(w, p, AllQuestions(qs))
    ensures SkipQuestions(w, p, |qs|) == SkipQuestionsLoosely(w, p, |qs|) == Some(p + |AllQuestions(qs)|)
    decreases |qs|
  {
    hide At, QuestionOctets, SkipName;
    if qs != [] {
      AtSplit(w, p, QuestionOctets(qs[0]), AllQuestions(qs[1..]));
      QuestionAt(w, p, qs[0]);
      QuestionsAt(w, p + |QuestionOctets(qs[0])|, qs[1..]);
    }
  }

  // ---- The TTL fields ----

  /** The TTLs of the records that have one: OPT does not. */
  function TtlsOf(rs: seq<Written>): seq<nat> {
    if rs == [] then [] else (if rs[0].rtype == 41 then [] else [rs[0].ttl]) + TtlsOf(rs[1..])
  }

  /** `offs` are places in `w` that hold these TTLs, one by one. */
  ghost predicate Hold(w: seq<byte>, offs: seq<nat>, ttls: seq<nat>) {
    && |offs| == |ttls|
    && forall k :: 0 <= k < |offs| ==> offs[k] + 4 <= |w| && FromU32(w, offs[k]) == ttls[k]
  }

  lemma {:induction false} WalkFindsTtls(w: seq<byte>, p: nat, rs: seq<Written>)
    requires (forall i :: 0 <= i < |rs| ==> rs[i].Fits()) && At(w, p, AllRecords(rs))
    ensures TtlWalk(w, p, |rs|).Some? && Hold(w, TtlWalk(w, p, |rs|).value, TtlsOf(rs))
    decreases |rs|
  {
    hide At, RecordOctets, Written.Fits, Hold;
    if rs == [] {
      HoldNothing(w);
    } else {
      AtSplit(w, p, RecordOctets(rs[0]), AllRecords(rs[1..]));
      WalkFindsTtls(w, p + |RecordOctets(rs[0])|, rs[1..]);
      hide AllRecords, TtlWalk, TtlsOf;
      FirstTtl(w, p, rs);
    }
  }

  lemma {:induction false} HoldNothing(w: seq<byte>)
    ensures Hold(w, [], [])
  {
  }

  lemma {:induction false} FirstTtl(w: seq<byte>, p: nat, rs: seq<Written>)
    requires rs != [] && rs[0].Fits() && At(w, p, RecordOctets(rs[0]))
    requires var rest := TtlWalk(w, p + |RecordOctets(rs[0])|, |rs| - 1); rest.Some? && Hold(w, rest.value, TtlsOf(rs[1..]))
    ensures TtlWalk(w, p, |rs|).Some? && Hold(w, TtlWalk(w, p, |rs|).value, TtlsOf(rs))
  {
    hide At, RecordOctets, NameOctets, SkipName, FromU16, FromU32, Written.Fits, TtlWalk;
    RecordAt(w, p, rs[0]);
    RecordIsSkipped(w, p, rs[0]);
    TtlStep(w, p, |rs|);
    var q := SkipName(w, p).value;
    var first, rest := if rs[0].rtype == 41 then [] else [q + 4], TtlWalk(w, p + |RecordOctets(rs[0])|, |rs| - 1).value;
    HoldMore(w, first, if rs[0].rtype == 41 then [] else [rs[0].ttl], rest, TtlsOf(rs[1..]));
  }

  lemma {:induction false} HoldMore(w: seq<byte>, a: seq<nat>, x: seq<nat>, b: seq<nat>, y: seq<nat>)
    requires Hold(w, a, x) && Hold(w, b, y)
    ensures Hold(w, a + b, x + y)
  {
    hide FromU32;
  }

  /** In a written message the offsets are the places of the TTLs of its records, in
    * order, the OPT record left out. */
  lemma {:induction false} OffsetsHoldTtls(m: Message)
    requires m.Fits()
    ensures TtlOffsets(Octets(m)).Some? && Hold(Octets(m), TtlOffsets(Octets(m)).value, TtlsOf(m.Records()))
  {
    hide Octets, At, AllQuestions, AllRecords, FromU16, FromU32, TtlWalk;
    HeaderAt(m);
    QuestionsAt(Octets(m), 12, m.questions);
    WalkFindsTtls(Octets(m), 12 + |AllQuestions(m.questions)|, m.Records());
  }

  // ---- EDNS options ----

  datatype EdnsOpt = EdnsOpt(code: nat, value: seq<byte>) {
    predicate Fits() {
      code < 0x1_0000 && |value| < 0x1_0000
    }
  }

  function OptionOctets(o: EdnsOpt): seq<byte>
    requires o.Fits()
  {
    U16(o.code) + (U16(|o.value|) + o.value)
  }

  function AllOptions(os: seq<EdnsOpt>): seq<byte>
    requires forall i :: 0 <= i < |os| ==> os[i].Fits()
  {
    if os == [] then [] else OptionOctets(os[0]) + AllOptions(os[1..])
  }

  /** The value of the first option of this code. */
  function FirstValue(os: seq<EdnsOpt>, code: nat): Option<seq<byte>> {
    if os == [] then None
    else if os[0].code == code then Some(os[0].value)
    else FirstValue(os[1..], code)
  }

  function FirstOpt(rs: seq<Written>): Option<Written> {
    if rs == [] then None
    else if rs[0].rtype == 41 then Some(rs[0])
    else FirstOpt(rs[1..])
  }

  /** `found` is where this value stands, or None if there is none. */
  ghost predicate Finds(w: seq<byte>, found: Option<(nat, nat)>, value: Option<seq<byte>>) {
    match (found, value)
    case (None, None) => true
    case (Some((at, len)), Some(v)) => len == |v| && At(w, at, v)
    case _ => false
  }

  lemma {:induction false} OptionsAreFound(w: seq<byte>, p: nat, os: seq<EdnsOpt>, code: nat)
    requires (forall i :: 0 <= i < |os| ==> os[i].Fits()) && At(w, p, AllOptions(os)) && p + |AllOptions(os)| <= |w|
    ensures Finds(w, OptionWalk(w, p, p + |AllOptions(os)|, code), FirstValue(os, code))
    decreases |os|
  {
    hide At, FromU16, U16;
    if os != [] {
      var o, rest := os[0], AllOptions(os[1..]);
      AtSplit(w, p, OptionOctets(o), rest);
      AtFits(w, p, OptionOctets(o));
      FieldAt(w, p, o.code, U16(|o.value|) + o.value);
      FieldAt(w, p + 2, |o.value|, o.value);
      AtFits(w, p + |OptionOctets(o)|, rest);
      OptionsAreFound(w, p + |OptionOctets(o)|, os[1..], code);
    }
  }

  lemma {:induction false} WalkFindsOption(w: seq<byte>, p: nat, rs: seq<Written>, os: seq<EdnsOpt>, code: nat)
    requires (forall i :: 0 <= i < |rs| ==> rs[i].Fits()) && At(w, p, AllRecords(rs))
    requires forall i :: 0 <= i < |os| ==> os[i].Fits()
    requires FirstOpt(rs).Some? ==> FirstOpt(rs).value.rdata == AllOptions(os)
    ensures Finds(w, EdnsWalk(w, p, |rs|, code), if FirstOpt(rs).Some? then FirstValue(os, code) else None)
    decreases |rs|
  {
    hide At, RecordOctets, SkipName, FromU16, OptionWalk, Finds, AllOptions, FirstValue;
    if rs == [] {
      NothingFound(w);
    } else {
      AtSplit(w, p, RecordOctets(rs[0]), AllRecords(rs[1..]));
      RecordAt(w, p, rs[0]);
      RecordIsSkipped(w, p, rs[0]);
      if rs[0].rtype == 41 {
        OptionsAreFound(w, SkipName(w, p).value + 10, os, code);
      } else {
        WalkFindsOption(w, p + |RecordOctets(rs[0])|, rs[1..], os, code);
      }
    }
  }

  lemma {:induction false} NothingFound(w: seq<byte>)
    ensures Finds(w, None, None)
  {
  }

  /** In a written message whose first OPT record holds these options, the walk finds the
    * value of the first option of the code asked for, and nothing if there is none. */
  lemma {:induction false} OptionIsFound(m: Message, os: seq<EdnsOpt>, code: nat)
    requires m.Fits() && forall i :: 0 <= i < |os| ==> os[i].Fits()
    requires FirstOpt(m.Records()).Some? ==> FirstOpt(m.Records()).value.rdata == AllOptions(os)
    ensures Finds(Octets(m), EdnsOption(Octets(m), code), if FirstOpt(m.Records()).Some? then FirstValue(os, code) else None)
  {
    hide Octets, At, AllQuestions, AllRecords, FromU16, EdnsWalk, Finds, FirstValue, AllOptions;
    HeaderAt(m);
    QuestionsAt(Octets(m), 12, m.questions);
    WalkFindsOption(Octets(m), 12 + |AllQuestions(m.questions)|, m.Records(), os, code);
  }

  lemma {:induction false} OptionHasHead(w: seq<byte>, q: nat, end: nat, code: nat)
    requires end <= |w| && OptionWalk(w, q, end, code).Some?
    ensures var (at, len) := OptionWalk(w, q, end, code).value;
            4 <= at && at + len <= |w| && FromU16(w, at - 4) == code && FromU16(w, at - 2) == len
    decreases end - q
  {
    if FromU16(w, q) != code {
      OptionHasHead(w, q + 4 + FromU16(w, q + 2), end, code);
    }
  }

  lemma {:induction false} WalkedHasHead(w: seq<byte>, p: nat, count: nat, code: nat)
    requires EdnsWalk(w, p, count, code).Some?
    ensures var (at, len) := EdnsWalk(w, p, count, code).value;
            4 <= at && at + len <= |w| && FromU16(w, at - 4) == code && FromU16(w, at - 2) == len
    decreases count
  {
    hide OptionWalk, FromU16;
    var q := SkipName(w, p).value;
    var next := q + 10 + FromU16(w, q + 8);
    if FromU16(w, q) == TYPE_OPT {
      OptionHasHead(w, q + 10, if next <= |w| then next else |w|, code);
    } else {
      WalkedHasHead(w, next, count - 1, code);
    }
  }

  /** In any message at all, what is found has the code asked for and its length before it. */
  lemma {:induction false} FoundHasHead(w: seq<byte>, code: nat)
    requires EdnsOption(w, code).Some?
    ensures var (at, len) := EdnsOption(w, code).value;
            4 <= at && at + len <= |w| && FromU16(w, at - 4) == code && FromU16(w, at - 2) == len
  {
    hide EdnsWalk, SkipQuestionsLoosely, FromU16;
    WalkedHasHead(w, SkipQuestionsLoosely(w, 12, QdCount(w)).value, RecordCount(w), code);
  }

  // ---- The query key ----

  /** A written query is replayable if and only if it says it is a query of the standard
    * kind, asks one question, by a name without pointer, and brings neither answer nor
    * authority records; the question name ends where the key has it end. */
  lemma {:induction false} QueryIsKeyed(m: Message)
    requires m.Fits() && m.questions != []
    ensures QueryKey(Octets(m)).Some? <==>
            m.flags[0] < 8 && |m.questions| == 1 && m.answers == [] && m.authority == [] && m.questions[0].name.pointer.None?
    ensures QueryKey(Octets(m)).Some? ==>
            QueryKey(Octets(m)).value.1 == 12 + |NameOctets(m.questions[0].name.labels, m.questions[0].name.pointer)|
  {
    HeaderTells(m);
    FirstQuestionEnds(m);
    hide Octets, SkipLabels, NameOctets, KeyBytes, QueryHeader, Message.Fits;
  }

  lemma {:induction false} HeaderTells(m: Message)
    requires m.Fits()
    ensures |Octets(m)| >= 12
    ensures QueryHeader(Octets(m)) <==> m.flags[0] < 8 && |m.questions| == 1 && m.answers == [] && m.authority == []
  {
    CountsAreOctets(m);
    hide Octets;
  }

  lemma {:induction false} FirstQuestionEnds(m: Message)
    requires m.Fits() && m.questions != []
    ensures var n := m.questions[0].name;
            var w, end := Octets(m), 12 + |NameOctets(n.labels, n.pointer)|;
            && 13 <= end && end + 4 <= |w|
            && SkipLabels(w, 12) == if n.pointer.None? then Some(end) else None
  {
    hide Octets, At, AllRecords, FromU16, U16, SkipLabels, SkipName, NameOctets, QuestionOctets;
    HeaderAt(m);
    AtSplit(Octets(m), 12, QuestionOctets(m.questions[0]), AllQuestions(m.questions[1..]));
    QuestionEnds(Octets(m), 12, m.questions[0]);
    NameIsSkipped(Octets(m), 12, m.questions[0].name.labels, m.questions[0].name.pointer);
  }

  lemma {:induction false} CountsAreOctets(m: Message)
    requires m.Fits()
    ensures var w := Octets(m);
            && |w| >= 12 && w[2] == m.flags[0] && w[4] as nat * 256 + w[5] as nat == |m.questions|
            && w[6] as nat * 256 + w[7] as nat == |m.answers| && w[8] as nat * 256 + w[9] as nat == |m.authority|
  {
    HeaderAt(m);
    var w := Octets(m);
    assert w[2] == w[2..4][0];
  }
}
