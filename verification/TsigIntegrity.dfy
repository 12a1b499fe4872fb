// What a verified TSIG vouches for: nothing under the MAC can have been altered.

module TsigIntegrity {
  import opened Wrappers
  import opened Bytes
  import opened Tsig

  // ---- Where a message ends ----

  /** Where a name ends; a pointer ends it, wherever it leads. */
  function NameEnd(w: seq<byte>, p: nat): (r: Option<nat>)
    ensures r.Some? ==> p < r.value <= |w|
    decreases |w| - p
  {
    if p >= |w| then None
    else if w[p] == 0 then Some(p + 1)
    else if w[p] < 64 then (if p + 1 + w[p] as nat > |w| then None else NameEnd(w, p + 1 + w[p] as nat))
    else if w[p] >= 192 && p + 1 < |w| then Some(p + 2)
    else None
  }

  function RecordEnd(w: seq<byte>, p: nat): (r: Option<nat>)
    ensures r.Some? ==> p < r.value <= |w|
  {
    match NameEnd(w, p)
    case None => None
    case Some(q) =>
      if q + 10 > |w| || q + 10 + FromU16(w, q + 8) > |w| then None else Some(q + 10 + FromU16(w, q + 8))
  }

  /** Where `qs` questions and then `rs` records end. */
  function Extent(w: seq<byte>, p: nat, qs: nat, rs: nat): Option<nat>
    decreases qs + rs
  {
    if qs > 0 then
      match NameEnd(w, p)
      case None => None
      case Some(q) => if q + 4 > |w| then None else Extent(w, q + 4, qs - 1, rs)
    else if rs > 0 then
      match RecordEnd(w, p)
      case None => None
      case Some(q) => Extent(w, q, 0, rs - 1)
    else Some(p)
  }

  /** The message ends where its counts say. */
  predicate Delimited(m: seq<byte>) {
    |m| >= 12 && Extent(m, 12, QdCount(m), RecordCount(m)) == Some(|m|)
  }

  lemma {:induction false} ReadNameEnds(w: seq<byte>, p: nat, hops: nat, total: nat, floor: nat)
    requires ReadName(w, p, hops, total, floor).Some?
    ensures NameEnd(w, p) == Some(ReadName(w, p, hops, total, floor).value.1)
    decreases |w| - p
  {
    hide ReadName;
    LabelFits(w, p, hops, total, floor);
    if w[p] == 0 {
      RootStep(w, p, hops, total, floor);
    } else if w[p] < 64 {
      LabelStep(w, p, hops, total, floor);
      ReadNameEnds(w, p + 1 + w[p] as nat, hops, total + w[p] as nat + 1, floor);
    } else {
      PointerStep(w, p, hops, total, floor);
    }
  }

  lemma {:induction false} ReadRecordEnds(w: seq<byte>, p: nat, floor: nat)
    requires ReadRecord(w, p, floor).Some?
    ensures RecordEnd(w, p) == Some(ReadRecord(w, p, floor).value.1) && ReadRecord(w, p, floor).value.0.start == p
  {
    hide ReadName, NameEnd, ParseTsig, FromU16;
    ReadNameEnds(w, p, 0, 1, floor);
  }

  /** A walk ends where its records do, and its last record starts where the others end. */
  lemma {:induction false} WalkHasExtent(w: seq<byte>, p: nat, qs: nat, rs: nat, last: Option<Record>, floor: nat)
    requires Walk(w, p, qs, rs, last, floor).Some?
    ensures Extent(w, p, qs, rs) == Some(Walk(w, p, qs, rs, last, floor).value.1)
    ensures rs > 0 ==> var l := Walk(w, p, qs, rs, last, floor).value.0;
                       l.Some? && Extent(w, p, qs, rs - 1) == Some(l.value.start)
    decreases qs + rs
  {
    hide ReadName, NameEnd, ReadRecord, RecordEnd;
    if qs > 0 {
      ReadNameEnds(w, p, 0, 1, floor);
      WalkHasExtent(w, ReadName(w, p, 0, 1, floor).value.1 + 4, qs - 1, rs, last, floor);
    } else if rs > 0 {
      ReadRecordEnds(w, p, floor);
      var (rec, next) := ReadRecord(w, p, floor).value;
      WalkHasExtent(w, next, 0, rs - 1, Some(rec), floor);
      if rs == 1 {
        WalkDone(w, next, Some(rec), floor);
      }
    }
  }

  lemma {:induction false} WalkDone(w: seq<byte>, p: nat, last: Option<Record>, floor: nat)
    ensures Walk(w, p, 0, 0, last, floor) == Some((last, p))
  {
  }

  /** `s` has the octets of `m` from 12 up to `e`. */
  ghost predicate Alike(m: seq<byte>, s: seq<byte>, e: nat) {
    e <= |m| && e <= |s| && forall i :: 12 <= i < e ==> s[i] == m[i]
  }

  lemma {:induction false} SameNameEnd(m: seq<byte>, s: seq<byte>, p: nat, e: nat)
    requires Alike(m, s, e) && p >= 12 && NameEnd(m, p).Some? && NameEnd(m, p).value <= e
    ensures NameEnd(s, p) == NameEnd(m, p)
    decreases |m| - p
  {
    if 0 < m[p] < 64 {
      SameNameEnd(m, s, p + 1 + m[p] as nat, e);
    }
  }

  lemma {:induction false} SameField(m: seq<byte>, s: seq<byte>, p: nat, e: nat)
    requires Alike(m, s, e) && 12 <= p && p + 2 <= e
    ensures FromU16(s, p) == FromU16(m, p)
  {
  }

  lemma {:induction false} SameRecordEnd(m: seq<byte>, s: seq<byte>, p: nat, e: nat)
    requires Alike(m, s, e) && p >= 12 && RecordEnd(m, p).Some? && RecordEnd(m, p).value <= e
    ensures RecordEnd(s, p) == RecordEnd(m, p)
  {
    hide NameEnd, FromU16;
    SameNameEnd(m, s, p, e);
    SameField(m, s, NameEnd(m, p).value + 8, e);
  }

  lemma {:induction false} ExtentAhead(w: seq<byte>, p: nat, qs: nat, rs: nat)
    requires Extent(w, p, qs, rs).Some?
    ensures p <= Extent(w, p, qs, rs).value
    ensures p <= |w| ==> Extent(w, p, qs, rs).value <= |w|
    decreases qs + rs
  {
    if qs > 0 {
      ExtentAhead(w, NameEnd(w, p).value + 4, qs - 1, rs);
    } else if rs > 0 {
      ExtentAhead(w, RecordEnd(w, p).value, 0, rs - 1);
    }
  }

  /** Where the records end depends on their own octets only. */
  lemma {:induction false} SameExtent(m: seq<byte>, s: seq<byte>, p: nat, qs: nat, rs: nat, e: nat)
    requires Alike(m, s, e) && p >= 12 && Extent(m, p, qs, rs).Some? && Extent(m, p, qs, rs).value <= e
    ensures Extent(s, p, qs, rs) == Extent(m, p, qs, rs)
    decreases qs + rs
  {
    hide NameEnd, RecordEnd;
    if qs > 0 {
      var q := NameEnd(m, p).value;
      ExtentAhead(m, q + 4, qs - 1, rs);
      SameNameEnd(m, s, p, e);
      SameExtent(m, s, q + 4, qs - 1, rs, e);
    } else if rs > 0 {
      var q := RecordEnd(m, p).value;
      ExtentAhead(m, q, 0, rs - 1);
      SameRecordEnd(m, s, p, e);
      SameExtent(m, s, q, 0, rs - 1, e);
    }
  }

  lemma {:induction false} SameCounts(m: seq<byte>, s: seq<byte>)
    requires |m| >= 12 && |s| >= 12 && forall i :: 4 <= i < 12 ==> s[i] == m[i]
    ensures QdCount(s) == QdCount(m) && RecordCount(s) == RecordCount(m)
  {
  }

  /** A message tells where it ends, whatever follows it. */
  lemma {:induction false} DelimitedIsPrefixFree(m: seq<byte>, v: seq<byte>, m': seq<byte>, v': seq<byte>)
    requires Delimited(m) && Delimited(m') && m + v == m' + v'
    ensures m == m' && v == v'
  {
    hide Extent, RecordCount, QdCount;
    var s := m + v;
    assert forall i :: 0 <= i < |m| ==> s[i] == m[i];
    assert forall i :: 0 <= i < |m'| ==> s[i] == m'[i];
    SameCounts(m, s);
    SameCounts(m', s);
    SameExtent(m, s, 12, QdCount(m), RecordCount(m), |m|);
    SameExtent(m', s, 12, QdCount(m'), RecordCount(m'), |m'|);
    assert m == s[..|m|] && v == s[|m|..] && m' == s[..|m'|] && v' == s[|m'|..];
  }

  lemma {:induction false} WellFormedIsDelimited(m: seq<byte>)
    requires WellFormed(m)
    ensures Delimited(m)
  {
    hide Walk, Extent;
    WalkHasExtent(m, 12, QdCount(m), RecordCount(m), None, 12);
  }

  /** Without its TSIG record, a message ends where that record started. */
  lemma {:induction false} StrippedIsDelimited(w: seq<byte>, start: nat, t: TsigData)
    requires Locate(w).Some? && Locate(w).value.0 == start && Locate(w).value.1 == t
    ensures 12 <= start <= |w| && t.originalId < 0x1_0000 && Delimited(Rebuilt(w, start, t))
  {
    LocatedFits(w);
    var m := Rebuilt(w, start, t);
    hide Walk, Extent;
    WalkHasExtent(w, 12, QdCount(w), RecordCount(w), None, 0);
    StrippedCounts(w, start, t);
    assert Extent(w, 12, QdCount(w), RecordCount(w) - 1) == Some(start);
    SameExtent(w, m, 12, QdCount(w), RecordCount(w) - 1, start);
  }

  lemma {:induction false} StrippedCounts(w: seq<byte>, start: nat, t: TsigData)
    requires 12 <= start <= |w| && t.originalId < 0x1_0000 && ArCount(w) > 0
    ensures var m := Rebuilt(w, start, t);
            && |m| == start && (forall i :: 12 <= i < start ==> m[i] == w[i])
            && QdCount(m) == QdCount(w) && RecordCount(m) == RecordCount(w) - 1
  {
    ArCountFits(w);
    CountDown(ArCount(w));
    var counted := WithArCount(w[..start], (ArCount(w) + 0xFFFF) % 0x1_0000);
    SameAt10(counted, Rebuilt(w, start, t));
  }

  lemma {:induction false} CountDown(n: nat)
    requires 0 < n < 0x1_0000
    ensures (n + 0xFFFF) % 0x1_0000 == n - 1
  {
  }

  // ---- What the digest tells ----

  lemma {:induction false} SplitAt(a: seq<byte>, v: seq<byte>, b: seq<byte>, w: seq<byte>)
    requires |a| == |b| && a + v == b + w
    ensures a == b && v == w
  {
    assert a == (a + v)[..|a|] && b == (b + w)[..|b|];
    assert v == (a + v)[|a|..] && w == (b + w)[|b|..];
  }

  lemma {:induction false} U16Tells(a: nat, b: nat)
    requires a < 0x1_0000 && b < 0x1_0000 && U16(a) == U16(b)
    ensures a == b
  {
    U16RoundTrip(a);
    U16RoundTrip(b);
  }

  lemma {:induction false} Time48Tells(a: nat, b: nat)
    requires a < 0x1_0000_0000_0000 && b < 0x1_0000_0000_0000 && Time48(a) == Time48(b)
    ensures a == b
  {
    AtWhole(Time48(a));
    TimeRoundTrip(Time48(a), 0, a);
    TimeRoundTrip(Time48(b), 0, b);
  }

  lemma {:induction false} AtWhole(s: seq<byte>)
    ensures At(s, 0, s)
  {
    assert s[0..|s|] == s;
  }

  lemma {:induction false} CountedTells(a: seq<byte>, v: seq<byte>, b: seq<byte>, w: seq<byte>)
    requires |a| < 0x1_0000 && |b| < 0x1_0000 && Counted(a) + v == Counted(b) + w
    ensures a == b && v == w
  {
    hide U16;
    assert Counted(a) + v == U16(|a|) + (a + v) && Counted(b) + w == U16(|b|) + (b + w);
    SplitAt(U16(|a|), a + v, U16(|b|), b + w);
    U16Tells(|a|, |b|);
    SplitAt(a, v, b, w);
  }

  lemma {:induction false} NameTells(a: seq<Label>, v: seq<byte>, b: seq<Label>, w: seq<byte>)
    requires NameFits(a) && NameFits(b) && WireName(a) + v == WireName(b) + w
    ensures a == b && v == w
  {
    var s := WireName(a) + v;
    assert s[0..|WireName(a)|] == WireName(a) && s[0..|WireName(b)|] == WireName(b);
    NameRoundTrip(s, 0, a, 0, 1, 0);
    NameRoundTrip(s, 0, b, 0, 1, 0);
    SplitAt(WireName(a), v, WireName(b), w);
  }

  /** The variables after the message, in both forms. */
  function Variables(key: Key, t: TsigData, timersOnly: bool): seq<byte>
    requires NameFits(key.name) && Readable(t)
  {
    if timersOnly then Time48(t.time) + U16(t.fudge)
    else WireName(LowerLabels(key.name)) + (U16(CLASS_ANY) + (U32(0) + (WireName(LowerLabels(t.algorithm)) +
         (Time48(t.time) + (U16(t.fudge) + (U16(t.error) + Counted(t.other)))))))
  }

  lemma {:induction false} DigestParts(key: Key, m: seq<byte>, t: TsigData, requestMac: Option<seq<byte>>, timersOnly: bool)
    requires NameFits(key.name) && Readable(t) && (requestMac.Some? ==> |requestMac.value| < 0x1_0000)
    ensures DigestInput(key, m, t, requestMac, timersOnly) ==
            (if requestMac.Some? then Counted(requestMac.value) else []) + (m + Variables(key, t, timersOnly))
  {
    hide WireName, LowerLabels, U16, U32, Time48, Counted;
  }

  /** The TSIG variables that the digest of this form covers. */
  predicate SameVariables(key: Key, t: TsigData, other: Key, u: TsigData, timersOnly: bool) {
    && t.time == u.time && t.fudge == u.fudge
    && (!timersOnly ==>
          && LowerLabels(key.name) == LowerLabels(other.name) && LowerLabels(t.algorithm) == LowerLabels(u.algorithm)
          && t.error == u.error && t.other == u.other)
  }

  lemma {:induction false} LowerFits(labels: seq<Label>)
    requires LabelsFit(labels)
    ensures LabelsFit(LowerLabels(labels)) && |WireName(LowerLabels(labels))| == |WireName(labels)|
    decreases |labels|
  {
    if labels != [] {
      LowerFits(labels[1..]);
      assert LowerLabels(labels)[1..] == LowerLabels(labels[1..]);
      assert |LowerLabels(labels)[0]| == |labels[0]|;
    }
  }

  lemma {:induction false} TimersTell(t: TsigData, v: seq<byte>, u: TsigData, w: seq<byte>)
    requires Readable(t) && Readable(u) && Time48(t.time) + (U16(t.fudge) + v) == Time48(u.time) + (U16(u.fudge) + w)
    ensures t.time == u.time && t.fudge == u.fudge && v == w
  {
    hide U16;
    SplitAt(Time48(t.time), U16(t.fudge) + v, Time48(u.time), U16(u.fudge) + w);
    SplitAt(U16(t.fudge), v, U16(u.fudge), w);
    hide Time48;
    Time48Tells(t.time, u.time);
    U16Tells(t.fudge, u.fudge);
  }

  lemma {:induction false} RestTells(t: TsigData, u: TsigData)
    requires Readable(t) && Readable(u)
    requires U16(t.error) + Counted(t.other) == U16(u.error) + Counted(u.other)
    ensures t.error == u.error && t.other == u.other
  {
    hide U16, Counted;
    SplitAt(U16(t.error), Counted(t.other), U16(u.error), Counted(u.other));
    U16Tells(t.error, u.error);
    assert Counted(t.other) + [] == Counted(u.other) + [] by {
      assert Counted(t.other) + [] == Counted(t.other) && Counted(u.other) + [] == Counted(u.other);
    }
    CountedTells(t.other, [], u.other, []);
  }

  /** Equal variables of one form are variable for variable the same. */
  lemma {:induction false} VariablesTell(key: Key, t: TsigData, other: Key, u: TsigData, timersOnly: bool)
    requires NameFits(key.name) && NameFits(other.name) && Readable(t) && Readable(u)
    requires NameFits(t.algorithm) && NameFits(u.algorithm)
    requires Variables(key, t, timersOnly) == Variables(other, u, timersOnly)
    ensures SameVariables(key, t, other, u, timersOnly)
  {
    hide U16, U32, Time48, Counted, WireName, LowerLabels;
    if timersOnly {
      assert U16(t.fudge) + [] == U16(t.fudge) && U16(u.fudge) + [] == U16(u.fudge);
      TimersTell(t, [], u, []);
    } else {
      LowerFits(key.name);
      LowerFits(other.name);
      LowerFits(t.algorithm);
      LowerFits(u.algorithm);
      var a4, b4 := U16(t.error) + Counted(t.other), U16(u.error) + Counted(u.other);
      var a3, b3 := Time48(t.time) + (U16(t.fudge) + a4), Time48(u.time) + (U16(u.fudge) + b4);
      var a2, b2 := WireName(LowerLabels(t.algorithm)) + a3, WireName(LowerLabels(u.algorithm)) + b3;
      var a1, b1 := U16(CLASS_ANY) + (U32(0) + a2), U16(CLASS_ANY) + (U32(0) + b2);
      NameTells(LowerLabels(key.name), a1, LowerLabels(other.name), b1);
      SplitAt(U16(CLASS_ANY), U32(0) + a2, U16(CLASS_ANY), U32(0) + b2);
      SplitAt(U32(0), a2, U32(0), b2);
      NameTells(LowerLabels(t.algorithm), a3, LowerLabels(u.algorithm), b3);
      TimersTell(t, a4, u, b4);
      RestTells(t, u);
    }
  }

  lemma {:induction false} VariableSizes(key: Key, t: TsigData)
    requires NameFits(key.name) && Readable(t)
    ensures |Variables(key, t, true)| == 8 && |Variables(key, t, false)| >= 20
  {
  }

  /** Equal digests, of a message with or without a request MAC, are of the same
    * request MAC, message, form and variables. */
  lemma {:induction false} DigestTells(key: Key, m: seq<byte>, t: TsigData, mac: Option<seq<byte>>, timers: bool,
                                       other: Key, m': seq<byte>, u: TsigData, mac': Option<seq<byte>>, timers': bool)
    requires NameFits(key.name) && NameFits(other.name) && Readable(t) && Readable(u)
    requires NameFits(t.algorithm) && NameFits(u.algorithm) && Delimited(m) && Delimited(m')
    requires mac.Some? <==> mac'.Some?
    requires mac.Some? ==> |mac.value| < 0x1_0000 && |mac'.value| < 0x1_0000
    requires DigestInput(key, m, t, mac, timers) == DigestInput(other, m', u, mac', timers')
    ensures mac == mac' && m == m' && timers == timers' && SameVariables(key, t, other, u, timers)
  {
    hide DigestInput, Counted, Variables, Delimited;
    DigestParts(key, m, t, mac, timers);
    DigestParts(other, m', u, mac', timers');
    var v, v' := Variables(key, t, timers), Variables(other, u, timers');
    if mac.Some? {
      CountedTells(mac.value, m + v, mac'.value, m' + v');
    } else {
      assert [] + (m + v) == m + v && [] + (m' + v') == m' + v';
    }
    DelimitedIsPrefixFree(m, v, m', v');
    VariableSizes(key, t);
    VariableSizes(other, u);
    VariablesTell(key, t, other, u, timers);
  }

  // ---- What is accepted is what was signed ----

  /** What is accepted is under a key of the ring that goes with the record's name and
    * algorithm, in time, without an error, and under no less than half of a hash of
    * that key (section 5.2.2.1), and ten octets of it. */
  lemma {:induction false} AcceptedMeans(hmac: Hmac, w: seq<byte>, find: seq<Label> -> Option<Key>, requestMac: Option<seq<byte>>,
                                         now: int, fudgeMax: nat, timersOnly: bool)
    requires forall owner :: find(owner).Some? ==> NameFits(find(owner).value.name)
    requires requestMac.Some? ==> |requestMac.value| < 0x1_0000
    requires VerifyWire(hmac, w, find, requestMac, now, fudgeMax, timersOnly).Accepted?
    ensures var Accepted(mac, key, t) := VerifyWire(hmac, w, find, requestMac, now, fudgeMax, timersOnly);
            && (exists owner :: find(owner) == Some(key)) && LowerLabels(key.algorithm) == LowerLabels(t.algorithm)
            && t.mac == mac && t.error == 0
            && t.time - t.fudge <= now <= t.time + t.fudge && t.time - fudgeMax <= now <= t.time + fudgeMax
            && exists data :: var whole := hmac(key.secret, LowerLabels(key.algorithm), data);
                              |whole| <= 2 * |mac| + 1 && 10 <= |mac| && mac <= whole
  {
    var (start, t, owner) := Locate(w).value;
    LocatedFits(w);
    var key := find(owner).value;
    var data := DigestInput(key, Rebuilt(w, start, t), t, requestMac, timersOnly);
    hide Locate, Rebuilt, DigestInput, LowerLabels, WireName;
    var whole := hmac(key.secret, LowerLabels(key.algorithm), data);
    assert t.mac <= whole;
  }

  /** Under this secret and algorithm, one input only has a hash that begins so. */
  ghost predicate OneInput(hmac: Hmac, key: Key, mac: seq<byte>) {
    forall a, b :: mac <= hmac(key.secret, LowerLabels(key.algorithm), a) && mac <= hmac(key.secret, LowerLabels(key.algorithm), b) ==> a == b
  }

  /** A verifier accepts under a MAC, or the beginning of one, only what the signer made
    * it for: the message stripped of its TSIG is the signed one octet for octet, the
    * request MAC and the form are the signer's, and so are time and fudge and, unless
    * only the timers are signed, the key name, the error and the other data. The
    * verifier knows whether it waits for a reply; `key'` may be any key with the
    * signer's secret. */
  lemma {:induction false} AcceptedIsSigned(hmac: Hmac, m: seq<byte>, key: Key, requestMac: Option<seq<byte>>, time: nat, fudge: nat,
      originalId: Option<nat>, error: nat, other: seq<byte>, timersOnly: bool,
      w: seq<byte>, find: seq<Label> -> Option<Key>, requestMac': Option<seq<byte>>, now: int, fudgeMax: nat, timersOnly': bool)
    requires WellFormed(m) && Signable(hmac, m, key, requestMac, time, fudge, originalId, error, other)
    requires forall owner :: find(owner).Some? ==> NameFits(find(owner).value.name)
    requires (requestMac'.Some? ==> |requestMac'.value| < 0x1_0000) && (requestMac.Some? <==> requestMac'.Some?)
    requires VerifyWire(hmac, w, find, requestMac', now, fudgeMax, timersOnly').Accepted?
    requires var Accepted(cut, key', _) := VerifyWire(hmac, w, find, requestMac', now, fudgeMax, timersOnly');
             && cut <= SignWire(hmac, m, key, requestMac, time, fudge, originalId, error, other, timersOnly).1
             && key'.secret == key.secret && LowerLabels(key'.algorithm) == LowerLabels(key.algorithm)
             && OneInput(hmac, key, cut)
    ensures var Accepted(_, key', t) := VerifyWire(hmac, w, find, requestMac', now, fudgeMax, timersOnly');
            && (exists start :: 12 <= start <= |w| && t.originalId < 0x1_0000 && Rebuilt(w, start, t) == m && Locate(w).value.0 == start)
            && requestMac' == requestMac && timersOnly' == timersOnly
            && t.time == time && t.fudge == fudge
            && (!timersOnly ==> LowerLabels(key'.name) == LowerLabels(key.name) && t.error == error && t.other == other)
  {
    var (start, t, owner) := Locate(w).value;
    var Accepted(cut, key', _) := VerifyWire(hmac, w, find, requestMac', now, fudgeMax, timersOnly');
    var u := Unsigned(m, key, time, fudge, originalId, error, other);
    LocatedFits(w);
    StrippedIsDelimited(w, start, t);
    WellFormedIsDelimited(m);
    var r := Rebuilt(w, start, t);
    SignedByDigest(hmac, m, key, requestMac, u, timersOnly, time, fudge, originalId, error, other);
    SameLowerFits(key.algorithm, t.algorithm);
    hide Locate, Rebuilt, DigestInput, LowerLabels, WireName, Delimited, Walk, SignWire, GoodHmac;
    var a, b := DigestInput(key', r, t, requestMac', timersOnly'), DigestInput(key, m, u, requestMac, timersOnly);
    assert cut <= hmac(key.secret, LowerLabels(key.algorithm), a) by {
      assert Mac(hmac, key', a)[..|cut|] == cut;
    }
    assert a == b;
    DigestTells(key', r, t, requestMac', timersOnly', key, m, u, requestMac, timersOnly);
  }

  lemma {:induction false} SignedByDigest(hmac: Hmac, m: seq<byte>, key: Key, requestMac: Option<seq<byte>>, u: TsigData, timersOnly: bool,
      time: nat, fudge: nat, originalId: Option<nat>, error: nat, other: seq<byte>)
    requires |m| >= 12 && Signable(hmac, m, key, requestMac, time, fudge, originalId, error, other)
    requires u == Unsigned(m, key, time, fudge, originalId, error, other)
    ensures SignWire(hmac, m, key, requestMac, time, fudge, originalId, error, other, timersOnly).1 ==
            hmac(key.secret, LowerLabels(key.algorithm), DigestInput(key, m, u, requestMac, timersOnly))
  {
    hide DigestInput, AppendTsig;
  }

  lemma {:induction false} SameLowerFits(a: seq<Label>, b: seq<Label>)
    requires NameFits(a) && LabelsFit(b)
    ensures LowerLabels(a) == LowerLabels(b) ==> NameFits(b)
  {
    LowerFits(a);
    LowerFits(b);
  }

  /** So a message altered on the way, whatever the alteration, is refused. */
  lemma {:induction false} AlteredIsRefused(hmac: Hmac, m: seq<byte>, key: Key, requestMac: Option<seq<byte>>, time: nat, fudge: nat,
      error: nat, other: seq<byte>, timersOnly: bool, w: seq<byte>, find: seq<Label> -> Option<Key>, now: int, fudgeMax: nat)
    requires WellFormed(m) && Signable(hmac, m, key, requestMac, time, fudge, None, error, other)
    requires forall owner :: find(owner).Some? ==> NameFits(find(owner).value.name)
    requires var (signed, mac) := SignWire(hmac, m, key, requestMac, time, fudge, None, error, other, timersOnly);
             && Locate(w) == Some((|m|, Unsigned(m, key, time, fudge, None, error, other).(mac := mac), key.name))
             && |w| == |signed| && (exists i :: 12 <= i < |m| && w[i] != signed[i])
             && OneInput(hmac, key, mac)
    requires find(key.name) == Some(key)
    ensures !VerifyWire(hmac, w, find, requestMac, now, fudgeMax, timersOnly).Accepted?
  {
    var (signed, mac) := SignWire(hmac, m, key, requestMac, time, fudge, None, error, other, timersOnly);
    var u := Unsigned(m, key, time, fudge, None, error, other).(mac := mac);
    var i :| 12 <= i < |m| && w[i] != signed[i];
    LocatedFits(w);
    StrippedIsDelimited(w, |m|, u);
    SignedKeeps(m, key, u, i);
    assert Rebuilt(w, |m|, u)[i] == w[i] != m[i];
    hide Locate, Rebuilt, DigestInput, LowerLabels, WireName, Delimited, Walk, GoodHmac, AppendTsig;
    if VerifyWire(hmac, w, find, requestMac, now, fudgeMax, timersOnly).Accepted? {
      AcceptedIsSigned(hmac, m, key, requestMac, time, fudge, None, error, other, timersOnly,
                       w, find, requestMac, now, fudgeMax, timersOnly);
    }
  }

  lemma {:induction false} SignedKeeps(m: seq<byte>, key: Key, t: TsigData, i: nat)
    requires |m| >= 12 && NameFits(key.name) && TsigFits(t) && 12 <= i < |m|
    ensures i < |AppendTsig(m, key, t)| && AppendTsig(m, key, t)[i] == m[i]
  {
    hide TsigRecord, NameFits, TsigFits;
  }
}
