// TSIG signing and verification over message octets (auth_zone/tsig.py), with the
// readers it uses (wire/reader.py, wire/name.py).

module Tsig {
  import opened Wrappers
  import opened Bytes

  const TYPE_TSIG: nat := 250
  const CLASS_ANY: nat := 255
  const MAX_NAME: nat := 255
  const MAX_POINTER_HOPS: nat := 128
  const BADSIG: nat := 16
  const BADKEY: nat := 17
  const BADTIME: nat := 18

  type Label = seq<byte>

  datatype TsigData = TsigData(algorithm: seq<Label>, time: nat, fudge: nat, mac: seq<byte>, originalId: nat,
                               error: nat, other: seq<byte>)

  datatype Key = Key(name: seq<Label>, secret: seq<byte>, algorithm: seq<Label>)

  // ---- Reading ----

  /** `read_name`: a possibly compressed name and where reading goes on. Pointers
    * must lead to `floor` or beyond; the reader itself has floor 0. */
  function ReadName(w: seq<byte>, p: nat, hops: nat, total: nat, floor: nat): (r: Option<(seq<Label>, nat)>)
    ensures r.Some? ==> p < r.value.1 <= |w|
    decreases if hops <= MAX_POINTER_HOPS then MAX_POINTER_HOPS - hops + 1 else 0, |w| - p
  {
    if p >= |w| then None
    else
      var length := w[p] as nat;
      if length == 0 then Some(([], p + 1))
      else if length < 64 then
        if p + 1 + length > |w| || total + length + 1 > MAX_NAME then None
        else
          match ReadName(w, p + 1 + length, hops, total + length + 1, floor)
          case None => None
          case Some((labels, end)) => Some(([w[p + 1..p + 1 + length]] + labels, end))
      else if length >= 192 then
        if hops + 1 > MAX_POINTER_HOPS || p + 1 >= |w| then None
        else
          var ptr := (length - 192) * 256 + w[p + 1] as nat;
          if ptr >= p || ptr < floor then None
          else
            match ReadName(w, ptr, hops + 1, total, floor)
            case None => None
            case Some((labels, _)) => Some((labels, p + 2))
      else None
  }

  /** `Reader.u16` and `Reader.u32`. */
  function Get16(w: seq<byte>, p: nat): Option<nat> {
    if p + 2 > |w| then None else Some(FromU16(w, p))
  }

  function Get32(w: seq<byte>, p: nat): Option<nat> {
    if p + 4 > |w| then None else Some(FromU32(w, p))
  }

  /** A length of two octets, then that many octets. */
  function GetCounted(w: seq<byte>, p: nat): (r: Option<(seq<byte>, nat)>)
    ensures r.Some? ==> p + 2 + |r.value.0| == r.value.1 <= |w|
  {
    match Get16(w, p)
    case None => None
    case Some(n) => if p + 2 + n > |w| then None else Some((w[p + 2..p + 2 + n], p + 2 + n))
  }

  /** `TSIG.parse`. */
  function ParseTsig(w: seq<byte>, p: nat, floor: nat): Option<TsigData> {
    match ReadName(w, p, 0, 1, floor)
    case None => None
    case Some((algorithm, q)) =>
      match (Get16(w, q), Get32(w, q + 2), Get16(w, q + 6), GetCounted(w, q + 8))
      case (Some(high), Some(low), Some(fudge), Some((mac, r))) =>
        (match (Get16(w, r), Get16(w, r + 2), GetCounted(w, r + 4))
         case (Some(id), Some(error), Some((other, _))) =>
           Some(TsigData(algorithm, high * 0x1_0000_0000 + low, fudge, mac, id, error, other))
         case _ => None)
      case _ => None
  }

  datatype Record = Record(start: nat, owner: seq<Label>, rtype: nat, tsig: Option<TsigData>)

  /** One record, and where the next one starts. */
  function ReadRecord(w: seq<byte>, p: nat, floor: nat): (r: Option<(Record, nat)>)
    ensures r.Some? ==> p < r.value.1 <= |w|
  {
    match ReadName(w, p, 0, 1, floor)
    case None => None
    case Some((owner, q)) =>
      if q + 10 > |w| then None
      else
        var rtype, next := FromU16(w, q), q + 10 + FromU16(w, q + 8);
        var tsig := if rtype == TYPE_TSIG then ParseTsig(w, q + 10, floor) else None;
        if next > |w| || (rtype == TYPE_TSIG && tsig.None?) then None
        else Some((Record(p, owner, rtype, tsig), next))
  }

  /** The rest of a message: `qs` questions, then `rs` records. The last record
    * met and where the walk ends. */
  function Walk(w: seq<byte>, p: nat, qs: nat, rs: nat, last: Option<Record>, floor: nat): Option<(Option<Record>, nat)>
    decreases qs + rs
  {
    if qs > 0 then
      match ReadName(w, p, 0, 1, floor)
      case None => None
      case Some((_, q)) => if q + 4 > |w| then None else Walk(w, q + 4, qs - 1, rs, last, floor)
    else if rs > 0 then
      match ReadRecord(w, p, floor)
      case None => None
      case Some((rec, next)) => Walk(w, next, 0, rs - 1, Some(rec), floor)
    else Some((last, p))
  }

  function QdCount(w: seq<byte>): nat
    requires |w| >= 12
  {
    FromU16(w, 4)
  }

  function ArCount(w: seq<byte>): nat
    requires |w| >= 12
  {
    FromU16(w, 10)
  }

  function RecordCount(w: seq<byte>): nat
    requires |w| >= 12
  {
    FromU16(w, 6) + FromU16(w, 8) + ArCount(w)
  }

  /** Where the final TSIG record is: None when the message is malformed or has none. */
  function Locate(w: seq<byte>): Option<(nat, TsigData, seq<Label>)> {
    if |w| < 12 || ArCount(w) == 0 then None
    else
      match Walk(w, 12, QdCount(w), RecordCount(w), None, 0)
      case Some((Some(Record(start, owner, rtype, Some(tsig))), _)) =>
        if rtype == TYPE_TSIG then Some((start, tsig, owner)) else None
      case _ => None
  }

  /** `_locate_tsig`. */
  method LocateTsig(w: seq<byte>) returns (r: Option<(nat, TsigData, seq<Label>)>)
    ensures r == Locate(w)
  {
    if |w| < 12 {
      return None;
    }
    var qd, ar := QdCount(w), ArCount(w);
    var total := qd + RecordCount(w);
    if ar == 0 {
      return None;
    }
    var last := LastRecord(w, qd, total);
    if last.None? || last.value.rtype != TYPE_TSIG || last.value.tsig.None? {
      return None;
    }
    return Some((last.value.start, last.value.tsig.value, last.value.owner));
  }

  /** Its loop: questions are skipped, the last record is kept. */
  method LastRecord(w: seq<byte>, qd: nat, total: nat) returns (last: Option<Record>)
    requires qd <= total
    ensures match Walk(w, 12, qd, total - qd, None, 0)
            case None => last.None?
            case Some((l, _)) => last == l
  {
    hide Walk, ReadName, ReadRecord;
    var p: nat := 12;
    last := None;
    for i := 0 to total
      invariant Walk(w, 12, qd, total - qd, None, 0) ==
                Walk(w, p, if i < qd then qd - i else 0, if i < qd then total - qd else total - i, last, 0)
    {
      if i < qd {
        WalkQuestion(w, p, qd - i, total - qd, last);
        var name := ReadName(w, p, 0, 1, 0);
        if name.None? || name.value.1 + 4 > |w| {
          return None;
        }
        p := name.value.1 + 4;
      } else {
        WalkRecord(w, p, total - i, last);
        var rec := NextRecord(w, p);
        if rec.None? {
          return None;
        }
        last, p := Some(rec.value.0), rec.value.1;
      }
    }
    WalkEnds(w, p, last);
  }

  /** One record: owner, type, class, TTL, rdata length; the rdata is read if it is a TSIG. */
  method NextRecord(w: seq<byte>, start: nat) returns (r: Option<(Record, nat)>)
    ensures r == ReadRecord(w, start, 0)
  {
    hide ReadName, ParseTsig;
    var name := ReadName(w, start, 0, 1, 0);
    if name.None? {
      return None;
    }
    var (owner, q) := name.value;
    if q + 10 > |w| {
      return None;
    }
    var rtype, rdlen := FromU16(w, q), FromU16(w, q + 8);
    var tsig := None;
    if rtype == TYPE_TSIG {
      tsig := ParseTsig(w, q + 10, 0);
      if tsig.None? {
        return None;
      }
    }
    if q + 10 + rdlen > |w| {
      return None;
    }
    return Some((Record(start, owner, rtype, tsig), q + 10 + rdlen));
  }

  lemma {:induction false} WalkQuestion(w: seq<byte>, p: nat, qs: nat, rs: nat, last: Option<Record>)
    requires qs > 0
    ensures Walk(w, p, qs, rs, last, 0) ==
            var name := ReadName(w, p, 0, 1, 0);
            if name.None? || name.value.1 + 4 > |w| then None else Walk(w, name.value.1 + 4, qs - 1, rs, last, 0)
  {
    hide ReadName;
  }

  lemma {:induction false} WalkRecord(w: seq<byte>, p: nat, rs: nat, last: Option<Record>)
    requires rs > 0
    ensures Walk(w, p, 0, rs, last, 0) ==
            var rec := ReadRecord(w, p, 0);
            if rec.None? then None else Walk(w, rec.value.1, 0, rs - 1, Some(rec.value.0), 0)
  {
    hide ReadRecord;
  }

  lemma {:induction false} WalkEnds(w: seq<byte>, p: nat, last: Option<Record>)
    ensures Walk(w, p, 0, 0, last, 0) == Some((last, p))
  {
  }

  // ---- Writing ----

  function WireName(labels: seq<Label>): (s: seq<byte>)
    requires LabelsFit(labels)
    ensures |s| >= 1
  {
    if labels == [] then [0] else [|labels[0]|] + labels[0] + WireName(labels[1..])
  }

  /** Every label has 1 to 63 octets. */
  predicate LabelsFit(labels: seq<Label>) {
    forall i :: 0 <= i < |labels| ==> 1 <= |labels[i]| <= 63
  }

  /** A name that the text parser lets through. */
  predicate NameFits(labels: seq<Label>) {
    LabelsFit(labels) && |WireName(labels)| <= MAX_NAME
  }

  predicate TsigFits(t: TsigData) {
    && NameFits(t.algorithm) && t.time < 0x1_0000_0000_0000 && t.fudge < 0x1_0000
    && t.originalId < 0x1_0000 && t.error < 0x1_0000
    && |t.mac| + |t.other| < 0x1_0000 - 300
  }

  /** What can come out of the reader. */
  predicate Readable(t: TsigData) {
    && LabelsFit(t.algorithm) && t.time < 0x1_0000_0000_0000 && t.fudge < 0x1_0000
    && t.originalId < 0x1_0000 && t.error < 0x1_0000 && |t.other| < 0x1_0000
  }

  function Counted(s: seq<byte>): (r: seq<byte>)
    requires |s| < 0x1_0000
    ensures |r| == 2 + |s|
  {
    U16(|s|) + s
  }

  function Time48(t: nat): (s: seq<byte>)
    requires t < 0x1_0000_0000_0000
    ensures |s| == 6
  {
    U16(t / 0x1_0000_0000) + U32(t % 0x1_0000_0000)
  }

  /** `TSIG.emit`. */
  function TsigRdata(t: TsigData): (s: seq<byte>)
    requires TsigFits(t)
    ensures |s| < 0x1_0000
  {
    WireName(t.algorithm) + (Time48(t.time) + (U16(t.fudge) + (Counted(t.mac) +
      (U16(t.originalId) + (U16(t.error) + Counted(t.other))))))
  }

  function TsigRecord(owner: seq<Label>, t: TsigData): seq<byte>
    requires NameFits(owner) && TsigFits(t)
  {
    WireName(owner) + (U16(TYPE_TSIG) + (U16(CLASS_ANY) + (U32(0) + (U16(|TsigRdata(t)|) + TsigRdata(t)))))
  }

  function WithArCount(m: seq<byte>, n: nat): (s: seq<byte>)
    requires |m| >= 12 && n < 0x1_0000
    ensures |s| == |m| && ArCount(s) == n
    ensures forall i :: 0 <= i < |m| && i != 10 && i != 11 ==> s[i] == m[i]
  {
    U16RoundTrip(n);
    m[10 := U16(n)[0]][11 := U16(n)[1]]
  }

  function WithId(m: seq<byte>, id: nat): (s: seq<byte>)
    requires |m| >= 12 && id < 0x1_0000
    ensures |s| == |m| && FromU16(s, 0) == id
    ensures forall i :: 2 <= i < |m| ==> s[i] == m[i]
  {
    U16RoundTrip(id);
    m[0 := U16(id)[0]][1 := U16(id)[1]]
  }

  /** `_append_tsig_rr`: the count wraps at 16 bits. */
  function AppendTsig(m: seq<byte>, key: Key, t: TsigData): seq<byte>
    requires |m| >= 12 && NameFits(key.name) && TsigFits(t)
  {
    WithArCount(m, (ArCount(m) + 1) % 0x1_0000) + TsigRecord(key.name, t)
  }

  // ---- Signing and verifying ----

  function LowerLabels(labels: seq<Label>): (l: seq<Label>)
    ensures |l| == |labels| && forall i :: 0 <= i < |labels| ==> l[i] == LowerBytes(labels[i])
  {
    seq(|labels|, i requires 0 <= i < |labels| => LowerBytes(labels[i]))
  }

  /** What the MAC is computed over (RFC 8945 section 4.3). */
  function DigestInput(key: Key, m: seq<byte>, t: TsigData, requestMac: Option<seq<byte>>, timersOnly: bool): seq<byte>
    requires NameFits(key.name) && Readable(t) && (requestMac.Some? ==> |requestMac.value| < 0x1_0000)
  {
    (if requestMac.Some? then Counted(requestMac.value) else []) + m +
    if timersOnly then Time48(t.time) + U16(t.fudge)
    else WireName(LowerLabels(key.name)) + U16(CLASS_ANY) + U32(0) + WireName(LowerLabels(t.algorithm)) +
         Time48(t.time) + U16(t.fudge) + U16(t.error) + Counted(t.other)
  }

  /** The hash: a secret, an algorithm name in lower case, and the data. */
  type Hmac = (seq<byte>, seq<Label>, seq<byte>) -> seq<byte>

  /** The MAC of every supported hash has 16 to 64 octets. */
  ghost predicate GoodHmac(hmac: Hmac) {
    forall secret, algorithm, data :: 16 <= |hmac(secret, algorithm, data)| <= 64
  }

  function Mac(hmac: Hmac, key: Key, data: seq<byte>): seq<byte> {
    hmac(key.secret, LowerLabels(key.algorithm), data)
  }

  /** `sign_wire`; returns the signed wire and the MAC. */
  function SignWire(hmac: Hmac, m: seq<byte>, key: Key, requestMac: Option<seq<byte>>, time: nat, fudge: nat,
                    originalId: Option<nat>, error: nat, other: seq<byte>, timersOnly: bool): (seq<byte>, seq<byte>)
    requires |m| >= 12 && Signable(hmac, m, key, requestMac, time, fudge, originalId, error, other)
  {
    var t := Unsigned(m, key, time, fudge, originalId, error, other);
    var mac := Mac(hmac, key, DigestInput(key, m, t, requestMac, timersOnly));
    (AppendTsig(m, key, t.(mac := mac)), mac)
  }

  function Unsigned(m: seq<byte>, key: Key, time: nat, fudge: nat, originalId: Option<nat>, error: nat,
                    other: seq<byte>): TsigData
    requires |m| >= 12
  {
    TsigData(key.algorithm, time, fudge, [], if originalId.Some? then originalId.value else FromU16(m, 0), error, other)
  }

  /** The arguments fit the fields they go into. */
  ghost predicate Signable(hmac: Hmac, m: seq<byte>, key: Key, requestMac: Option<seq<byte>>, time: nat, fudge: nat,
                           originalId: Option<nat>, error: nat, other: seq<byte>)
    requires |m| >= 12
  {
    && NameFits(key.name) && (requestMac.Some? ==> |requestMac.value| < 0x1_0000) && GoodHmac(hmac)
    && TsigFits(Unsigned(m, key, time, fudge, originalId, error, other)) && |other| < 0x1_0000 - 400
  }

  datatype Verdict = Accepted(mac: seq<byte>, key: Key, tsig: TsigData) | Refused(error: nat) | Malformed

  /** The message as it was signed: the TSIG record off, its count and id restored. */
  function Rebuilt(w: seq<byte>, start: nat, t: TsigData): seq<byte>
    requires 12 <= start <= |w| && t.originalId < 0x1_0000
  {
    WithId(WithArCount(w[..start], (ArCount(w) + 0xFFFF) % 0x1_0000), t.originalId)
  }

  function Abs(x: int): nat {
    if x < 0 then -x else x
  }

  /** `verify_wire` up to the replay window; `find` is the keyring lookup. */
  function VerifyWire(hmac: Hmac, w: seq<byte>, find: seq<Label> -> Option<Key>, requestMac: Option<seq<byte>>,
                      now: int, fudgeMax: nat, timersOnly: bool): Verdict
    requires forall owner :: find(owner).Some? ==> NameFits(find(owner).value.name)
    requires requestMac.Some? ==> |requestMac.value| < 0x1_0000
  {
    match Locate(w)
    case None => Malformed
    case Some((start, t, owner)) =>
      LocatedFits(w);
      if find(owner).None? || LowerLabels(find(owner).value.algorithm) != LowerLabels(t.algorithm) then Refused(BADKEY)
      else
        var key := find(owner).value;
        var expected := Mac(hmac, key, DigestInput(key, Rebuilt(w, start, t), t, requestMac, timersOnly));
        var full, got := |expected|, t.mac;
        if |got| > full || |got| < (if full / 2 < 10 then 10 else full / 2) then Refused(BADSIG)
        else if expected[..|got|] != got then Refused(BADSIG)
        else if t.error != 0 then Refused(BADSIG)
        else
          var window := if t.fudge < fudgeMax then t.fudge else fudgeMax;
          if Abs(now - t.time) > window then Refused(BADTIME) else Accepted(got, key, t)
  }

  // ---- What reading gives ----

  lemma {:induction false} ReadLabelsFit(w: seq<byte>, p: nat, hops: nat, total: nat, floor: nat)
    requires ReadName(w, p, hops, total, floor).Some?
    ensures LabelsFit(ReadName(w, p, hops, total, floor).value.0)
    decreases if hops <= MAX_POINTER_HOPS then MAX_POINTER_HOPS - hops + 1 else 0, |w| - p
  {
    var length := w[p] as nat;
    if length == 0 {
    } else if length < 64 {
      ReadLabelsFit(w, p + 1 + length, hops, total + length + 1, floor);
    } else {
      ReadLabelsFit(w, (length - 192) * 256 + w[p + 1] as nat, hops + 1, total, floor);
    }
  }

  lemma {:induction false} ParsedIsReadable(w: seq<byte>, p: nat, floor: nat)
    requires ParseTsig(w, p, floor).Some?
    ensures Readable(ParseTsig(w, p, floor).value)
  {
    ReadLabelsFit(w, p, 0, 1, floor);
  }

  ghost predicate GoodRecord(w: seq<byte>, rec: Record) {
    12 <= rec.start <= |w| && (rec.tsig.Some? ==> Readable(rec.tsig.value))
  }

  lemma {:induction false} WalkGivesGood(w: seq<byte>, p: nat, qs: nat, rs: nat, last: Option<Record>, floor: nat)
    requires Walk(w, p, qs, rs, last, floor).Some? && p >= 12 && (last.Some? ==> GoodRecord(w, last.value))
    ensures var l := Walk(w, p, qs, rs, last, floor).value.0; l.Some? ==> GoodRecord(w, l.value)
    decreases qs + rs
  {
    hide ReadName, ParseTsig, Readable, FromU16;
    if qs > 0 {
      WalkGivesGood(w, ReadName(w, p, 0, 1, floor).value.1 + 4, qs - 1, rs, last, floor);
    } else if rs > 0 {
      var (rec, next) := ReadRecord(w, p, floor).value;
      if rec.tsig.Some? {
        ParsedIsReadable(w, ReadName(w, p, 0, 1, floor).value.1 + 10, floor);
      }
      WalkGivesGood(w, next, 0, rs - 1, Some(rec), floor);
    }
  }

  lemma {:induction false} LocatedFits(w: seq<byte>)
    requires Locate(w).Some?
    ensures 12 <= Locate(w).value.0 <= |w| && Readable(Locate(w).value.1)
  {
    WalkGivesGood(w, 12, QdCount(w), RecordCount(w), None, 0);
  }

  // ---- Reading what was written ----

  lemma {:induction false} At16(w: seq<byte>, p: nat, v: nat)
    requires v < 0x1_0000 && At(w, p, U16(v))
    ensures Get16(w, p) == Some(v)
  {
    U16At(w, p, v);
  }

  lemma {:induction false} At32(w: seq<byte>, p: nat, v: nat)
    requires v < 0x1_0000_0000 && At(w, p, U32(v))
    ensures Get32(w, p) == Some(v)
  {
    U32At(w, p, v);
  }

  lemma {:induction false} AtCounted(w: seq<byte>, p: nat, s: seq<byte>)
    requires |s| < 0x1_0000 && At(w, p, Counted(s))
    ensures GetCounted(w, p) == Some((s, p + 2 + |s|))
  {
    AtSplit(w, p, U16(|s|), s);
    At16(w, p, |s|);
  }

  /** An uncompressed name is read back as it was written. */
  lemma {:induction false} NameRoundTrip(w: seq<byte>, p: nat, labels: seq<Label>, hops: nat, total: nat, floor: nat)
    requires LabelsFit(labels) && At(w, p, WireName(labels)) && total + |WireName(labels)| - 1 <= MAX_NAME
    ensures ReadName(w, p, hops, total, floor) == Some((labels, p + |WireName(labels)|))
    decreases |labels|
  {
    hide At, ReadName;
    if labels == [] {
      AtOne(w, p, 0);
      RootStep(w, p, hops, total, floor);
    } else {
      var n, rest := |labels[0]|, labels[1..];
      assert WireName(labels) == [n] + (labels[0] + WireName(rest));
      AtSplit(w, p, [n], labels[0] + WireName(rest));
      AtSplit(w, p + 1, labels[0], WireName(rest));
      AtOne(w, p, n);
      AtIs(w, p + 1, labels[0]);
      LabelStep(w, p, hops, total, floor);
      NameRoundTrip(w, p + 1 + n, rest, hops, total + n + 1, floor);
      assert labels == [labels[0]] + rest;
    }
  }

  lemma {:induction false} RootStep(w: seq<byte>, p: nat, hops: nat, total: nat, floor: nat)
    requires p < |w| && w[p] == 0
    ensures ReadName(w, p, hops, total, floor) == Some(([], p + 1))
  {
  }

  lemma {:induction false} LabelStep(w: seq<byte>, p: nat, hops: nat, total: nat, floor: nat)
    requires p < |w| && 0 < w[p] < 64 && p + 1 + w[p] as nat <= |w| && total + w[p] as nat + 1 <= MAX_NAME
    ensures var n := w[p] as nat;
            var rest := ReadName(w, p + 1 + n, hops, total + n + 1, floor);
            ReadName(w, p, hops, total, floor) ==
            if rest.None? then None else Some(([w[p + 1..p + 1 + n]] + rest.value.0, rest.value.1))
  {
  }

  lemma {:induction false} RdataRoundTrip(w: seq<byte>, p: nat, t: TsigData)
    requires TsigFits(t) && At(w, p, TsigRdata(t))
    ensures ParseTsig(w, p, 0) == Some(t)
  {
    hide ReadName, WireName, FromU16, FromU32, U16, U32, At, Counted, Time48, Get16, Get32, GetCounted;
    var q := p + |WireName(t.algorithm)|;
    var tail6 := Counted(t.other);
    var tail5 := U16(t.error) + tail6;
    var tail4 := U16(t.originalId) + tail5;
    var tail3 := Counted(t.mac) + tail4;
    var tail2 := U16(t.fudge) + tail3;
    AtSplit(w, p, WireName(t.algorithm), Time48(t.time) + tail2);
    NameRoundTrip(w, p, t.algorithm, 0, 1, 0);
    AtSplit(w, q, Time48(t.time), tail2);
    TimeRoundTrip(w, q, t.time);
    AtSplit(w, q + 6, U16(t.fudge), tail3);
    At16(w, q + 6, t.fudge);
    AtSplit(w, q + 8, Counted(t.mac), tail4);
    AtCounted(w, q + 8, t.mac);
    var r := q + 10 + |t.mac|;
    AtSplit(w, r, U16(t.originalId), tail5);
    At16(w, r, t.originalId);
    AtSplit(w, r + 2, U16(t.error), tail6);
    At16(w, r + 2, t.error);
    AtCounted(w, r + 4, t.other);
  }

  lemma {:induction false} TimeRoundTrip(w: seq<byte>, q: nat, time: nat)
    requires time < 0x1_0000_0000_0000 && At(w, q, Time48(time))
    ensures Get16(w, q).Some? && Get32(w, q + 2).Some?
    ensures Get16(w, q).value * 0x1_0000_0000 + Get32(w, q + 2).value == time
  {
    AtSplit(w, q, U16(time / 0x1_0000_0000), U32(time % 0x1_0000_0000));
    At16(w, q, time / 0x1_0000_0000);
    At32(w, q + 2, time % 0x1_0000_0000);
  }

  lemma {:induction false} RecordRoundTrip(w: seq<byte>, p: nat, owner: seq<Label>, t: TsigData)
    requires NameFits(owner) && TsigFits(t) && At(w, p, TsigRecord(owner, t))
    ensures ReadRecord(w, p, 0) == Some((Record(p, owner, TYPE_TSIG, Some(t)), p + |TsigRecord(owner, t)|))
  {
    hide ReadName, WireName, ParseTsig, TsigRdata, FromU16, U16, FromU32, U32, At, TsigFits;
    var rdata := TsigRdata(t);
    var tail4 := U16(|rdata|) + rdata;
    var tail3 := U32(0) + tail4;
    var tail2 := U16(CLASS_ANY) + tail3;
    var tail1 := U16(TYPE_TSIG) + tail2;
    var q := p + |WireName(owner)|;
    AtSplit(w, p, WireName(owner), tail1);
    NameRoundTrip(w, p, owner, 0, 1, 0);
    AtSplit(w, q, U16(TYPE_TSIG), tail2);
    At16(w, q, TYPE_TSIG);
    AtSplit(w, q + 2, U16(CLASS_ANY), tail3);
    AtSplit(w, q + 4, U32(0), tail4);
    AtSplit(w, q + 8, U16(|rdata|), rdata);
    At16(w, q + 8, |rdata|);
    RdataRoundTrip(w, q + 10, t);
  }

  // ---- Messages ----

  /** The message parses to its very end, and its pointers lead past the header. */
  ghost predicate WellFormed(m: seq<byte>) {
    |m| >= 12 && exists last :: Walk(m, 12, QdCount(m), RecordCount(m), None, 12) == Some((last, |m|))
  }

  /** `s` goes on where `m` ends, and differs from it at most in the header. */
  ghost predicate Extends(s: seq<byte>, m: seq<byte>) {
    |s| >= |m| && forall i :: 12 <= i < |m| ==> s[i] == m[i]
  }

  lemma {:induction false} PointerStep(w: seq<byte>, p: nat, hops: nat, total: nat, floor: nat)
    requires p < |w| && w[p] >= 64
    ensures var length := w[p] as nat;
            ReadName(w, p, hops, total, floor) ==
            if length < 192 || hops + 1 > MAX_POINTER_HOPS || p + 1 >= |w| then None
            else
              var ptr := (length - 192) * 256 + w[p + 1] as nat;
              if ptr >= p || ptr < floor then None
              else
                var rest := ReadName(w, ptr, hops + 1, total, floor);
                if rest.None? then None else Some((rest.value.0, p + 2))
  {
  }

  lemma {:induction false} LabelFits(w: seq<byte>, p: nat, hops: nat, total: nat, floor: nat)
    requires ReadName(w, p, hops, total, floor).Some?
    ensures p < |w| && (0 < w[p] < 64 ==> p + 1 + w[p] as nat <= |w| && total + w[p] as nat + 1 <= MAX_NAME)
  {
  }

  lemma {:induction false} SameName(m: seq<byte>, s: seq<byte>, p: nat, hops: nat, total: nat)
    requires Extends(s, m) && p >= 12 && ReadName(m, p, hops, total, 12).Some?
    ensures ReadName(s, p, hops, total, 0) == ReadName(m, p, hops, total, 12)
    decreases if hops <= MAX_POINTER_HOPS then MAX_POINTER_HOPS - hops + 1 else 0, |m| - p
  {
    hide ReadName;
    LabelFits(m, p, hops, total, 12);
    var length := m[p] as nat;
    if length == 0 {
      RootStep(m, p, hops, total, 12);
      RootStep(s, p, hops, total, 0);
    } else if length < 64 {
      assert s[p + 1..p + 1 + length] == m[p + 1..p + 1 + length];
      LabelStep(m, p, hops, total, 12);
      LabelStep(s, p, hops, total, 0);
      SameName(m, s, p + 1 + length, hops, total + length + 1);
    } else {
      PointerStep(m, p, hops, total, 12);
      PointerStep(s, p, hops, total, 0);
      SameName(m, s, (length - 192) * 256 + m[p + 1] as nat, hops + 1, total);
    }
  }

  lemma {:induction false} Same16(m: seq<byte>, s: seq<byte>, p: nat)
    requires Extends(s, m) && p >= 12 && p + 2 <= |m|
    ensures FromU16(s, p) == FromU16(m, p)
  {
  }

  lemma {:induction false} SameCounted(m: seq<byte>, s: seq<byte>, p: nat)
    requires Extends(s, m) && p >= 12 && GetCounted(m, p).Some?
    ensures GetCounted(s, p) == GetCounted(m, p)
  {
    var n := FromU16(m, p);
    Same16(m, s, p);
    assert s[p + 2..p + 2 + n] == m[p + 2..p + 2 + n];
  }

  lemma {:induction false} SameTsig(m: seq<byte>, s: seq<byte>, p: nat)
    requires Extends(s, m) && p >= 12 && ParseTsig(m, p, 12).Some?
    ensures ParseTsig(s, p, 0) == ParseTsig(m, p, 12)
  {
    hide ReadName, FromU16, GetCounted;
    SameName(m, s, p, 0, 1);
    var q := ReadName(m, p, 0, 1, 12).value.1;
    Same16(m, s, q);
    Same16(m, s, q + 2);
    Same16(m, s, q + 4);
    Same16(m, s, q + 6);
    SameCounted(m, s, q + 8);
    var r := GetCounted(m, q + 8).value.1;
    Same16(m, s, r);
    Same16(m, s, r + 2);
    SameCounted(m, s, r + 4);
  }

  lemma {:induction false} SameRecord(m: seq<byte>, s: seq<byte>, p: nat)
    requires Extends(s, m) && p >= 12 && ReadRecord(m, p, 12).Some?
    ensures ReadRecord(s, p, 0) == ReadRecord(m, p, 12)
  {
    hide ReadName, FromU16, ParseTsig;
    SameName(m, s, p, 0, 1);
    var q := ReadName(m, p, 0, 1, 12).value.1;
    Same16(m, s, q);
    Same16(m, s, q + 8);
    if FromU16(m, q) == TYPE_TSIG {
      SameTsig(m, s, q + 10);
    }
  }

  /** Walking the extended message comes to the end of the original one, with one
    * record to go. */
  lemma {:induction false} WalkOn(m: seq<byte>, s: seq<byte>, p: nat, qs: nat, rs: nat, last: Option<Record>, more: nat)
    requires Extends(s, m) && p >= 12 && Walk(m, p, qs, rs, last, 12).Some?
    ensures var (l, end) := Walk(m, p, qs, rs, last, 12).value;
            Walk(s, p, qs, rs + more, last, 0) == Walk(s, end, 0, more, l, 0)
    decreases qs + rs
  {
    hide ReadName, ReadRecord;
    if qs > 0 {
      SameName(m, s, p, 0, 1);
      WalkOn(m, s, ReadName(m, p, 0, 1, 12).value.1 + 4, qs - 1, rs, last, more);
    } else if rs > 0 {
      SameRecord(m, s, p);
      var (rec, next) := ReadRecord(m, p, 12).value;
      WalkOn(m, s, next, 0, rs - 1, Some(rec), more);
    }
  }

  /** `signed`, whose id may have been changed on the way. */
  ghost predicate IsAppended(w: seq<byte>, m: seq<byte>, key: Key, t: TsigData)
    requires |m| >= 12 && NameFits(key.name) && TsigFits(t)
  {
    var signed := AppendTsig(m, key, t);
    |w| == |signed| && forall i :: 2 <= i < |w| ==> w[i] == signed[i]
  }

  lemma {:induction false} AppendedParts(w: seq<byte>, m: seq<byte>, key: Key, t: TsigData)
    requires |m| >= 12 && NameFits(key.name) && TsigFits(t) && IsAppended(w, m, key, t)
    ensures Extends(w, m) && At(w, |m|, TsigRecord(key.name, t))
    ensures QdCount(w) == QdCount(m) && ArCount(w) == (ArCount(m) + 1) % 0x1_0000
    ensures RecordCount(w) == RecordCount(m) - ArCount(m) + ArCount(w)
  {
    hide TsigRecord, NameFits, TsigFits;
    var head := WithArCount(m, (ArCount(m) + 1) % 0x1_0000);
    var signed := head + TsigRecord(key.name, t);
    assert forall i :: 2 <= i < |m| ==> w[i] == head[i];
    assert signed[|m|..] == TsigRecord(key.name, t);
    assert w[|m|..] == signed[|m|..];
    assert w[|m|..|w|] == w[|m|..];
  }

  /** The appended record is found, exactly: where it starts, what it says, whose it is. */
  lemma {:induction false} AppendedIsLocated(w: seq<byte>, m: seq<byte>, key: Key, t: TsigData)
    requires WellFormed(m) && NameFits(key.name) && TsigFits(t) && IsAppended(w, m, key, t)
    ensures Locate(w) == if ArCount(m) == 0xFFFF then None else Some((|m|, t, key.name))
  {
    hide ReadName, TsigRecord, NameFits, TsigFits, IsAppended, Extends, ReadRecord, FromU16;
    AppendedParts(w, m, key, t);
    if ArCount(m) < 0xFFFF {
      WalkOn(m, w, 12, QdCount(m), RecordCount(m), None, 1);
      RecordRoundTrip(w, |m|, key.name, t);
    }
  }

  /** Stripping it gives back the message that was signed, exactly when the record
    * carries that message's id. */
  lemma {:induction false} RebuiltIsOriginal(w: seq<byte>, m: seq<byte>, key: Key, t: TsigData)
    requires |m| >= 12 && NameFits(key.name) && TsigFits(t) && IsAppended(w, m, key, t)
    ensures |w| >= |m| && (Rebuilt(w, |m|, t) == m <==> t.originalId == FromU16(m, 0))
  {
    hide TsigRecord, NameFits, IsAppended, FromU16;
    AppendedParts(w, m, key, t);
    var r := Rebuilt(w, |m|, t);
    RebuiltCount(w, m, t);
    SameTwo(r, m, 10);
    if t.originalId == FromU16(m, 0) {
      SameTwo(r, m, 0);
      forall i | 2 <= i < |m| && i != 10 && i != 11
        ensures r[i] == m[i]
      {
        AppendedKeeps(w, m, key, t, i);
      }
    }
  }

  lemma {:induction false} RebuiltCount(w: seq<byte>, m: seq<byte>, t: TsigData)
    requires 12 <= |m| <= |w| && t.originalId < 0x1_0000 && ArCount(w) == (ArCount(m) + 1) % 0x1_0000
    ensures ArCount(Rebuilt(w, |m|, t)) == ArCount(m)
  {
    ArCountFits(m);
    CountBackDown(ArCount(m));
    hide FromU16;
    var counted := WithArCount(w[..|m|], (ArCount(w) + 0xFFFF) % 0x1_0000);
    SameAt10(counted, Rebuilt(w, |m|, t));
  }

  lemma {:induction false} ArCountFits(m: seq<byte>)
    requires |m| >= 12
    ensures ArCount(m) < 0x1_0000
  {
  }

  lemma {:induction false} CountBackDown(n: nat)
    requires n < 0x1_0000
    ensures ((n + 1) % 0x1_0000 + 0xFFFF) % 0x1_0000 == n
  {
  }

  lemma {:induction false} SameAt10(a: seq<byte>, b: seq<byte>)
    requires |a| >= 12 && |b| >= 12 && a[10] == b[10] && a[11] == b[11]
    ensures ArCount(a) == ArCount(b)
  {
  }

  lemma {:induction false} AppendedKeeps(w: seq<byte>, m: seq<byte>, key: Key, t: TsigData, i: nat)
    requires |m| >= 12 && NameFits(key.name) && TsigFits(t) && IsAppended(w, m, key, t)
    requires 2 <= i < |m| && i != 10 && i != 11
    ensures i < |w| && w[i] == m[i]
  {
    hide TsigRecord, NameFits, TsigFits, FromU16;
    var head := WithArCount(m, (ArCount(m) + 1) % 0x1_0000);
    assert (head + TsigRecord(key.name, t))[i] == head[i];
  }

  lemma {:induction false} SameTwo(a: seq<byte>, b: seq<byte>, i: nat)
    requires i + 2 <= |a| && i + 2 <= |b| && FromU16(a, i) == FromU16(b, i)
    ensures a[i] == b[i] && a[i + 1] == b[i + 1]
  {
  }

  /** The signer's MAC, cut to a length that a verifier takes (RFC 8945 section 5.2.2.1). */
  predicate CutFits(n: nat, full: nat) {
    n <= full && n >= if full / 2 < 10 then 10 else full / 2
  }

  /** What a signed message becomes when only `n` octets of its MAC are sent. */
  function SignCut(hmac: Hmac, m: seq<byte>, key: Key, requestMac: Option<seq<byte>>, time: nat, fudge: nat,
                   error: nat, other: seq<byte>, timersOnly: bool, n: nat): (seq<byte>, TsigData)
    requires |m| >= 12 && Signable(hmac, m, key, requestMac, time, fudge, None, error, other)
  {
    var u := Unsigned(m, key, time, fudge, None, error, other);
    var mac := Mac(hmac, key, DigestInput(key, m, u, requestMac, timersOnly));
    var t := u.(mac := if n <= |mac| then mac[..n] else mac);
    (AppendTsig(m, key, t), t)
  }

  /** A well-formed message that was signed under its own id, whatever became of that
    * id on the way and of the end of its MAC, verifies under the same key, request MAC
    * and digest form: it is accepted, unless the signer put an error in it or its
    * time is outside the window. */
  lemma {:induction false} CutVerifies(hmac: Hmac, m: seq<byte>, w: seq<byte>, key: Key, requestMac: Option<seq<byte>>,
      time: nat, fudge: nat, error: nat, other: seq<byte>, timersOnly: bool, n: nat,
      find: seq<Label> -> Option<Key>, now: int, fudgeMax: nat)
    requires WellFormed(m) && ArCount(m) < 0xFFFF
    requires Signable(hmac, m, key, requestMac, time, fudge, None, error, other)
    requires forall owner :: find(owner).Some? ==> NameFits(find(owner).value.name)
    requires find(key.name) == Some(key)
    requires var (_, mac) := SignWire(hmac, m, key, requestMac, time, fudge, None, error, other, timersOnly);
             CutFits(n, |mac|)
    requires var (sent, _) := SignCut(hmac, m, key, requestMac, time, fudge, error, other, timersOnly, n);
             |w| == |sent| && forall i :: 2 <= i < |w| ==> w[i] == sent[i]
    ensures var (_, t) := SignCut(hmac, m, key, requestMac, time, fudge, error, other, timersOnly, n);
            && Locate(w) == Some((|m|, t, key.name)) && Rebuilt(w, |m|, t) == m
            && VerifyWire(hmac, w, find, requestMac, now, fudgeMax, timersOnly) ==
               if error != 0 then Refused(BADSIG)
               else if Abs(now - time) > (if fudge < fudgeMax then fudge else fudgeMax) then Refused(BADTIME)
               else Accepted(t.mac, key, t)
  {
    hide Locate, WireName, LowerLabels, DigestInput, AppendTsig, Rebuilt, Walk, FromU16;
    var u := Unsigned(m, key, time, fudge, None, error, other);
    var mac := Mac(hmac, key, DigestInput(key, m, u, requestMac, timersOnly));
    var t := u.(mac := mac[..n]);
    AppendedIsLocated(w, m, key, t);
    RebuiltIsOriginal(w, m, key, t);
    MacNotDigested(key, m, u, mac[..n], requestMac, timersOnly);
  }

  /** The TSIG round trip: the same with the whole MAC. */
  lemma {:induction false} SignedVerifies(hmac: Hmac, m: seq<byte>, w: seq<byte>, key: Key, requestMac: Option<seq<byte>>,
      time: nat, fudge: nat, error: nat, other: seq<byte>, timersOnly: bool,
      find: seq<Label> -> Option<Key>, now: int, fudgeMax: nat)
    requires WellFormed(m) && ArCount(m) < 0xFFFF
    requires Signable(hmac, m, key, requestMac, time, fudge, None, error, other)
    requires forall owner :: find(owner).Some? ==> NameFits(find(owner).value.name)
    requires find(key.name) == Some(key)
    requires var (signed, _) := SignWire(hmac, m, key, requestMac, time, fudge, None, error, other, timersOnly);
             |w| == |signed| && forall i :: 2 <= i < |w| ==> w[i] == signed[i]
    ensures var (_, mac) := SignWire(hmac, m, key, requestMac, time, fudge, None, error, other, timersOnly);
            VerifyWire(hmac, w, find, requestMac, now, fudgeMax, timersOnly) ==
            if error != 0 then Refused(BADSIG)
            else if Abs(now - time) > (if fudge < fudgeMax then fudge else fudgeMax) then Refused(BADTIME)
            else Accepted(mac, key, TsigData(key.algorithm, time, fudge, mac, FromU16(m, 0), error, other))
  {
    hide Locate, WireName, LowerLabels, DigestInput, AppendTsig, Rebuilt, Walk, FromU16, VerifyWire;
    var (_, mac) := SignWire(hmac, m, key, requestMac, time, fudge, None, error, other, timersOnly);
    assert mac[..|mac|] == mac;
    CutVerifies(hmac, m, w, key, requestMac, time, fudge, error, other, timersOnly, |mac|, find, now, fudgeMax);
  }

  lemma {:induction false} MacNotDigested(key: Key, m: seq<byte>, t: TsigData, mac: seq<byte>,
                                          requestMac: Option<seq<byte>>, timersOnly: bool)
    requires NameFits(key.name) && Readable(t) && (requestMac.Some? ==> |requestMac.value| < 0x1_0000)
    ensures DigestInput(key, m, t.(mac := mac), requestMac, timersOnly) == DigestInput(key, m, t, requestMac, timersOnly)
  {
  }
}
