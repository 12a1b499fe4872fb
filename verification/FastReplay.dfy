// Recording a reply and replaying it by patching (engine/fastpath.py, serve and store).

module FastReplay {
  import opened Wrappers
  import opened Bytes
  import opened FastWire

  /** A recorded reply and where its patched fields are. */
  datatype WireAnswer = WireAnswer(
    blob: seq<byte>, ttls: seq<nat>, original: seq<nat>, baseTtl: nat, inserted: real, qend: nat,
    cookie: Option<(nat, nat)>)      // offsets of the cookie in the reply and in the query

  // ---- Recording ----

  function Originals(blob: seq<byte>, offs: seq<nat>): (r: seq<nat>)
    requires forall k :: 0 <= k < |offs| ==> offs[k] + 4 <= |blob|
    ensures |r| == |offs|
    ensures forall k :: 0 <= k < |offs| ==> r[k] == FromU32(blob, offs[k])
  {
    seq(|offs|, k requires 0 <= k < |offs| => FromU32(blob, offs[k]))
  }

  function Minimum(s: seq<nat>): (m: nat)
    requires s != []
    ensures m in s && forall k :: 0 <= k < |s| ==> m <= s[k]
  {
    if |s| == 1 then s[0]
    else
      var m := Minimum(s[1..]);
      if s[0] <= m then s[0] else m
  }

  /** The cookie offsets to record; None when the reply must not be recorded. */
  function CookiePlaces(query: seq<byte>, blob: seq<byte>, cookies: bool): Option<Option<(nat, nat)>> {
    if !cookies then Some(None)
    else
      match EdnsOption(blob, OPTION_COOKIE)
      case None => Some(None)
      case Some((at, len)) =>
        match EdnsOption(query, OPTION_COOKIE)
        case None => None
        case Some((qat, qlen)) => if len == 16 && qlen >= 8 then Some(Some((at, qat))) else None
  }

  /** What `store` records for a query and its reply, if anything. */
  function Recording(query: seq<byte>, blob: seq<byte>, at: real, cookies: bool): Option<WireAnswer> {
    if QueryKey(query).None? || TtlOffsets(blob).None? || TtlOffsets(blob).value == [] then None
    else
      TtlFieldsAreFields(blob);
      var offs := TtlOffsets(blob).value;
      var original := Originals(blob, offs);
      if Minimum(original) < 1 || CookiePlaces(query, blob, cookies).None? then None
      else Some(WireAnswer(blob, offs, original, Minimum(original), at, QueryKey(query).value.1,
                           CookiePlaces(query, blob, cookies).value))
  }

  /** The reply repeats the question it answers. */
  ghost predicate Echoes(query: seq<byte>, blob: seq<byte>) {
    QueryKey(query).Some? && TtlOffsets(blob).Some? ==>
      var qend := QueryKey(query).value.1;
      && QdCount(blob) >= 1 && SkipLabels(blob, 12) == Some(qend)
      && forall i :: 12 <= i < qend ==> LowerByte(blob[i]) == LowerByte(query[i])
  }

  // ---- Replaying ----

  function Ceil(x: real): int {
    -((-x).Floor)
  }

  function NewTtl(was: nat, elapsed: real): nat {
    var left := Ceil(was as real - elapsed);
    if left < 1 then 1 else left
  }

  function Overlay(out: seq<byte>, off: nat, bytes: seq<byte>): (r: seq<byte>)
    requires off + |bytes| <= |out|
    ensures |r| == |out|
    ensures forall i :: 0 <= i < |out| ==> r[i] == if off <= i < off + |bytes| then bytes[i - off] else out[i]
  {
    out[..off] + bytes + out[off + |bytes|..]
  }

  function PatchTtls(out: seq<byte>, offs: seq<nat>, original: seq<nat>, elapsed: real): (r: seq<byte>)
    requires |offs| == |original|
    requires forall k :: 0 <= k < |offs| ==> offs[k] + 4 <= |out| && NewTtl(original[k], elapsed) < 0x1_0000_0000
    ensures |r| == |out|
    decreases |offs|
  {
    if offs == [] then out
    else PatchTtls(Overlay(out, offs[0], U32(NewTtl(original[0], elapsed))), offs[1..], original[1..], elapsed)
  }

  /** A well-formed entry: what Recording makes from an echoing reply. */
  ghost predicate Sound(e: WireAnswer) {
    && TtlOffsets(e.blob) == Some(e.ttls) && e.ttls != []
    && (forall k :: 0 <= k < |e.ttls| ==> e.ttls[k] + 4 <= |e.blob|)
    && e.original == Originals(e.blob, e.ttls)
    && e.baseTtl == Minimum(e.original) >= 1
    && QdCount(e.blob) >= 1 && SkipLabels(e.blob, 12) == Some(e.qend)
    && (e.cookie.Some? ==> EdnsOption(e.blob, OPTION_COOKIE) == Some((e.cookie.value.0, 16))
                           && e.cookie.value.0 + 16 <= |e.blob|)
  }

  lemma {:induction false} TtlStaysInRange(was: nat, elapsed: real)
    requires elapsed >= 0.0 && was >= 1
    ensures 1 <= NewTtl(was, elapsed) <= was
  {
  }

  /** The TTL shown never grows as time passes. */
  lemma {:induction false} TtlNeverGrows(was: nat, earlier: real, later: real)
    requires earlier <= later
    ensures NewTtl(was, later) <= NewTtl(was, earlier)
  {
  }

  /** It is the time left, rounded up to the next second, while there is any. */
  lemma {:induction false} TtlIsTimeLeft(was: nat, elapsed: real)
    requires elapsed < was as real
    ensures NewTtl(was, elapsed) as real >= was as real - elapsed > NewTtl(was, elapsed) as real - 1.0
  {
  }

  lemma {:induction false} SoundTtlsFit(e: WireAnswer, elapsed: real)
    requires Sound(e) && elapsed >= 0.0
    ensures forall k :: 0 <= k < |e.ttls| ==>
              && e.ttls[k] + 4 <= |e.blob| && 1 <= e.baseTtl <= e.original[k] < 0x1_0000_0000
              && 1 <= NewTtl(e.original[k], elapsed) <= e.original[k]
  {
    forall k | 0 <= k < |e.ttls|
      ensures 1 <= NewTtl(e.original[k], elapsed) <= e.original[k]
    {
      TtlStaysInRange(e.original[k], elapsed);
    }
  }

  /** The recorded reply with this client's id and question spelling. */
  function Fronted(blob: seq<byte>, data: seq<byte>, qend: nat): (out: seq<byte>)
    requires 12 <= qend <= |data| && qend <= |blob|
    ensures |out| == |blob|
    ensures forall i :: 0 <= i < |blob| ==>
              out[i] == if i < 2 || 12 <= i < qend then data[i] else blob[i]
  {
    Overlay(Overlay(blob, 0, data[..2]), 12, data[12..qend])
  }

  function WithCookie(out: seq<byte>, at: nat, cookie: Option<seq<byte>>): (r: seq<byte>)
    requires cookie.Some? ==> at + |cookie.value| <= |out|
    ensures |r| == |out|
    ensures forall i :: 0 <= i < |out| ==>
              r[i] == if cookie.Some? && at <= i < at + |cookie.value| then cookie.value[i - at] else out[i]
  {
    if cookie.Some? then Overlay(out, at, cookie.value) else out
  }

  function CookieAt(e: WireAnswer): nat {
    if e.cookie.Some? then e.cookie.value.0 else 0
  }

  /** The three patches of `serve`, on plain octets. */
  function Face(blob: seq<byte>, data: seq<byte>, qend: nat, offs: seq<nat>, original: seq<nat>, elapsed: real,
                at: nat, cookie: Option<seq<byte>>): seq<byte>
    requires 12 <= qend <= |data| && qend <= |blob| && |offs| == |original|
    requires forall k :: 0 <= k < |offs| ==> offs[k] + 4 <= |blob| && NewTtl(original[k], elapsed) < 0x1_0000_0000
    requires cookie.Some? ==> at + |cookie.value| <= |blob|
  {
    WithCookie(PatchTtls(Fronted(blob, data, qend), offs, original, elapsed), at, cookie)
  }

  /** The reply bytes `serve` sends: id and question case of this client, the
    * TTLs counted down, the cookie of this client. */
  function Replay(e: WireAnswer, data: seq<byte>, elapsed: real, cookie: Option<seq<byte>>): seq<byte>
    requires Sound(e) && elapsed >= 0.0 && |data| >= e.qend
    requires cookie.Some? ==> e.cookie.Some? && |cookie.value| == 16
  {
    SoundTtlsFit(e, elapsed);
    Face(e.blob, data, e.qend, e.ttls, e.original, elapsed, CookieAt(e), cookie)
  }

  lemma {:induction false} PatchTtlsFrame(out: seq<byte>, offs: seq<nat>, original: seq<nat>, elapsed: real, i: nat)
    requires |offs| == |original|
    requires forall k :: 0 <= k < |offs| ==> offs[k] + 4 <= |out| && NewTtl(original[k], elapsed) < 0x1_0000_0000
    requires i < |out| && !InField(offs, i)
    ensures PatchTtls(out, offs, original, elapsed)[i] == out[i]
    decreases |offs|
  {
    if offs != [] {
      assert !(offs[0] <= i < offs[0] + 4);
      forall k | 0 <= k < |offs[1..]|
        ensures !(offs[1..][k] <= i < offs[1..][k] + 4)
      {
        assert offs[k + 1] == offs[1..][k];
      }
      PatchTtlsFrame(Overlay(out, offs[0], U32(NewTtl(original[0], elapsed))), offs[1..], original[1..], elapsed, i);
    }
  }

  lemma {:induction false} PatchTtlsValue(out: seq<byte>, offs: seq<nat>, original: seq<nat>, elapsed: real, k: nat)
    requires |offs| == |original|
    requires forall j :: 0 <= j < |offs| ==> offs[j] + 4 <= |out| && NewTtl(original[j], elapsed) < 0x1_0000_0000
    requires Fields(offs, 0, |out|) && k < |offs|
    ensures FromU32(PatchTtls(out, offs, original, elapsed), offs[k]) == NewTtl(original[k], elapsed)
    decreases |offs|
  {
    var v := U32(NewTtl(original[0], elapsed));
    var out' := Overlay(out, offs[0], v);
    if k > 0 {
      PatchTtlsValue(out', offs[1..], original[1..], elapsed, k - 1);
    } else {
      forall i | offs[0] <= i < offs[0] + 4
        ensures PatchTtls(out, offs, original, elapsed)[i] == v[i - offs[0]]
      {
        forall j | 0 <= j < |offs[1..]|
          ensures !(offs[1..][j] <= i < offs[1..][j] + 4)
        {
          assert offs[j + 1] == offs[1..][j];
        }
        PatchTtlsFrame(out', offs[1..], original[1..], elapsed, i);
      }
      U32RoundTrip(NewTtl(original[0], elapsed));
      SameU32(PatchTtls(out, offs, original, elapsed), offs[0], v);
    }
  }

  lemma {:induction false} SameU32(s: seq<byte>, off: nat, v: seq<byte>)
    requires |v| == 4 && off + 4 <= |s| && forall i :: off <= i < off + 4 ==> s[i] == v[i - off]
    ensures FromU32(s, off) == FromU32(v, 0)
  {
    assert s[off] == v[0] && s[off + 1] == v[1] && s[off + 2] == v[2] && s[off + 3] == v[3];
  }

  /** The cookie lies in the OPT record, away from every TTL field. */
  lemma {:induction false} CookieApart(blob: seq<byte>, p: nat, count: nat, code: nat, i: nat)
    requires TtlWalk(blob, p, count).Some? && EdnsWalk(blob, p, count, code).Some?
    requires var (at, len) := EdnsWalk(blob, p, count, code).value; at <= i < at + len
    ensures !InField(TtlWalk(blob, p, count).value, i)
    decreases count
  {
    var q := SkipName(blob, p).value;
    var next := q + 10 + FromU16(blob, q + 8);
    TtlStep(blob, p, count);
    EdnsStep(blob, p, count, code);
    WalkGivesFields(blob, next, count - 1);
    var offs, rest := TtlWalk(blob, p, count).value, TtlWalk(blob, next, count - 1).value;
    if FromU16(blob, q) == TYPE_OPT {
      assert offs == rest;
    } else {
      CookieApart(blob, next, count - 1, code, i);
      CookiePastStart(blob, next, count - 1, code);
      NotInFirst(offs, rest, q + 4, i);
    }
  }

  lemma {:induction false} CookieApartInMessage(blob: seq<byte>, i: nat)
    requires TtlOffsets(blob).Some? && InCookie(blob, i)
    ensures !InField(TtlOffsets(blob).value, i)
  {
    LooseIsStrict(blob, 12, QdCount(blob));
    CookieApart(blob, SkipQuestions(blob, 12, QdCount(blob)).value, RecordCount(blob), OPTION_COOKIE, i);
  }

  /** The TTL fields and the cookie lie past the question, apart from each other. */
  lemma {:induction false} PatchedPlaces(e: WireAnswer)
    requires Sound(e)
    ensures Fields(e.ttls, e.qend + 4, |e.blob|)
    ensures e.cookie.Some? ==> e.qend + 4 <= CookieAt(e) && CookieAt(e) + 16 <= |e.blob|
    ensures e.cookie.Some? ==> forall i: nat :: CookieAt(e) <= i < CookieAt(e) + 16 ==> !InField(e.ttls, i) && InCookie(e.blob, i)
  {
    TtlFieldsAreFields(e.blob);
    QuestionPastName(e.blob, e.qend);
    CookiePastQuestions(e.blob);
    if e.cookie.Some? {
      assert InCookie(e.blob, CookieAt(e));
      forall i: nat | CookieAt(e) <= i < CookieAt(e) + 16
        ensures !InField(e.ttls, i) && InCookie(e.blob, i)
      {
        CookieApartInMessage(e.blob, i);
      }
    }
  }

  ghost predicate InSpan(i: nat, at: nat, cookie: Option<seq<byte>>) {
    cookie.Some? && at <= i < at + |cookie.value|
  }

  /** The octets of `out` are those of `blob`, but for the patched places. */
  ghost predicate FaceOf(out: seq<byte>, blob: seq<byte>, data: seq<byte>, qend: nat, offs: seq<nat>,
                         at: nat, cookie: Option<seq<byte>>)
    requires 12 <= qend <= |data| && qend <= |blob|
  {
    && |out| == |blob|
    && (forall i :: 0 <= i < |blob| && (i < 2 || 12 <= i < qend) ==> out[i] == data[i])
    && (cookie.Some? ==> at + |cookie.value| <= |out| && out[at..at + |cookie.value|] == cookie.value)
    && forall i: nat :: 2 <= i < |blob| && !(12 <= i < qend) && !InField(offs, i) && !InSpan(i, at, cookie) ==> out[i] == blob[i]
  }

  lemma {:induction false} FaceLooks(blob: seq<byte>, data: seq<byte>, qend: nat, offs: seq<nat>, original: seq<nat>,
                                     elapsed: real, at: nat, cookie: Option<seq<byte>>)
    requires 12 <= qend <= |data| && qend <= |blob| && Fields(offs, qend, |blob|) && |offs| == |original|
    requires forall k :: 0 <= k < |offs| ==> NewTtl(original[k], elapsed) < 0x1_0000_0000
    requires cookie.Some? ==> qend <= at && at + |cookie.value| <= |blob|
    requires cookie.Some? ==> forall i: nat :: at <= i < at + |cookie.value| ==> !InField(offs, i)
    ensures FaceOf(Face(blob, data, qend, offs, original, elapsed, at, cookie), blob, data, qend, offs, at, cookie)
  {
    var front := Fronted(blob, data, qend);
    var timed := PatchTtls(front, offs, original, elapsed);
    forall i: nat | i < |blob| && !InField(offs, i)
      ensures timed[i] == front[i]
    {
      PatchTtlsFrame(front, offs, original, elapsed, i);
    }
    assert forall i: nat :: i < qend ==> !InField(offs, i);
  }

  lemma {:induction false} FaceIsPatched(out: seq<byte>, blob: seq<byte>, data: seq<byte>, qend: nat, at: nat,
                                         cookie: Option<seq<byte>>)
    requires TtlOffsets(blob).Some? && QdCount(blob) >= 1 && SkipLabels(blob, 12) == Some(qend) && qend <= |data|
    requires FaceOf(out, blob, data, qend, TtlOffsets(blob).value, at, cookie)
    requires forall i :: 12 <= i < qend ==> LowerByte(data[i]) == LowerByte(blob[i])
    requires cookie.Some? ==> forall i: nat :: at <= i < at + |cookie.value| ==> InCookie(blob, i)
    ensures Patched(blob, out, qend)
  {
  }

  /** A replay is a patch of the recorded reply: every octet but the id, the
    * question's letter case, the TTLs and the cookie is the recorded one, and
    * id, question and cookie are this client's. */
  lemma {:induction false} ReplayIsPatch(e: WireAnswer, data: seq<byte>, elapsed: real, cookie: Option<seq<byte>>)
    requires Sound(e) && elapsed >= 0.0 && |data| >= e.qend
    requires cookie.Some? ==> e.cookie.Some? && |cookie.value| == 16
    requires forall i :: 12 <= i < e.qend ==> LowerByte(data[i]) == LowerByte(e.blob[i])
    ensures Patched(e.blob, Replay(e, data, elapsed, cookie), e.qend)
    ensures FaceOf(Replay(e, data, elapsed, cookie), e.blob, data, e.qend, e.ttls, CookieAt(e), cookie)
  {
    ReplayFace(e, data, elapsed, cookie);
    PatchedPlaces(e);
    FaceIsPatched(Replay(e, data, elapsed, cookie), e.blob, data, e.qend, CookieAt(e), cookie);
  }

  lemma {:induction false} ReplayFace(e: WireAnswer, data: seq<byte>, elapsed: real, cookie: Option<seq<byte>>)
    requires Sound(e) && elapsed >= 0.0 && |data| >= e.qend
    requires cookie.Some? ==> e.cookie.Some? && |cookie.value| == 16
    ensures FaceOf(Replay(e, data, elapsed, cookie), e.blob, data, e.qend, e.ttls, CookieAt(e), cookie)
  {
    SoundTtlsFit(e, elapsed);
    PatchedPlaces(e);
    FaceLooks(e.blob, data, e.qend, e.ttls, e.original, elapsed, CookieAt(e), cookie);
  }

  /** And each TTL field holds the time its own record has left. */
  lemma {:induction false} ReplayTtls(e: WireAnswer, data: seq<byte>, elapsed: real, cookie: Option<seq<byte>>, k: nat)
    requires Sound(e) && elapsed >= 0.0 && |data| >= e.qend && k < |e.ttls|
    requires cookie.Some? ==> e.cookie.Some? && |cookie.value| == 16
    ensures |Replay(e, data, elapsed, cookie)| == |e.blob|
    ensures FromU32(Replay(e, data, elapsed, cookie), e.ttls[k]) == NewTtl(e.original[k], elapsed)
  {
    SoundTtlsFit(e, elapsed);
    PatchedPlaces(e);
    FaceTtls(e.blob, data, e.qend, e.ttls, e.original, elapsed, CookieAt(e), cookie, k);
  }

  lemma {:induction false} FaceTtls(blob: seq<byte>, data: seq<byte>, qend: nat, offs: seq<nat>, original: seq<nat>,
                                    elapsed: real, at: nat, cookie: Option<seq<byte>>, k: nat)
    requires 12 <= qend <= |data| && qend <= |blob| && Fields(offs, qend, |blob|) && k < |offs| == |original|
    requires forall j :: 0 <= j < |offs| ==> NewTtl(original[j], elapsed) < 0x1_0000_0000
    requires cookie.Some? ==> at + |cookie.value| <= |blob|
    requires cookie.Some? ==> forall i: nat :: at <= i < at + |cookie.value| ==> !InField(offs, i)
    ensures |Face(blob, data, qend, offs, original, elapsed, at, cookie)| == |blob|
    ensures FromU32(Face(blob, data, qend, offs, original, elapsed, at, cookie), offs[k]) == NewTtl(original[k], elapsed)
  {
    var front := Fronted(blob, data, qend);
    var timed := PatchTtls(front, offs, original, elapsed);
    PatchTtlsValue(front, offs, original, elapsed, k);
    forall i: nat | offs[k] <= i < offs[k] + 4
      ensures WithCookie(timed, at, cookie)[i] == timed[i]
    {
      assert InField(offs, i);
    }
  }

  /** Replayed at once to the very query it was recorded for, a reply without a
    * cookie comes out byte for byte as it was recorded. */
  lemma {:induction false} ImmediateReplayIsRecording(e: WireAnswer, data: seq<byte>)
    requires Sound(e) && |data| >= e.qend
    requires data[..2] == e.blob[..2] && data[12..e.qend] == e.blob[12..e.qend]
    ensures Replay(e, data, 0.0, None) == e.blob
  {
    SoundTtlsFit(e, 0.0);
    SoundEnds(e);
    SameFront(e.blob, data, e.qend);
    SoundOriginals(e);
    hide Sound, Fronted, PatchTtls, NewTtl;
    NothingElapsed(e.blob, e.ttls, e.original);
  }

  lemma {:induction false} SoundEnds(e: WireAnswer)
    requires Sound(e)
    ensures 12 <= e.qend <= |e.blob|
  {
  }

  lemma {:induction false} SoundOriginals(e: WireAnswer)
    requires Sound(e)
    ensures |e.ttls| == |e.original|
    ensures forall k :: 0 <= k < |e.ttls| ==> e.ttls[k] + 4 <= |e.blob| && 1 <= e.original[k] == FromU32(e.blob, e.ttls[k])
  {
    SoundTtlsFit(e, 0.0);
  }

  lemma {:induction false} SameFront(blob: seq<byte>, data: seq<byte>, qend: nat)
    requires 12 <= qend <= |data| && qend <= |blob|
    requires data[..2] == blob[..2] && data[12..qend] == blob[12..qend]
    ensures Fronted(blob, data, qend) == blob
  {
    hide Fronted;
    assert forall i :: 12 <= i < qend ==> data[i] == data[12..qend][i - 12] && blob[i] == blob[12..qend][i - 12];
    assert forall i :: 0 <= i < 2 ==> data[i] == data[..2][i] && blob[i] == blob[..2][i];
  }

  lemma {:induction false} NothingElapsed(out: seq<byte>, offs: seq<nat>, original: seq<nat>)
    requires |offs| == |original|
    requires forall k :: 0 <= k < |offs| ==> offs[k] + 4 <= |out| && 1 <= original[k] == FromU32(out, offs[k])
    ensures forall k :: 0 <= k < |offs| ==> NewTtl(original[k], 0.0) == original[k] < 0x1_0000_0000
    ensures PatchTtls(out, offs, original, 0.0) == out
    decreases |offs|
  {
    if offs != [] {
      var v := FromU32(out, offs[0]);
      assert NewTtl(original[0], 0.0) == v;
      U32OfBytes(out, offs[0]);
      assert Overlay(out, offs[0], U32(v)) == out;
      NothingElapsed(out, offs[1..], original[1..]);
    }
  }

  lemma {:induction false} U32OfBytes(s: seq<byte>, off: nat)
    requires off + 4 <= |s|
    ensures U32(FromU32(s, off)) == s[off..off + 4]
  {
    var hi, lo := FromU16(s, off), FromU16(s, off + 2);
    assert FromU32(s, off) / 0x1_0000 == hi && FromU32(s, off) % 0x1_0000 == lo;
  }

  /** The client's cookie sits where it did in the query the reply was recorded for. */
  lemma {:induction false} CookieStaysPut(a: seq<byte>, b: seq<byte>, code: nat)
    requires QueryKey(a).Some? && QueryKey(b).Some? && SameQuery(a, b, QueryKey(a).value.1)
    ensures EdnsOption(a, code) == EdnsOption(b, code)
  {
    hide EdnsWalk;
    var end := QueryKey(a).value.1;
    SkipLabelsIgnoresCase(a, b, 12, end);
    PlainName(a, 12);
    PlainName(b, 12);
    assert SkipQuestionsLoosely(a, 12, 1) == SkipQuestionsLoosely(a, end + 4, 0) == Some(end + 4);
    assert SkipQuestionsLoosely(b, 12, 1) == SkipQuestionsLoosely(b, end + 4, 0) == Some(end + 4);
    SameTail(a, b, end + 4, RecordCount(a), code);
  }

  lemma {:induction false} SameTail(a: seq<byte>, b: seq<byte>, p: nat, count: nat, code: nat)
    requires |a| == |b| && forall i :: p <= i < |a| ==> a[i] == b[i]
    ensures EdnsWalk(a, p, count, code) == EdnsWalk(b, p, count, code)
    decreases count
  {
    hide SkipName, OptionWalk, FromU16;
    if count > 0 {
      SameTailName(a, b, p);
      if SkipName(a, p).Some? && SkipName(a, p).value + 10 <= |a| {
        var q := SkipName(a, p).value;
        SameTailHead(a, b, p, q);
        if FromU16(a, q) == TYPE_OPT {
          var next := q + 10 + FromU16(a, q + 8);
          SameTailOptions(a, b, q + 10, if next <= |a| then next else |a|, code);
        } else {
          SameTail(a, b, q + 10 + FromU16(a, q + 8), count - 1, code);
        }
      }
    }
  }

  lemma {:induction false} SameTailHead(a: seq<byte>, b: seq<byte>, p: nat, q: nat)
    requires |a| == |b| && p <= q && q + 10 <= |a| && forall i :: p <= i < |a| ==> a[i] == b[i]
    ensures FromU16(a, q) == FromU16(b, q) && FromU16(a, q + 8) == FromU16(b, q + 8)
  {
  }

  lemma {:induction false} SameTailName(a: seq<byte>, b: seq<byte>, p: nat)
    requires |a| == |b| && forall i :: p <= i < |a| ==> a[i] == b[i]
    ensures SkipName(a, p) == SkipName(b, p)
    decreases |a| - p
  {
    if p < |a| && 0 < a[p] < 64 {
      SameTailName(a, b, p + a[p] + 1);
    }
  }

  lemma {:induction false} SameTailOptions(a: seq<byte>, b: seq<byte>, q: nat, end: nat, code: nat)
    requires end <= |a| == |b| && forall i :: q <= i < |a| ==> a[i] == b[i]
    ensures OptionWalk(a, q, end, code) == OptionWalk(b, q, end, code)
    decreases end - q
  {
    if q + 4 <= end {
      SameTailOptions(a, b, q + 4 + FromU16(a, q + 2), end, code);
    }
  }

  lemma {:induction false} RecordingIsSound(query: seq<byte>, blob: seq<byte>, at: real, cookies: bool)
    requires Recording(query, blob, at, cookies).Some? && Echoes(query, blob)
    ensures Sound(Recording(query, blob, at, cookies).value)
  {
    TtlFieldsAreFields(blob);
    if EdnsOption(blob, OPTION_COOKIE).Some? {
      OptionInside(blob, OPTION_COOKIE);
    }
  }

  lemma {:induction false} OptionInside(blob: seq<byte>, code: nat)
    requires EdnsOption(blob, code).Some?
    ensures EdnsOption(blob, code).value.0 + EdnsOption(blob, code).value.1 <= |blob|
  {
    OptionInsideWalk(blob, SkipQuestionsLoosely(blob, 12, QdCount(blob)).value, RecordCount(blob), code);
  }

  lemma {:induction false} OptionInsideWalk(blob: seq<byte>, p: nat, count: nat, code: nat)
    requires EdnsWalk(blob, p, count, code).Some?
    ensures EdnsWalk(blob, p, count, code).value.0 + EdnsWalk(blob, p, count, code).value.1 <= |blob|
    decreases count
  {
    var q := SkipName(blob, p).value;
    if FromU16(blob, q) != TYPE_OPT {
      OptionInsideWalk(blob, q + 10 + FromU16(blob, q + 8), count - 1, code);
    }
  }
}
