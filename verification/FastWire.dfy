// The byte walkers of the fast path (engine/fastpath.py): the query key, the
// TTL fields of a reply and its EDNS options, and what patching leaves alone.
//
// An octet is a number here, so the masks of the code are comparisons: a label
// octet with either top bit set is at least 64, with both set at least 192.

module FastWire {
  import opened Wrappers
  import opened Bytes

  const TYPE_OPT: nat := 41
  const OPTION_COOKIE: nat := 10

  // ---- The query key ----

  /** The end of an uncompressed name that starts at `p`. */
  function SkipLabels(data: seq<byte>, p: nat): (end: Option<nat>)
    ensures end.Some? ==> p < end.value <= |data|
    decreases |data| - p
  {
    if p >= |data| then None
    else if data[p] == 0 then Some(p + 1)
    else if data[p] >= 64 then None
    else SkipLabels(data, p + data[p] + 1)
  }

  /** A query header: QR and OPCODE zero, one question, no answer, no authority. */
  predicate QueryHeader(data: seq<byte>)
    requires |data| >= 12
  {
    data[2] < 8 && data[4] == 0 && data[5] == 1 && data[6] == data[7] == data[8] == data[9] == 0
  }

  function KeyBytes(data: seq<byte>, end: nat): seq<byte>
    requires 12 <= end <= |data|
  {
    LowerBytes(data[12..end]) + data[end..] + data[2..4] + data[10..12]
  }

  function QueryKey(data: seq<byte>): (r: Option<(seq<byte>, nat)>)
    ensures r.Some? ==> 12 < r.value.1 && r.value.1 + 4 <= |data|
  {
    if |data| < 17 || !QueryHeader(data) then None
    else
      match SkipLabels(data, 12)
      case None => None
      case Some(p) => if p + 4 > |data| then None else Some((KeyBytes(data, p), p))
  }

  method ComputeQueryKey(data: seq<byte>) returns (r: Option<(seq<byte>, nat)>)
    ensures r == QueryKey(data)
  {
    var n := |data|;
    if n < 17 {
      return None;
    }
    if data[2] >= 8 {
      return None;
    }
    if data[4] != 0 || data[5] != 1 {
      return None;
    }
    if data[6] != 0 || data[7] != 0 || data[8] != 0 || data[9] != 0 {
      return None;
    }
    var p := 12;
    var ended := false;
    while p < n && !ended
      invariant 12 <= p
      invariant if ended then SkipLabels(data, 12) == Some(p) else SkipLabels(data, 12) == SkipLabels(data, p)
      decreases n - p, !ended
    {
      var ln := data[p];
      if ln == 0 {
        p, ended := p + 1, true;
      } else if ln >= 64 {
        return None;
      } else {
        p := p + ln + 1;
      }
    }
    if !ended || p + 4 > n {
      return None;
    }
    return Some((KeyBytes(data, p), p));
  }

  /** The same query up to its id and the letter case of its question name. */
  ghost predicate SameQuery(a: seq<byte>, b: seq<byte>, end: nat) {
    && |a| == |b| && 12 <= end <= |a|
    && (forall i :: 2 <= i < |a| && !(12 <= i < end) ==> a[i] == b[i])
    && (forall i :: 12 <= i < end ==> LowerByte(a[i]) == LowerByte(b[i]))
  }

  lemma {:induction false} LowLabelOctet(a: byte, b: byte)
    requires LowerByte(a) == LowerByte(b) && a < 64
    ensures a == b
  {
  }

  /** Case differences inside the labels do not move the end of the name. */
  lemma {:induction false} SkipLabelsIgnoresCase(a: seq<byte>, b: seq<byte>, p: nat, end: nat)
    requires SkipLabels(a, p) == Some(end) && end <= |b|
    requires forall i :: p <= i < end ==> LowerByte(a[i]) == LowerByte(b[i])
    ensures SkipLabels(b, p) == Some(end)
    decreases |a| - p
  {
    LowLabelOctet(a[p], b[p]);
    if a[p] != 0 {
      SkipLabelsIgnoresCase(a, b, p + a[p] + 1, end);
    }
  }

  /** The lowercased name still says where it ends: two walks that agree octet by
    * octet, up to case, for as long as both last, end together. */
  lemma {:induction false} WalksEndTogether(a: seq<byte>, b: seq<byte>, p: nat, endA: nat, endB: nat)
    requires SkipLabels(a, p) == Some(endA) && SkipLabels(b, p) == Some(endB)
    requires forall i :: p <= i < endA && i < endB ==> LowerByte(a[i]) == LowerByte(b[i])
    ensures endA == endB
    decreases |a| - p
  {
    LowLabelOctet(a[p], b[p]);
    if a[p] != 0 {
      WalksEndTogether(a, b, p + a[p] + 1, endA, endB);
    }
  }

  lemma {:induction false} KeyAt(data: seq<byte>, end: nat)
    requires 12 <= end <= |data|
    ensures var key := KeyBytes(data, end);
            && |key| == |data| - 8
            && (forall j :: 0 <= j < end - 12 ==> key[j] == LowerByte(data[j + 12]))
            && (forall j :: end - 12 <= j < |data| - 12 ==> key[j] == data[j + 12])
            && key[|data| - 12] == data[2] && key[|data| - 11] == data[3]
            && key[|data| - 10] == data[10] && key[|data| - 9] == data[11]
  {
    var key, lower := KeyBytes(data, end), LowerBytes(data[12..end]);
    assert key == lower + (data[end..] + data[2..4] + data[10..12]);
    assert forall j :: 0 <= j < end - 12 ==> key[j] == lower[j] && data[12..end][j] == data[j + 12];
  }

  /** The key identifies the query: two accepted datagrams have equal keys if and
    * only if they are the same query, and then their questions end together. */
  lemma {:induction false} KeyIdentifiesQuery(a: seq<byte>, b: seq<byte>)
    requires QueryKey(a).Some? && QueryKey(b).Some?
    ensures QueryKey(a).value.0 == QueryKey(b).value.0 <==> SameQuery(a, b, QueryKey(a).value.1)
    ensures QueryKey(a).value.0 == QueryKey(b).value.0 ==> QueryKey(a).value.1 == QueryKey(b).value.1
  {
    var (ka, pa) := QueryKey(a).value;
    var (kb, pb) := QueryKey(b).value;
    KeyAt(a, pa);
    KeyAt(b, pb);
    if ka == kb {
      EqualKeysSameQuery(a, b, pa, pb);
    }
    if SameQuery(a, b, pa) {
      SkipLabelsIgnoresCase(a, b, 12, pa);
      forall j | 0 <= j < |ka|
        ensures ka[j] == kb[j]
      {
        assert j + 12 < |a| ==> LowerByte(a[j + 12]) == LowerByte(b[j + 12]);
      }
    }
  }

  lemma {:induction false} EqualKeysSameQuery(a: seq<byte>, b: seq<byte>, pa: nat, pb: nat)
    requires 12 <= pa <= |a| && 12 <= pb <= |b|
    requires QueryKey(a) == Some((KeyBytes(a, pa), pa)) && QueryKey(b) == Some((KeyBytes(b, pb), pb))
    requires KeyBytes(a, pa) == KeyBytes(b, pb)
    ensures pa == pb && SameQuery(a, b, pa)
  {
    var key := KeyBytes(a, pa);
    KeyAt(a, pa);
    KeyAt(b, pb);
    forall i | 12 <= i < pa && i < pb
      ensures LowerByte(a[i]) == LowerByte(b[i])
    {
      assert key[i - 12] == LowerByte(a[i]);
    }
    WalksEndTogether(a, b, 12, pa, pb);
    forall i | 12 <= i < pa
      ensures LowerByte(a[i]) == LowerByte(b[i])
    {
      assert key[i - 12] == LowerByte(a[i]);
    }
    forall i | 2 <= i < |a| && !(12 <= i < pa)
      ensures a[i] == b[i]
    {
      if i >= pa {
        assert key[i - 12] == a[i];
      }
    }
  }

  // ---- Walking a message ----

  /** `_skip_name`: past a possibly compressed name; None for -1. */
  function SkipName(blob: seq<byte>, p: nat): (end: Option<nat>)
    ensures end.Some? ==> p < end.value <= |blob|
    decreases |blob| - p
  {
    if p >= |blob| then None
    else if blob[p] == 0 then Some(p + 1)
    else if blob[p] >= 192 then (if p + 2 <= |blob| then Some(p + 2) else None)
    else if blob[p] >= 64 then None
    else SkipName(blob, p + blob[p] + 1)
  }

  method ComputeSkipName(blob: seq<byte>, start: nat) returns (end: Option<nat>)
    ensures end == SkipName(blob, start)
  {
    var p := start;
    while p < |blob|
      invariant SkipName(blob, start) == SkipName(blob, p)
    {
      var ln := blob[p];
      if ln == 0 {
        return Some(p + 1);
      }
      if ln >= 192 {
        return if p + 2 <= |blob| then Some(p + 2) else None;
      }
      if ln >= 64 {
        return None;
      }
      p := p + ln + 1;
    }
    return None;
  }

  function QdCount(blob: seq<byte>): nat
    requires |blob| >= 12
  {
    FromU16(blob, 4)
  }

  function RecordCount(blob: seq<byte>): nat
    requires |blob| >= 12
  {
    FromU16(blob, 6) + FromU16(blob, 8) + FromU16(blob, 10)
  }

  /** Past `count` questions. */
  function SkipQuestions(blob: seq<byte>, p: nat, count: nat): (end: Option<nat>)
    ensures end.Some? ==> p <= end.value && (count > 0 ==> end.value <= |blob|)
    decreases count
  {
    if count == 0 then Some(p)
    else
      match SkipName(blob, p)
      case None => None
      case Some(q) => if q + 4 > |blob| then None else SkipQuestions(blob, q + 4, count - 1)
  }

  /** The TTL offsets of the `count` records from `p` on. */
  function TtlWalk(blob: seq<byte>, p: nat, count: nat): Option<seq<nat>>
    decreases count
  {
    if count == 0 then Some([])
    else
      match SkipName(blob, p)
      case None => None
      case Some(q) =>
        if q + 10 > |blob| then None
        else
          var next := q + 10 + FromU16(blob, q + 8);
          if next > |blob| then None
          else
            match TtlWalk(blob, next, count - 1)
            case None => None
            case Some(rest) => Some((if FromU16(blob, q) == TYPE_OPT then [] else [q + 4]) + rest)
  }

  function TtlOffsets(blob: seq<byte>): Option<seq<nat>> {
    if |blob| < 12 then None
    else
      match SkipQuestions(blob, 12, QdCount(blob))
      case None => None
      case Some(p) => TtlWalk(blob, p, RecordCount(blob))
  }

  method ComputeTtlOffsets(blob: seq<byte>) returns (r: Option<seq<nat>>)
    ensures r == TtlOffsets(blob)
  {
    var n := |blob|;
    if n < 12 {
      return None;
    }
    var qd := FromU16(blob, 4);
    var total := FromU16(blob, 6) + FromU16(blob, 8) + FromU16(blob, 10);
    var p: nat := 12;
    for i := 0 to qd
      invariant SkipQuestions(blob, 12, qd) == SkipQuestions(blob, p, qd - i)
    {
      var q := ComputeSkipName(blob, p);
      if q.None? || q.value + 4 > n {
        return None;
      }
      p := q.value + 4;
    }
    r := RecordTtls(blob, p, total);
  }

  method RecordTtls(blob: seq<byte>, start: nat, total: nat) returns (r: Option<seq<nat>>)
    ensures r == TtlWalk(blob, start, total)
  {
    var p: nat := start;
    var out: seq<nat> := [];
    ghost var left := total;
    PrependNothing(TtlWalk(blob, start, total));
    for i := 0 to total
      invariant left == total - i
      invariant TtlWalk(blob, start, total) == Prepend(out, TtlWalk(blob, p, left))
    {
      var q := ComputeSkipName(blob, p);
      if q.None? || q.value + 10 > |blob| {
        return None;
      }
      var rtype := FromU16(blob, q.value);
      var rdlen := FromU16(blob, q.value + 8);
      TtlStep(blob, p, left);
      p := q.value + 10 + rdlen;
      if p > |blob| {
        return None;
      }
      left := left - 1;
      PrependTwice(out, if rtype == TYPE_OPT then [] else [q.value + 4], TtlWalk(blob, p, left));
      out := out + if rtype == TYPE_OPT then [] else [q.value + 4];
    }
    assert out + [] == out;
    return Some(out);
  }

  ghost function Prepend(out: seq<nat>, rest: Option<seq<nat>>): Option<seq<nat>> {
    match rest
    case None => None
    case Some(r) => Some(out + r)
  }

  /** One record of a TTL walk. */
  lemma {:induction false} TtlStep(blob: seq<byte>, p: nat, count: nat)
    requires count > 0 && SkipName(blob, p).Some? && SkipName(blob, p).value + 10 <= |blob|
    ensures var q := SkipName(blob, p).value;
            var next := q + 10 + FromU16(blob, q + 8);
            TtlWalk(blob, p, count) ==
            if next > |blob| then None
            else Prepend(if FromU16(blob, q) == TYPE_OPT then [] else [q + 4], TtlWalk(blob, next, count - 1))
  {
  }

  lemma {:induction false} PrependNothing(rest: Option<seq<nat>>)
    ensures Prepend([], rest) == rest
  {
    if rest.Some? {
      assert [] + rest.value == rest.value;
    }
  }

  lemma {:induction false} PrependTwice(a: seq<nat>, b: seq<nat>, rest: Option<seq<nat>>)
    ensures Prepend(a, Prepend(b, rest)) == Prepend(a + b, rest)
  {
    if rest.Some? {
      assert a + (b + rest.value) == (a + b) + rest.value;
    }
  }

  /** The first option `code` among the options in `[q, end)`. */
  function OptionWalk(blob: seq<byte>, q: nat, end: nat, code: nat): (r: Option<(nat, nat)>)
    requires end <= |blob|
    ensures r.Some? ==> q + 4 <= r.value.0 && r.value.0 + r.value.1 <= end
    decreases end - q
  {
    if q + 4 > end then None
    else
      var olen := FromU16(blob, q + 2);
      if FromU16(blob, q) == code then (if q + 4 + olen <= end then Some((q + 4, olen)) else None)
      else OptionWalk(blob, q + 4 + olen, end, code)
  }

  /** The option in the first OPT record among the `count` records from `p` on. */
  function EdnsWalk(blob: seq<byte>, p: nat, count: nat, code: nat): Option<(nat, nat)>
    decreases count
  {
    if count == 0 then None
    else
      match SkipName(blob, p)
      case None => None
      case Some(q) =>
        if q + 10 > |blob| then None
        else
          var next := q + 10 + FromU16(blob, q + 8);
          if FromU16(blob, q) == TYPE_OPT then
            OptionWalk(blob, q + 10, if next <= |blob| then next else |blob|, code)
          else EdnsWalk(blob, next, count - 1, code)
  }

  /** As SkipQuestions, but the four octets after a name are not checked for. */
  function SkipQuestionsLoosely(blob: seq<byte>, p: nat, count: nat): Option<nat>
    decreases count
  {
    if count == 0 then Some(p)
    else
      match SkipName(blob, p)
      case None => None
      case Some(q) => SkipQuestionsLoosely(blob, q + 4, count - 1)
  }

  function EdnsOption(blob: seq<byte>, code: nat): Option<(nat, nat)> {
    if |blob| < 12 then None
    else
      match SkipQuestionsLoosely(blob, 12, QdCount(blob))
      case None => None
      case Some(p) => EdnsWalk(blob, p, RecordCount(blob), code)
  }

  method ComputeEdnsOption(blob: seq<byte>, code: nat) returns (r: Option<(nat, nat)>)
    ensures r == EdnsOption(blob, code)
  {
    var n := |blob|;
    if n < 12 {
      return None;
    }
    var qd := FromU16(blob, 4);
    var total := qd + FromU16(blob, 6) + FromU16(blob, 8) + FromU16(blob, 10);
    var p: nat := 12;
    for i := 0 to total
      invariant i <= qd ==> EdnsOption(blob, code) == AfterQuestions(blob, p, qd - i, code)
      invariant i > qd ==> EdnsOption(blob, code) == EdnsWalk(blob, p, total - i, code)
    {
      var q := ComputeSkipName(blob, p);
      if q.None? {
        return None;
      }
      p := q.value;
      if i < qd {
        p := p + 4;
        continue;
      }
      if p + 10 > n {
        return None;
      }
      var rtype := FromU16(blob, p);
      var rdlen := FromU16(blob, p + 8);
      var body := p + 10;
      if rtype == TYPE_OPT {
        var end := if body + rdlen <= n then body + rdlen else n;
        r := ScanOptions(blob, body, end, code);
        return;
      }
      p := body + rdlen;
    }
    return None;
  }

  /** What is left to do with `count` questions to go. */
  ghost function AfterQuestions(blob: seq<byte>, p: nat, count: nat, code: nat): Option<(nat, nat)>
    requires |blob| >= 12
  {
    match SkipQuestionsLoosely(blob, p, count)
    case None => None
    case Some(q) => EdnsWalk(blob, q, RecordCount(blob), code)
  }

  method ScanOptions(blob: seq<byte>, start: nat, end: nat, code: nat) returns (r: Option<(nat, nat)>)
    requires end <= |blob|
    ensures r == OptionWalk(blob, start, end, code)
  {
    var q := start;
    while q + 4 <= end
      invariant OptionWalk(blob, start, end, code) == OptionWalk(blob, q, end, code)
      decreases end - q
    {
      var ocode := FromU16(blob, q);
      var olen := FromU16(blob, q + 2);
      if ocode == code {
        return if q + 4 + olen <= end then Some((q + 4, olen)) else None;
      }
      q := q + 4 + olen;
    }
    return None;
  }

  // ---- Where the TTL fields are ----

  /** Ascending, disjoint four-octet fields within `[lo, hi)`. */
  ghost predicate Fields(offs: seq<nat>, lo: nat, hi: nat) {
    && (forall i :: 0 <= i < |offs| ==> lo <= offs[i] && offs[i] + 4 <= hi)
    && (forall i, j :: 0 <= i < j < |offs| ==> offs[i] + 4 <= offs[j])
  }

  lemma {:induction false} WalkGivesFields(blob: seq<byte>, p: nat, count: nat)
    requires TtlWalk(blob, p, count).Some?
    ensures Fields(TtlWalk(blob, p, count).value, p, |blob|)
    decreases count
  {
    if count > 0 {
      var q := SkipName(blob, p).value;
      var next := q + 10 + FromU16(blob, q + 8);
      WalkGivesFields(blob, next, count - 1);
    }
  }

  /** The TTL fields lie past the header and the question section. */
  lemma {:induction false} TtlFieldsAreFields(blob: seq<byte>)
    requires TtlOffsets(blob).Some?
    ensures SkipQuestions(blob, 12, QdCount(blob)).Some?
    ensures Fields(TtlOffsets(blob).value, SkipQuestions(blob, 12, QdCount(blob)).value, |blob|)
  {
    WalkGivesFields(blob, SkipQuestions(blob, 12, QdCount(blob)).value, RecordCount(blob));
  }

  // ---- Patching ----

  ghost predicate InField(offs: seq<nat>, i: nat) {
    exists k :: 0 <= k < |offs| && offs[k] <= i < offs[k] + 4
  }

  /** The cookie value of a message: its EDNS option COOKIE, if it has one. */
  ghost predicate InCookie(blob: seq<byte>, i: nat) {
    var c := EdnsOption(blob, OPTION_COOKIE);
    c.Some? && c.value.0 <= i < c.value.0 + c.value.1
  }

  /** `out` differs from `blob` at most in the id, the letter case of the first
    * question name (which ends at `qend`), the TTL fields and the cookie value. */
  ghost predicate Patched(blob: seq<byte>, out: seq<byte>, qend: nat) {
    && |out| == |blob|
    && TtlOffsets(blob).Some? && QdCount(blob) >= 1 && SkipLabels(blob, 12) == Some(qend)
    && (forall i :: 12 <= i < qend ==> LowerByte(out[i]) == LowerByte(blob[i]))
    && (forall i :: 2 <= i < |blob| && !(12 <= i < qend) && !InField(TtlOffsets(blob).value, i) && !InCookie(blob, i) ==>
          out[i] == blob[i])
  }

  ghost predicate Same(blob: seq<byte>, out: seq<byte>, lo: nat, hi: nat) {
    |out| == |blob| && forall i :: lo <= i < hi && i < |blob| ==> out[i] == blob[i]
  }

  lemma {:induction false} SameName(blob: seq<byte>, out: seq<byte>, p: nat)
    requires SkipName(blob, p).Some? && Same(blob, out, p, SkipName(blob, p).value)
    ensures SkipName(out, p) == SkipName(blob, p)
    decreases |blob| - p
  {
    if 0 < blob[p] < 64 {
      SameName(blob, out, p + blob[p] + 1);
    }
  }

  lemma {:induction false} PlainName(blob: seq<byte>, p: nat)
    requires SkipLabels(blob, p).Some?
    ensures SkipName(blob, p) == SkipLabels(blob, p)
    decreases |blob| - p
  {
    if blob[p] != 0 {
      PlainName(blob, p + blob[p] + 1);
    }
  }

  /** Option walks agree when only the value of a found cookie differs. */
  lemma {:induction false} SameOptions(blob: seq<byte>, out: seq<byte>, q: nat, end: nat, clo: nat, chi: nat, code: nat)
    requires end <= |blob| == |out|
    requires forall i :: q <= i < end && !(clo <= i < chi) ==> out[i] == blob[i]
    requires chi <= clo || chi <= q ||
             (clo <= chi && OptionWalk(blob, q, end, OPTION_COOKIE) == Some((clo, chi - clo)))
    ensures OptionWalk(out, q, end, code) == OptionWalk(blob, q, end, code)
    decreases end - q
  {
    if q + 4 <= end {
      var olen := FromU16(blob, q + 2);
      SameOptions(blob, out, q + 4 + olen, end, clo, chi, code);
    }
  }

  /** The cookie range `[clo, chi)` is behind `p`, or is what the walk from `p` finds. */
  ghost predicate CookieAhead(blob: seq<byte>, p: nat, count: nat, clo: nat, chi: nat) {
    chi <= clo || chi <= p || EdnsWalk(blob, p, count, OPTION_COOKIE) == Some((clo, chi - clo))
  }

  /** Outside the TTL fields ahead and the cookie, `out` is `blob` from `p` on. */
  ghost predicate SameFrom(blob: seq<byte>, out: seq<byte>, p: nat, offs: seq<nat>, clo: nat, chi: nat) {
    && |out| == |blob|
    && forall i :: p <= i < |blob| && !InField(offs, i) && !(clo <= i < chi) ==> out[i] == blob[i]
  }

  /** The TTL walk over the records is unaffected by a patch. */
  lemma {:induction false} SameTtlWalk(blob: seq<byte>, out: seq<byte>, p: nat, count: nat, clo: nat, chi: nat)
    requires TtlWalk(blob, p, count).Some?
    requires CookieAhead(blob, p, count, clo, chi)
    requires SameFrom(blob, out, p, TtlWalk(blob, p, count).value, clo, chi)
    ensures TtlWalk(out, p, count) == TtlWalk(blob, p, count)
    decreases count
  {
    hide SkipName, EdnsWalk, SameFrom, CookieAhead, FromU16;
    if count > 0 {
      var next := SkipName(blob, p).value + 10 + FromU16(blob, SkipName(blob, p).value + 8);
      HeadUnchanged(blob, out, p, count, clo, chi);
      RestUntouched(blob, out, p, count, clo, chi);
      SameTtlWalk(blob, out, next, count - 1, clo, chi);
      TtlStep(blob, p, count);
      TtlStep(out, p, count);
    }
  }

  /** And so is the search for an EDNS option. */
  lemma {:induction false} SameEdnsWalk(blob: seq<byte>, out: seq<byte>, p: nat, count: nat, clo: nat, chi: nat, code: nat)
    requires TtlWalk(blob, p, count).Some?
    requires CookieAhead(blob, p, count, clo, chi)
    requires SameFrom(blob, out, p, TtlWalk(blob, p, count).value, clo, chi)
    ensures EdnsWalk(out, p, count, code) == EdnsWalk(blob, p, count, code)
    decreases count
  {
    hide SkipName, OptionWalk, SameFrom, CookieAhead, FromU16;
    if count > 0 {
      var next := SkipName(blob, p).value + 10 + FromU16(blob, SkipName(blob, p).value + 8);
      HeadUnchanged(blob, out, p, count, clo, chi);
      EdnsStep(blob, p, count, code);
      EdnsStep(out, p, count, code);
      if FromU16(blob, SkipName(blob, p).value) == TYPE_OPT {
        SameOpt(blob, out, p, count, clo, chi, code);
      } else {
        RestUntouched(blob, out, p, count, clo, chi);
        SameEdnsWalk(blob, out, next, count - 1, clo, chi, code);
      }
    }
  }

  /** One record of an EDNS walk that stays inside the message. */
  lemma {:induction false} EdnsStep(blob: seq<byte>, p: nat, count: nat, code: nat)
    requires count > 0 && SkipName(blob, p).Some? && SkipName(blob, p).value + 10 <= |blob|
    requires SkipName(blob, p).value + 10 + FromU16(blob, SkipName(blob, p).value + 8) <= |blob|
    ensures var q := SkipName(blob, p).value;
            var next := q + 10 + FromU16(blob, q + 8);
            EdnsWalk(blob, p, count, code) ==
            if FromU16(blob, q) == TYPE_OPT then OptionWalk(blob, q + 10, next, code)
            else EdnsWalk(blob, next, count - 1, code)
  {
  }

  lemma {:induction false} SameOpt(blob: seq<byte>, out: seq<byte>, p: nat, count: nat, clo: nat, chi: nat, code: nat)
    requires count > 0 && TtlWalk(blob, p, count).Some? && CookieAhead(blob, p, count, clo, chi)
    requires SameFrom(blob, out, p, TtlWalk(blob, p, count).value, clo, chi)
    requires FromU16(blob, SkipName(blob, p).value) == TYPE_OPT
    ensures var q := SkipName(blob, p).value;
            var next := q + 10 + FromU16(blob, q + 8);
            OptionWalk(out, q + 10, next, code) == OptionWalk(blob, q + 10, next, code)
  {
    var q := SkipName(blob, p).value;
    OptUntouched(blob, out, p, count, clo, chi);
    EdnsStep(blob, p, count, OPTION_COOKIE);
    SameOptions(blob, out, q + 10, q + 10 + FromU16(blob, q + 8), clo, chi, code);
  }

  /** A record is found in the same place, with the same type and rdata length. */
  lemma {:induction false} HeadUnchanged(blob: seq<byte>, out: seq<byte>, p: nat, count: nat, clo: nat, chi: nat)
    requires count > 0 && TtlWalk(blob, p, count).Some? && CookieAhead(blob, p, count, clo, chi)
    requires SameFrom(blob, out, p, TtlWalk(blob, p, count).value, clo, chi)
    ensures SkipName(out, p) == SkipName(blob, p)
    ensures |out| == |blob|
    ensures var q := SkipName(blob, p).value;
            FromU16(out, q) == FromU16(blob, q) && FromU16(out, q + 8) == FromU16(blob, q + 8)
  {
    RecordHeadUntouched(blob, out, p, count, clo, chi);
    SameName(blob, out, p);
    SameHead(blob, out, SkipName(blob, p).value);
  }

  lemma {:induction false} SameHead(blob: seq<byte>, out: seq<byte>, q: nat)
    requires q + 10 <= |blob| && Same(blob, out, q, q + 4) && Same(blob, out, q + 8, q + 10)
    ensures FromU16(out, q) == FromU16(blob, q) && FromU16(out, q + 8) == FromU16(blob, q + 8)
  {
  }

  lemma {:induction false} RestUntouched(blob: seq<byte>, out: seq<byte>, p: nat, count: nat, clo: nat, chi: nat)
    requires count > 0 && TtlWalk(blob, p, count).Some? && CookieAhead(blob, p, count, clo, chi)
    requires SameFrom(blob, out, p, TtlWalk(blob, p, count).value, clo, chi)
    ensures var q := SkipName(blob, p).value;
            var next := q + 10 + FromU16(blob, q + 8);
            && SameFrom(blob, out, next, TtlWalk(blob, next, count - 1).value, clo, chi)
            && CookieAhead(blob, next, count - 1, clo, chi)
  {
    var q := SkipName(blob, p).value;
    var next := q + 10 + FromU16(blob, q + 8);
    var offs, rest := TtlWalk(blob, p, count).value, TtlWalk(blob, next, count - 1).value;
    forall i | next <= i < |blob| && !InField(rest, i) && !(clo <= i < chi)
      ensures out[i] == blob[i]
    {
      NotInFirst(offs, rest, q + 4, i);
    }
  }

  lemma {:induction false} OptUntouched(blob: seq<byte>, out: seq<byte>, p: nat, count: nat, clo: nat, chi: nat)
    requires count > 0 && TtlWalk(blob, p, count).Some?
    requires SameFrom(blob, out, p, TtlWalk(blob, p, count).value, clo, chi)
    requires FromU16(blob, SkipName(blob, p).value) == TYPE_OPT
    ensures var q := SkipName(blob, p).value;
            forall i :: q + 10 <= i < q + 10 + FromU16(blob, q + 8) && !(clo <= i < chi) ==> out[i] == blob[i]
  {
    var q := SkipName(blob, p).value;
    var next := q + 10 + FromU16(blob, q + 8);
    var offs := TtlWalk(blob, p, count).value;
    WalkGoesOn(blob, p, count);
    WalkGivesFields(blob, next, count - 1);
    hide TtlWalk, Fields, InField, SkipName, FromU16;
    forall i | q + 10 <= i < next && !(clo <= i < chi)
      ensures out[i] == blob[i]
    {
      FieldsAreBehind(offs, next, |blob|, i);
    }
  }

  /** The first record adds its TTL field, unless it is an OPT, to those of the others. */
  lemma {:induction false} WalkGoesOn(blob: seq<byte>, p: nat, count: nat)
    requires count > 0 && TtlWalk(blob, p, count).Some?
    ensures SkipName(blob, p).Some?
    ensures var q := SkipName(blob, p).value;
            && p < q && q + 10 <= |blob|
            && var next := q + 10 + FromU16(blob, q + 8);
               && next <= |blob| && TtlWalk(blob, next, count - 1).Some?
               && var rest := TtlWalk(blob, next, count - 1).value;
                  TtlWalk(blob, p, count).value == if FromU16(blob, q) == TYPE_OPT then rest else [q + 4] + rest
  {
    hide SkipName, FromU16;
    assert forall rest: seq<nat> :: [] + rest == rest;
  }

  lemma {:induction false} FieldsAreBehind(offs: seq<nat>, lo: nat, hi: nat, i: nat)
    requires Fields(offs, lo, hi) && i < lo
    ensures !InField(offs, i)
  {
  }

  /** Name, type, class and rdata length of a record are never patched. */
  lemma {:induction false} RecordHeadUntouched(blob: seq<byte>, out: seq<byte>, p: nat, count: nat, clo: nat, chi: nat)
    requires count > 0 && TtlWalk(blob, p, count).Some? && CookieAhead(blob, p, count, clo, chi)
    requires SameFrom(blob, out, p, TtlWalk(blob, p, count).value, clo, chi)
    ensures var q := SkipName(blob, p).value;
            Same(blob, out, p, q + 4) && Same(blob, out, q + 8, q + 10)
  {
    var q := SkipName(blob, p).value;
    CookiePastHead(blob, p, count, clo, chi);
    forall i | p <= i < q + 10 && !(q + 4 <= i < q + 8)
      ensures out[i] == blob[i]
    {
      HeadNotInField(blob, p, count, i);
    }
  }

  lemma {:induction false} HeadNotInField(blob: seq<byte>, p: nat, count: nat, i: nat)
    requires count > 0 && TtlWalk(blob, p, count).Some?
    requires var q := SkipName(blob, p).value; p <= i < q + 10 && !(q + 4 <= i < q + 8)
    ensures !InField(TtlWalk(blob, p, count).value, i)
  {
    var q := SkipName(blob, p).value;
    var next := q + 10 + FromU16(blob, q + 8);
    WalkGoesOn(blob, p, count);
    WalkGivesFields(blob, next, count - 1);
    hide TtlWalk, Fields, InField, SkipName, FromU16;
    FieldsAreBehind(TtlWalk(blob, next, count - 1).value, next, |blob|, i);
    NotInFirst(TtlWalk(blob, p, count).value, TtlWalk(blob, next, count - 1).value, q + 4, i);
  }

  lemma {:induction false} NotInFirst(offs: seq<nat>, rest: seq<nat>, first: nat, i: nat)
    requires offs == rest || offs == [first] + rest
    requires !(first <= i < first + 4) && !InField(rest, i)
    ensures !InField(offs, i)
  {
    forall k | 0 <= k < |offs|
      ensures !(offs[k] <= i < offs[k] + 4)
    {
      if offs != rest && k > 0 {
        assert rest[k - 1] == offs[k];
      }
    }
  }

  lemma {:induction false} CookiePastHead(blob: seq<byte>, p: nat, count: nat, clo: nat, chi: nat)
    requires count > 0 && TtlWalk(blob, p, count).Some? && CookieAhead(blob, p, count, clo, chi)
    ensures chi <= clo || chi <= p || SkipName(blob, p).value + 10 <= clo
    decreases count
  {
    var q := SkipName(blob, p).value;
    var next := q + 10 + FromU16(blob, q + 8);
    if chi > clo && chi > p && FromU16(blob, q) != TYPE_OPT {
      assert EdnsWalk(blob, next, count - 1, OPTION_COOKIE) == Some((clo, chi - clo));
      CookiePastStart(blob, next, count - 1, OPTION_COOKIE);
    }
  }

  lemma {:induction false} CookiePastStart(blob: seq<byte>, p: nat, count: nat, code: nat)
    requires EdnsWalk(blob, p, count, code).Some?
    ensures EdnsWalk(blob, p, count, code).value.0 >= p
    decreases count
  {
    var q := SkipName(blob, p).value;
    if FromU16(blob, q) != TYPE_OPT {
      CookiePastStart(blob, q + 10 + FromU16(blob, q + 8), count - 1, code);
    }
  }

  /** Questions are untouched, but for the letter case of the first name. */
  lemma {:induction false} SameQuestions(blob: seq<byte>, out: seq<byte>, p: nat, count: nat)
    requires SkipQuestions(blob, p, count).Some? && Same(blob, out, p, SkipQuestions(blob, p, count).value)
    ensures SkipQuestions(out, p, count) == SkipQuestions(blob, p, count)
    ensures SkipQuestionsLoosely(out, p, count) == SkipQuestionsLoosely(blob, p, count) == SkipQuestions(blob, p, count)
    decreases count
  {
    if count > 0 {
      SameName(blob, out, p);
      SameQuestions(blob, out, SkipName(blob, p).value + 4, count - 1);
    }
  }

  lemma {:induction false} LooseIsStrict(blob: seq<byte>, p: nat, count: nat)
    requires SkipQuestions(blob, p, count).Some?
    ensures SkipQuestionsLoosely(blob, p, count) == SkipQuestions(blob, p, count)
    decreases count
  {
    if count > 0 {
      LooseIsStrict(blob, SkipName(blob, p).value + 4, count - 1);
    }
  }

  /** The header and the question section of a patched message. */
  lemma {:induction false} FrontPreserved(blob: seq<byte>, out: seq<byte>, qend: nat)
    requires Patched(blob, out, qend)
    ensures QdCount(out) == QdCount(blob) && RecordCount(out) == RecordCount(blob)
    ensures SkipLabels(out, 12) == Some(qend)
    ensures var qd := QdCount(blob);
            && SkipQuestions(out, 12, qd) == SkipQuestions(blob, 12, qd)
            && SkipQuestionsLoosely(out, 12, qd) == SkipQuestionsLoosely(blob, 12, qd) == SkipQuestions(blob, 12, qd)
  {
    var qd, offs := QdCount(blob), TtlOffsets(blob).value;
    var p := SkipQuestions(blob, 12, qd).value;
    TtlFieldsAreFields(blob);
    LooseIsStrict(blob, 12, qd);
    CookiePastQuestions(blob);
    SkipLabelsIgnoresCase(blob, out, 12, qend);
    PlainName(blob, 12);
    PlainName(out, 12);
    forall i | 2 <= i < p && !(12 <= i < qend)
      ensures out[i] == blob[i]
    {
      assert !InField(offs, i);
    }
    SameQuestions(blob, out, qend + 4, qd - 1);
  }

  lemma {:induction false} CookiePastQuestions(blob: seq<byte>)
    requires TtlOffsets(blob).Some?
    ensures forall i: nat :: InCookie(blob, i) ==> i >= SkipQuestions(blob, 12, QdCount(blob)).value
  {
    LooseIsStrict(blob, 12, QdCount(blob));
    if EdnsOption(blob, OPTION_COOKIE).Some? {
      CookiePastStart(blob, SkipQuestions(blob, 12, QdCount(blob)).value, RecordCount(blob), OPTION_COOKIE);
    }
  }

  /** Patching preserves structure: the patched message has its TTL fields, and
    * every EDNS option, exactly where the original has them. */
  lemma {:induction false} PatchPreservesStructure(blob: seq<byte>, out: seq<byte>, qend: nat, code: nat)
    requires Patched(blob, out, qend)
    ensures TtlOffsets(out) == TtlOffsets(blob)
    ensures EdnsOption(out, code) == EdnsOption(blob, code)
    ensures SkipLabels(out, 12) == Some(qend)
  {
    hide SkipQuestions, SkipName, TtlWalk, EdnsWalk, FromU16;
    FrontPreserved(blob, out, qend);
    QuestionPastName(blob, qend);
    var p := SkipQuestions(blob, 12, QdCount(blob)).value;
    var c := EdnsOption(blob, OPTION_COOKIE);
    var clo, chi := if c.Some? then c.value.0 else 0, if c.Some? then c.value.0 + c.value.1 else 0;
    assert forall i :: clo <= i < chi ==> InCookie(blob, i);
    assert forall i: nat :: InCookie(blob, i) ==> clo <= i < chi;
    SameTtlWalk(blob, out, p, RecordCount(blob), clo, chi);
    SameEdnsWalk(blob, out, p, RecordCount(blob), clo, chi, code);
  }

  lemma {:induction false} QuestionPastName(blob: seq<byte>, qend: nat)
    requires |blob| >= 12 && QdCount(blob) >= 1 && SkipLabels(blob, 12) == Some(qend)
    requires SkipQuestions(blob, 12, QdCount(blob)).Some?
    ensures SkipQuestions(blob, 12, QdCount(blob)).value >= qend + 4
  {
    PlainName(blob, 12);
  }
}
